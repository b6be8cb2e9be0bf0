/** The tree of monitored hosts and the pure meaning of the operations of
    src/wigo/global.go on it. A path is the list of map keys followed from the
    root; NodeAt is the independent view the lemmas speak about. */
module Forest {
  import opened Basics

  datatype Host = Host(group: string, status: int, probes: map<string, int>)

  datatype Wigo = Wigo(uuid: string, hostname: string, isAlive: bool,
                       globalStatus: int, globalMessage: string, lastUpdate: int,
                       host: Host, remotes: map<string, Wigo>)

  type Path = seq<string>

  function NodeAt(w: Wigo, path: Path): Option<Wigo> {
    if path == [] then Some(w)
    else if path[0] in w.remotes then NodeAt(w.remotes[path[0]], path[1..])
    else None
  }

  /** The node at `path`, when it exists and is not the root. */
  ghost predicate Below(w: Wigo, path: Path, n: Wigo) {
    path != [] && NodeAt(w, path) == Some(n)
  }

  lemma SameBelow(a: Wigo, b: Wigo, path: Path)
    requires a.remotes == b.remotes && path != []
    ensures NodeAt(a, path) == NodeAt(b, path)
  {
  }

  // ---------------------------------------------------------------- statuses

  /** `r` is the largest probe status, floored at 0. */
  ghost predicate IsWorst(r: int, probes: map<string, int>) {
    && r >= 0
    && (forall p :: p in probes ==> probes[p] <= r)
    && (r == 0 || exists p :: p in probes && probes[p] == r)
  }

  ghost function Worst(probes: map<string, int>): (r: int)
    ensures IsWorst(r, probes)
    decreases |probes|
  {
    if probes == map[] then 0
    else
      var p :| p in probes;
      var rest := Worst(probes - {p});
      assert forall q :: q in probes ==> q == p || (q in probes - {p} && (probes - {p})[q] == probes[q]);
      if probes[p] > rest then probes[p] else rest
  }

  lemma WorstIsUnique(r: int, probes: map<string, int>)
    requires IsWorst(r, probes)
    ensures r == Worst(probes)
  {
  }

  ghost function Recomputed(w: Wigo): Wigo {
    w.(globalStatus := Worst(w.host.probes))
  }

  // ------------------------------------------------------------ deduplication

  /** Every strict descendant is stored under its own uuid. */
  ghost predicate KeysMatch(w: Wigo) {
    forall k :: k in w.remotes ==> w.remotes[k].uuid == k && KeysMatch(w.remotes[k])
  }

  /** The keys Deduplicate removes: the current top-level keys of `local`, and its own uuid unless empty. */
  function Dropped(uuid: string, remotes: map<string, Wigo>): set<string> {
    remotes.Keys + if uuid != "" then {uuid} else {}
  }

  function Prune(drop: set<string>, w: Wigo): Wigo {
    w.(remotes := map k | k in w.remotes && k !in drop :: Prune(drop, w.remotes[k]))
  }

  ghost predicate Avoids(path: Path, drop: set<string>) {
    forall i :: 0 <= i < |path| ==> path[i] !in drop
  }

  /** KeysMatch, said by paths: the node reached by a path is the one its last key names. */
  lemma KeysMatchByPath(w: Wigo)
    ensures KeysMatch(w) <==> forall path, n :: Below(w, path, n) ==> n.uuid == path[|path| - 1]
  {
    if KeysMatch(w) {
      forall path, n | Below(w, path, n)
        ensures n.uuid == path[|path| - 1]
      {
        KeyOfNode(w, path, n);
      }
    } else {
      var path, n := MismatchedNode(w);
    }
  }

  lemma {:induction false} KeyOfNode(w: Wigo, path: Path, n: Wigo)
    requires KeysMatch(w) && Below(w, path, n)
    ensures n.uuid == path[|path| - 1]
    decreases |path|
  {
    var child := w.remotes[path[0]];
    if |path| > 1 {
      KeyOfNode(child, path[1..], n);
    } else {
      assert NodeAt(child, path[1..]) == Some(child);
    }
  }

  lemma {:induction false} MismatchedNode(w: Wigo) returns (path: Path, n: Wigo)
    requires !KeysMatch(w)
    ensures Below(w, path, n) && n.uuid != path[|path| - 1]
  {
    var k :| k in w.remotes && !(w.remotes[k].uuid == k && KeysMatch(w.remotes[k]));
    path, n := [k], w.remotes[k];
    if n.uuid == k {
      var rest;
      rest, n := MismatchedNode(w.remotes[k]);
      path := [k] + rest;
      assert path[1..] == rest;
    } else {
      assert path[1..] == [];
    }
  }

  /** Pruning keeps exactly the nodes whose path meets no dropped key, and prunes below each of them. */
  lemma {:induction false} PruneKeeps(drop: set<string>, w: Wigo, path: Path)
    ensures NodeAt(Prune(drop, w), path) ==
            if NodeAt(w, path).Some? && Avoids(path, drop) then Some(Prune(drop, NodeAt(w, path).value)) else None
    decreases |path|
  {
    if path != [] {
      assert Avoids(path, drop) <==> path[0] !in drop && Avoids(path[1..], drop) by {
        assert forall i :: 0 < i < |path| ==> path[i] == path[1..][i - 1];
        assert forall i :: 0 <= i < |path| - 1 ==> path[1..][i] == path[i + 1];
      }
      if path[0] in w.remotes {
        PruneKeeps(drop, w.remotes[path[0]], path[1..]);
      }
    }
  }

  lemma {:induction false} PruneKeepsKeys(drop: set<string>, w: Wigo)
    requires KeysMatch(w)
    ensures KeysMatch(Prune(drop, w))
  {
    forall k | k in w.remotes
      ensures KeysMatch(Prune(drop, w.remotes[k]))
    {
      PruneKeepsKeys(drop, w.remotes[k]);
    }
  }

  // ------------------------------------------------- adding or updating a remote

  ghost predicate Rejects(local: Wigo, remote: Wigo) {
    || (remote.uuid != "" && local.uuid == remote.uuid)
    || !KeysMatch(remote)
  }

  /** What is stored for an accepted remote: the pruned tree, still dead if its predecessor was. */
  function Stored(uuid: string, remotes: map<string, Wigo>, remote: Wigo, now: int): Wigo {
    var wasDead := remote.uuid in remotes && !remotes[remote.uuid].isAlive;
    Prune(Dropped(uuid, remotes), remote).(
      isAlive := remote.isAlive && !wasDead,
      lastUpdate := now)
  }

  ghost function AddOrUpdate(local: Wigo, remote: Wigo, now: int): Wigo {
    if Rejects(local, remote) then local
    else
      Recomputed(local.(remotes := local.remotes[remote.uuid := Stored(local.uuid, local.remotes, remote, now)]))
  }

  /** The forest after an accepted update, path by path. */
  lemma UpdateByPath(local: Wigo, remote: Wigo, now: int, path: Path)
    requires !Rejects(local, remote) && path != []
    ensures NodeAt(AddOrUpdate(local, remote, now), path).Some? <==>
            if path[0] == remote.uuid
            then NodeAt(remote, path[1..]).Some? && Avoids(path[1..], Dropped(local.uuid, local.remotes))
            else NodeAt(local, path).Some?
  {
    NodeAtUpdated(local, remote, now, path);
    PruneKeeps(Dropped(local.uuid, local.remotes), remote, path[1..]);
  }

  lemma NodeAtUpdated(local: Wigo, remote: Wigo, now: int, path: Path)
    requires !Rejects(local, remote) && path != []
    ensures path[0] != remote.uuid ==> NodeAt(AddOrUpdate(local, remote, now), path) == NodeAt(local, path)
    ensures path[0] == remote.uuid && |path| > 1 ==>
            NodeAt(AddOrUpdate(local, remote, now), path) == NodeAt(Prune(Dropped(local.uuid, local.remotes), remote), path[1..])
    ensures path == [remote.uuid] ==>
            NodeAt(AddOrUpdate(local, remote, now), path) == Some(Stored(local.uuid, local.remotes, remote, now))
  {
    var stored := Stored(local.uuid, local.remotes, remote, now);
    var after := AddOrUpdate(local, remote, now);
    assert after.remotes == local.remotes[remote.uuid := stored];
    if path[0] == remote.uuid {
      assert NodeAt(after, path) == NodeAt(stored, path[1..]);
      if |path| > 1 {
        SameBelow(stored, Prune(Dropped(local.uuid, local.remotes), remote), path[1..]);
      } else {
        assert path[1..] == [];
      }
    }
  }

  /** The remote stands under its uuid as it was sent, stamped with the time it arrived, alive unless it or its
      predecessor was dead; the other entries and the local host are as before, and the local status is that of
      the local probes. */
  ghost predicate EntryStored(local: Wigo, remote: Wigo, now: int, after: Wigo) {
    && after.remotes.Keys == local.remotes.Keys + {remote.uuid}
    && (forall k :: k in local.remotes && k != remote.uuid ==> after.remotes[k] == local.remotes[k])
    && var entry := after.remotes[remote.uuid];
    && entry.uuid == remote.uuid && entry.hostname == remote.hostname && entry.host == remote.host
    && entry.globalStatus == remote.globalStatus && entry.globalMessage == remote.globalMessage
    && entry.lastUpdate == now
    && (entry.isAlive <==> remote.isAlive && (remote.uuid in local.remotes ==> local.remotes[remote.uuid].isAlive))
    && after == local.(remotes := after.remotes, globalStatus := after.globalStatus)
    && IsWorst(after.globalStatus, local.host.probes)
  }

  /** An update is refused, and changes nothing, exactly when it carries the local uuid or holds a node under a
      foreign key; otherwise it is stored. */
  lemma UpdateOutcome(local: Wigo, remote: Wigo, now: int)
    ensures var after := AddOrUpdate(local, remote, now);
            if (remote.uuid != "" && remote.uuid == local.uuid)
               || exists path, n :: Below(remote, path, n) && n.uuid != path[|path| - 1]
            then after == local
            else EntryStored(local, remote, now, after)
  {
    KeysMatchByPath(remote);
  }

  /** The two facts every run keeps: keys are uuids, and the local uuid occurs nowhere below the root. */
  ghost predicate Clean(local: Wigo) {
    && KeysMatch(local)
    && forall path, n :: Below(local, path, n) ==> n.uuid != local.uuid
  }

  lemma PrunedAvoids(drop: set<string>, w: Wigo, path: Path, n: Wigo)
    requires KeysMatch(w) && Below(Prune(drop, w), path, n)
    ensures n.uuid !in drop
  {
    PruneKeeps(drop, w, path);
    PruneKeepsKeys(drop, w);
    KeyOfNode(Prune(drop, w), path, n);
  }

  lemma UpdateKeepsClean(local: Wigo, remote: Wigo, now: int)
    requires local.uuid != "" && Clean(local)
    ensures Clean(AddOrUpdate(local, remote, now))
    ensures AddOrUpdate(local, remote, now).uuid == local.uuid
  {
    if !Rejects(local, remote) {
      var drop := Dropped(local.uuid, local.remotes);
      var after := AddOrUpdate(local, remote, now);
      PruneKeepsKeys(drop, remote);
      forall path, n | Below(after, path, n)
        ensures n.uuid != local.uuid
      {
        NodeAtUpdated(local, remote, now, path);
        if path[0] != remote.uuid {
          assert Below(local, path, n);
        } else if |path| > 1 {
          assert Below(Prune(drop, remote), path[1..], n);
          PrunedAvoids(drop, remote, path[1..], n);
        } else {
          assert path == [remote.uuid];
        }
      }
    }
  }

  ghost function Run(local: Wigo, updates: seq<(Wigo, int)>): Wigo {
    if updates == [] then local
    else
      var last := |updates| - 1;
      AddOrUpdate(Run(local, updates[..last]), updates[last].0, updates[last].1)
  }

  /** Forest invariant over all runs: from an empty forest, whatever remotes are offered. */
  lemma {:induction false} RunIsClean(local: Wigo, updates: seq<(Wigo, int)>)
    requires local.uuid != "" && local.remotes == map[]
    ensures Clean(Run(local, updates)) && Run(local, updates).uuid == local.uuid
  {
    if updates != [] {
      var last := |updates| - 1;
      RunIsClean(local, updates[..last]);
      UpdateKeepsClean(Run(local, updates[..last]), updates[last].0, updates[last].1);
    }
  }

  /** Deduplication looks at top-level keys only, so a remote offered for the first time keeps
      a descendant with its own uuid; a uuid occurs twice in the new entry exactly then. */
  lemma OwnUuidRepeatsIff(local: Wigo, remote: Wigo, now: int)
    requires !Rejects(local, remote)
    ensures (exists path, n :: Below(Stored(local.uuid, local.remotes, remote, now), path, n) && n.uuid == remote.uuid) <==>
            remote.uuid !in local.remotes &&
            exists path, n :: Below(remote, path, n) && n.uuid == remote.uuid
                              && Avoids(path, Dropped(local.uuid, local.remotes))
  {
    var drop := Dropped(local.uuid, local.remotes);
    var stored := Stored(local.uuid, local.remotes, remote, now);
    if path, n :| Below(stored, path, n) && n.uuid == remote.uuid {
      assert Below(Prune(drop, remote), path, n);
      PruneKeeps(drop, remote, path);
      PrunedAvoids(drop, remote, path, n);
      assert Below(remote, path, NodeAt(remote, path).value);
    }
    if path, n :| Below(remote, path, n) && n.uuid == remote.uuid && Avoids(path, drop) {
      PruneKeeps(drop, remote, path);
      assert Below(stored, path, Prune(drop, n));
    }
  }

  /** A uuid can therefore occur twice in the forest: two paths of one reachable forest name the same host. */
  lemma DuplicateSurvives(local: Wigo, b: Wigo, now: int)
    requires local.uuid == "A" && local.remotes == map[]
    requires b.uuid == "B" && b.remotes == map["B" := b.(remotes := map[])]
    ensures var after := Run(local, [(b, now)]);
            && (exists n :: Below(after, ["B"], n) && n.uuid == "B")
            && exists n :: Below(after, ["B", "B"], n) && n.uuid == "B"
  {
    assert [(b, now)][..0] == [] && Run(local, []) == local;
    assert KeysMatch(b.remotes["B"]);
    NodeAtUpdated(local, b, now, ["B"]);
    NodeAtUpdated(local, b, now, ["B", "B"]);
    assert ["B"][1..] == [] && ["B", "B"][1..] == ["B"];
    PruneKeeps(Dropped("A", map[]), b, ["B"]);
    assert NodeAt(b, ["B"]) == Some(b.remotes["B"]);
    assert Below(Run(local, [(b, now)]), ["B", "B"], Prune(Dropped("A", map[]), b.remotes["B"]));
  }

  // ------------------------------------------------------------------ erasure

  /** EraseRemoteWigos: below `depth` levels the maps are emptied; every node visited but the
      root of a deeper cut gets its status recomputed. A depth of 0 or less never reaches the cut. */
  ghost function Erase(w: Wigo, depth: int): Wigo
    decreases w
  {
    if depth == 1 then Recomputed(w.(remotes := map[]))
    else w.(remotes := map k | k in w.remotes :: Recomputed(Erase(w.remotes[k], depth - 1)))
  }

  /** Erasing keeps exactly the nodes at levels below the depth (all of them for a depth below 1). */
  lemma {:induction false} EraseKeeps(w: Wigo, depth: int, path: Path)
    ensures NodeAt(Erase(w, depth), path).Some? <==>
            NodeAt(w, path).Some? && (depth < 1 || |path| < depth)
    decreases |path|
  {
    if path != [] && path[0] in w.remotes && depth != 1 {
      EraseKeeps(w.remotes[path[0]], depth - 1, path[1..]);
      if |path| > 1 {
        var child := Erase(w.remotes[path[0]], depth - 1);
        assert path[1..] != [] && NodeAt(Recomputed(child), path[1..]) == NodeAt(child, path[1..]);
      }
    }
  }

  /** A node an erasure visits keeps everything but its remotes and its status, which is that of its probes; the
      root's status is recomputed only where the cut is at the root. */
  lemma {:induction false} EraseRecomputes(w: Wigo, depth: int, path: Path)
    requires NodeAt(Erase(w, depth), path).Some?
    ensures NodeAt(w, path).Some?
    ensures var n, m := NodeAt(w, path).value, NodeAt(Erase(w, depth), path).value;
            && m == n.(remotes := m.remotes, globalStatus := m.globalStatus)
            && if path != [] || depth == 1 then IsWorst(m.globalStatus, m.host.probes)
               else m.globalStatus == n.globalStatus
    decreases |path|
  {
    if path != [] {
      EraseChild(w, depth, path[0]);
      var child := Erase(w.remotes[path[0]], depth - 1);
      if path[1..] == [] {
        EraseRecomputes(w.remotes[path[0]], depth - 1, []);
      } else {
        SameBelow(Recomputed(child), child, path[1..]);
        EraseRecomputes(w.remotes[path[0]], depth - 1, path[1..]);
      }
    }
  }

  /** Two erasures are one erasure at the smaller depth, recomputed statuses included. */
  ghost predicate ErasesTo(w: Wigo, a: int, b: int, c: int) {
    Erase(Erase(w, b), a) == Erase(w, c)
  }

  lemma EraseErase(w: Wigo, a: int, b: int)
    requires a >= 1 && b >= 1
    ensures Erase(Erase(w, b), a) == Erase(w, if a < b then a else b)
  {
    EraseEraseAt(w, a, b, if a < b then a else b);
  }

  lemma {:induction false} EraseEraseAt(w: Wigo, a: int, b: int, min: int)
    requires 1 <= min <= a && min <= b && (min == a || min == b)
    ensures ErasesTo(w, a, b, min)
    decreases w
  {
    if min > 1 {
      forall k | k in w.remotes {
        EraseEraseAt(w.remotes[k], a - 1, b - 1, min - 1);
      }
      EraseEraseDeep(w, a, b, min);
    } else {
      EraseEraseCut(w, a, b);
    }
  }

  lemma EraseEraseCut(w: Wigo, a: int, b: int)
    requires a >= 1 && b >= 1 && (a == 1 || b == 1)
    ensures ErasesTo(w, a, b, 1)
  {
    if a > 1 {
      EraseDeep(Erase(w, 1), a);
    } else if b > 1 {
      EraseDeep(w, b);
    }
  }

  lemma EraseEraseDeep(w: Wigo, a: int, b: int, min: int)
    requires a > 1 && b > 1 && min > 1
    requires forall k :: k in w.remotes ==> ErasesTo(w.remotes[k], a - 1, b - 1, min - 1)
    ensures ErasesTo(w, a, b, min)
  {
    EraseDeep(w, b);
    EraseDeep(Erase(w, b), a);
    EraseDeep(w, min);
    forall k | k in w.remotes
      ensures Erase(Erase(w, b), a).remotes[k] == Erase(w, min).remotes[k]
    {
      EraseTwice(w, k, a, b);
    }
    SameRemotes(w, Erase(w, b), Erase(Erase(w, b), a), Erase(w, min));
  }

  lemma EraseTwice(w: Wigo, k: string, a: int, b: int)
    requires a > 1 && b > 1 && k in w.remotes
    ensures k in Erase(Erase(w, b), a).remotes
    ensures Erase(Erase(w, b), a).remotes[k] == Recomputed(Erase(Erase(w.remotes[k], b - 1), a - 1))
  {
    EraseChild(w, b, k);
    EraseChild(Erase(w, b), a, k);
    EraseOfRecomputed(Erase(w.remotes[k], b - 1), a - 1);
  }

  lemma EraseChild(w: Wigo, depth: int, k: string)
    requires depth != 1 && k in w.remotes
    ensures k in Erase(w, depth).remotes
    ensures Erase(w, depth).remotes[k] == Recomputed(Erase(w.remotes[k], depth - 1))
  {
  }

  lemma SameRemotes(w: Wigo, once: Wigo, twice: Wigo, direct: Wigo)
    requires once == w.(remotes := once.remotes)
    requires twice == once.(remotes := twice.remotes)
    requires direct == w.(remotes := direct.remotes)
    requires twice.remotes.Keys == direct.remotes.Keys == w.remotes.Keys
    requires forall k :: k in w.remotes ==> twice.remotes[k] == direct.remotes[k]
    ensures twice == direct
  {
    assert twice.remotes == direct.remotes;
  }

  lemma EraseDeep(w: Wigo, depth: int)
    requires depth > 1
    ensures Erase(w, depth) == w.(remotes := Erase(w, depth).remotes)
    ensures Erase(w, depth).remotes.Keys == w.remotes.Keys
    ensures forall k :: k in w.remotes ==> Erase(w, depth).remotes[k] == Recomputed(Erase(w.remotes[k], depth - 1))
  {
  }

  lemma EraseOfRecomputed(w: Wigo, depth: int)
    ensures Recomputed(Erase(Recomputed(w), depth)) == Recomputed(Erase(w, depth))
  {
    assert Recomputed(w).remotes == w.remotes && Recomputed(w).host == w.host;
    assert Recomputed(Erase(Recomputed(w), depth)).remotes == Recomputed(Erase(w, depth)).remotes;
  }
}
