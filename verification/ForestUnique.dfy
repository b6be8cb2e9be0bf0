/** When a uuid occurs once in the forest: the exact condition on one update, on whole runs of updates, and what
    sweeps and revocations do to it. */
module ForestUnique {
  import opened Basics
  import opened Forest

  function UuidAt(w: Wigo, path: Path): Option<string> {
    match NodeAt(w, path)
    case None => None
    case Some(n) => Some(n.uuid)
  }

  /** Two paths to strict descendants with one uuid. */
  ghost predicate SameHost(w: Wigo, p: Path, q: Path) {
    p != [] && q != [] && UuidAt(w, p).Some? && UuidAt(w, p) == UuidAt(w, q)
  }

  /** No uuid occurs twice below the root. */
  ghost predicate Unique(w: Wigo) {
    forall p, q :: SameHost(w, p, q) ==> p == q
  }

  /** No uuid occurs twice outside the entry `key`. */
  ghost predicate UniqueBeside(w: Wigo, key: string) {
    forall p, q :: SameHost(w, p, q) && p[0] != key && q[0] != key ==> p == q
  }

  // ---------------------------------------------------------------- one update

  /** The uuid of the incoming node at `path` if deduplication keeps it; the root is always kept. */
  ghost function KeptUuid(local: Wigo, remote: Wigo, path: Path): Option<string> {
    if Avoids(path, Dropped(local.uuid, local.remotes)) then UuidAt(remote, path) else None
  }

  /** Two kept nodes of the incoming tree carry one uuid. */
  ghost predicate Repeats(local: Wigo, remote: Wigo) {
    exists p, q :: p != q && KeptUuid(local, remote, p).Some? && KeptUuid(local, remote, p) == KeptUuid(local, remote, q)
  }

  /** A kept node of the incoming tree carries a uuid that stands below another entry. */
  ghost predicate Collides(local: Wigo, remote: Wigo) {
    exists p, q :: q != [] && q[0] != remote.uuid
                   && KeptUuid(local, remote, p).Some? && KeptUuid(local, remote, p) == UuidAt(local, q)
  }

  ghost predicate Clash(local: Wigo, remote: Wigo) {
    Repeats(local, remote) || Collides(local, remote)
  }

  lemma UuidUpdated(local: Wigo, remote: Wigo, now: int, path: Path)
    requires !Rejects(local, remote) && path != []
    ensures UuidAt(AddOrUpdate(local, remote, now), path) ==
            if path[0] == remote.uuid then KeptUuid(local, remote, path[1..]) else UuidAt(local, path)
  {
    NodeAtUpdated(local, remote, now, path);
    PruneKeeps(Dropped(local.uuid, local.remotes), remote, path[1..]);
  }

  lemma UuidInEntry(local: Wigo, remote: Wigo, now: int, p: Path)
    requires !Rejects(local, remote)
    ensures UuidAt(AddOrUpdate(local, remote, now), [remote.uuid] + p) == KeptUuid(local, remote, p)
  {
    UuidUpdated(local, remote, now, [remote.uuid] + p);
    assert ([remote.uuid] + p)[1..] == p;
  }

  /** After an accepted update no uuid occurs twice if and only if none did outside the replaced entry and the
      incoming tree does not clash. */
  lemma UniqueUpdateIff(local: Wigo, remote: Wigo, now: int)
    requires !Rejects(local, remote)
    ensures Unique(AddOrUpdate(local, remote, now)) <==> UniqueBeside(local, remote.uuid) && !Clash(local, remote)
  {
    var after := AddOrUpdate(local, remote, now);
    if Unique(after) {
      UniqueMeansNoClash(local, remote, now);
    }
    if UniqueBeside(local, remote.uuid) && !Clash(local, remote) {
      forall p, q | SameHost(after, p, q)
        ensures p == q
      {
        NoClashMeansSame(local, remote, now, p, q);
      }
    }
  }

  lemma UniqueMeansNoClash(local: Wigo, remote: Wigo, now: int)
    requires !Rejects(local, remote) && Unique(AddOrUpdate(local, remote, now))
    ensures UniqueBeside(local, remote.uuid) && !Clash(local, remote)
  {
    var after := AddOrUpdate(local, remote, now);
    forall p, q | SameHost(local, p, q) && p[0] != remote.uuid && q[0] != remote.uuid
      ensures p == q
    {
      UuidUpdated(local, remote, now, p);
      UuidUpdated(local, remote, now, q);
      assert SameHost(after, p, q);
    }
    forall p, q | KeptUuid(local, remote, p).Some? && KeptUuid(local, remote, p) == KeptUuid(local, remote, q)
      ensures p == q
    {
      UuidInEntry(local, remote, now, p);
      UuidInEntry(local, remote, now, q);
      assert SameHost(after, [remote.uuid] + p, [remote.uuid] + q);
      assert p == ([remote.uuid] + p)[1..] == ([remote.uuid] + q)[1..] == q;
    }
    forall p, q | q != [] && KeptUuid(local, remote, p).Some? && KeptUuid(local, remote, p) == UuidAt(local, q)
      ensures q[0] == remote.uuid
    {
      UuidInEntry(local, remote, now, p);
      UuidUpdated(local, remote, now, q);
      assert q[0] != remote.uuid ==> SameHost(after, [remote.uuid] + p, q);
      assert ([remote.uuid] + p)[0] == remote.uuid;
    }
  }

  lemma NoClashMeansSame(local: Wigo, remote: Wigo, now: int, p: Path, q: Path)
    requires !Rejects(local, remote) && UniqueBeside(local, remote.uuid) && !Clash(local, remote)
    requires SameHost(AddOrUpdate(local, remote, now), p, q)
    ensures p == q
  {
    UuidUpdated(local, remote, now, p);
    UuidUpdated(local, remote, now, q);
    if p[0] == remote.uuid && q[0] == remote.uuid {
      assert p[1..] == q[1..];
      assert p == [p[0]] + p[1..] && q == [q[0]] + q[1..];
    } else if p[0] == remote.uuid {
      assert Collides(local, remote);
    } else if q[0] == remote.uuid {
      assert Collides(local, remote);
    } else {
      assert SameHost(local, p, q);
    }
  }

  /** From a forest without repetition, the incoming tree alone decides. */
  lemma StaysUniqueIff(local: Wigo, remote: Wigo, now: int)
    requires Unique(local)
    ensures Unique(AddOrUpdate(local, remote, now)) <==> Rejects(local, remote) || !Clash(local, remote)
  {
    if !Rejects(local, remote) {
      UniqueUpdateIff(local, remote, now);
    }
  }

  // ----------------------------------------------------------------- whole runs

  ghost predicate NoClashes(local: Wigo, updates: seq<(Wigo, int)>) {
    forall i :: 0 <= i < |updates| ==> FineAt(local, updates, i)
  }

  /** Update `i` of the run is rejected or does not clash. */
  ghost predicate FineAt(local: Wigo, updates: seq<(Wigo, int)>, i: int)
    requires 0 <= i < |updates|
  {
    var s := Run(local, updates[..i]);
    Rejects(s, updates[i].0) || !Clash(s, updates[i].0)
  }

  lemma SamePast(local: Wigo, updates: seq<(Wigo, int)>, i: int)
    requires 0 <= i < |updates| - 1
    ensures FineAt(local, updates[..|updates| - 1], i) == FineAt(local, updates, i)
  {
    var before := updates[..|updates| - 1];
    assert before[..i] == updates[..i] && before[i] == updates[i];
  }

  ghost predicate AlwaysUnique(local: Wigo, updates: seq<(Wigo, int)>) {
    forall i :: 0 <= i <= |updates| ==> Unique(Run(local, updates[..i]))
  }

  lemma NoClashesSplit(local: Wigo, updates: seq<(Wigo, int)>)
    requires updates != []
    ensures var last := |updates| - 1;
            NoClashes(local, updates) <==> NoClashes(local, updates[..last]) && FineAt(local, updates, last)
  {
    var last := |updates| - 1;
    var before := updates[..last];
    if NoClashes(local, before) && FineAt(local, updates, last) {
      forall i | 0 <= i < |updates|
        ensures FineAt(local, updates, i)
      {
        if i < last {
          SamePast(local, updates, i);
          assert FineAt(local, before, i);
        }
      }
    }
    if NoClashes(local, updates) {
      forall i | 0 <= i < last
        ensures FineAt(local, before, i)
      {
        SamePast(local, updates, i);
        assert FineAt(local, updates, i);
      }
    }
  }

  lemma AlwaysUniqueSplit(local: Wigo, updates: seq<(Wigo, int)>)
    requires updates != []
    ensures var before := updates[..|updates| - 1];
            AlwaysUnique(local, updates) <==> AlwaysUnique(local, before) && Unique(Run(local, updates))
    ensures AlwaysUnique(local, updates[..|updates| - 1]) ==> Unique(Run(local, updates[..|updates| - 1]))
  {
    var last := |updates| - 1;
    var before := updates[..last];
    assert forall i :: 0 <= i <= last ==> before[..i] == updates[..i];
    assert updates[..|updates|] == updates && before[..last] == before;
  }

  lemma LastUnique(local: Wigo, updates: seq<(Wigo, int)>)
    requires updates != [] && Unique(Run(local, updates[..|updates| - 1]))
    ensures Unique(Run(local, updates)) <==> FineAt(local, updates, |updates| - 1)
  {
    var last := |updates| - 1;
    StaysUniqueIff(Run(local, updates[..last]), updates[last].0, updates[last].1);
  }

  /** From an empty forest, no uuid ever occurs twice if and only if no accepted update of the run clashes. */
  lemma {:induction false} RunIsUniqueIff(local: Wigo, updates: seq<(Wigo, int)>)
    requires local.remotes == map[]
    ensures AlwaysUnique(local, updates) <==> NoClashes(local, updates)
  {
    if updates == [] {
      assert updates[..0] == [];
      EmptyIsUnique(local);
    } else {
      RunIsUniqueIff(local, updates[..|updates| - 1]);
      NoClashesSplit(local, updates);
      AlwaysUniqueSplit(local, updates);
      if AlwaysUnique(local, updates[..|updates| - 1]) {
        LastUnique(local, updates);
      }
    }
  }

  lemma EmptyIsUnique(local: Wigo)
    requires local.remotes == map[]
    ensures Unique(local)
  {
  }

  // ------------------------------------------------ trees that keep their uuids

  /** Every path of `b` leads to the uuid it leads to in `a`. */
  ghost predicate Thins(a: Wigo, b: Wigo) {
    forall p :: p != [] && UuidAt(b, p).Some? ==> UuidAt(b, p) == UuidAt(a, p)
  }

  lemma ThinnerIsUnique(a: Wigo, b: Wigo)
    requires Thins(a, b) && Unique(a)
    ensures Unique(b)
  {
    forall p, q | SameHost(b, p, q)
      ensures p == q
    {
      assert SameHost(a, p, q);
    }
  }

  lemma ThinnerIsClean(a: Wigo, b: Wigo)
    requires Thins(a, b) && Clean(a) && a.uuid == b.uuid
    ensures Clean(b)
  {
    forall path, n | Below(b, path, n)
      ensures n.uuid == path[|path| - 1] && n.uuid != b.uuid
    {
      assert UuidAt(b, path) == Some(n.uuid);
      var m := NodeAt(a, path).value;
      assert Below(a, path, m);
      KeyOfNode(a, path, m);
    }
    KeysMatchByPath(b);
  }

  /** Dropping an entry, as a revocation does, thins the forest. */
  lemma DroppingThins(local: Wigo, keys: set<string>)
    ensures Thins(local, local.(remotes := local.remotes - keys))
  {
    var after := local.(remotes := local.remotes - keys);
    forall p | p != [] && UuidAt(after, p).Some?
      ensures UuidAt(after, p) == UuidAt(local, p)
    {
      assert p[0] in after.remotes && after.remotes[p[0]] == local.remotes[p[0]];
    }
  }
}
