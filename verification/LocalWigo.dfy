/** The local Wigo object of src/wigo/global.go: its fields, updated in place, and the
    operations on its remotes, each proved against the pure meaning given in Forest. */
module LocalWigo {
  import opened Basics
  import opened Forest
  import opened Notifications

  datatype Callback =
    | ProbeChanged(change: Notification)
    | HostDown(uuid: string)
    | HostUp(uuid: string)
    | NewClient(hostname: string)

  // ------------------------------------------------------- up/down monitoring

  ghost function Down(w: Wigo): Wigo {
    w.(globalStatus := 999, host := w.host.(status := 999), globalMessage := "DOWN", isAlive := false)
  }

  ghost function Up(w: Wigo): Wigo {
    w.(globalMessage := "UP", isAlive := true)
  }

  predicate Stale(w: Wigo, now: int, timeout: int) {
    w.lastUpdate < now - timeout
  }

  ghost function SweepNode(w: Wigo, now: int, timeout: int): Wigo {
    if w.isAlive == !Stale(w, now, timeout) then w
    else if w.isAlive then Down(w) else Up(w)
  }

  ghost function Sweep(local: Wigo, now: int, timeout: int): Wigo {
    local.(remotes := map k | k in local.remotes :: SweepNode(local.remotes[k], now, timeout))
  }

  /** The callback a sweep owes: one for each host whose liveness no longer fits its age, and no other. */
  ghost predicate SweepOwes(local: Wigo, now: int, timeout: int, c: Callback) {
    match c
    case ProbeChanged(_) => false
    case NewClient(_) => false
    case HostDown(k) => k in local.remotes && local.remotes[k].isAlive && Stale(local.remotes[k], now, timeout)
    case HostUp(k) => k in local.remotes && !local.remotes[k].isAlive && !Stale(local.remotes[k], now, timeout)
  }

  /** The callback an update owes: the probe changes against the stored predecessor, if accepted. */
  ghost predicate UpdateOwes(config: Config, local: Wigo, remote: Wigo, now: int, c: Callback) {
    && c.ProbeChanged?
    && !Rejects(local, remote)
    && remote.uuid in local.remotes
    && Due(config, local.remotes[remote.uuid],
           Stored(local.uuid, local.remotes, remote, local.remotes[remote.uuid].lastUpdate), [remote.uuid], c.change)
  }

  /** The comparison never looks at the time stamp of the new entry. */
  lemma DueIgnoresStamp(config: Config, o: Wigo, a: Wigo, b: Wigo, at: Path, n: Notification)
    requires a.remotes == b.remotes && a.host == b.host
    ensures Due(config, o, a, at, n) <==> Due(config, o, b, at, n)
  {
    if at <= n.path && n.path[|at|..] != [] {
      SameBelow(a, b, n.path[|at|..]);
    }
  }

  /** `n` tells how one probe of the forest changed: its host is there before and after, and its status differs. */
  ghost predicate Changed(config: Config, before: Wigo, after: Wigo, n: Notification) {
    && config.onProbeChange && n.path != []
    && NodeAt(before, n.path).Some? && NodeAt(after, n.path).Some?
    && DueAt(config, NodeAt(before, n.path).value, NodeAt(after, n.path).value, n)
  }

  /** What an update owes is exactly what it changes in the forest: the probes of hosts that stood there before and
      stand there after, whatever comparison found them. */
  lemma OwesWhatChanges(config: Config, local: Wigo, remote: Wigo, now: int, n: Notification)
    ensures UpdateOwes(config, local, remote, now, ProbeChanged(n)) <==>
            Changed(config, local, AddOrUpdate(local, remote, now), n)
  {
    if !Rejects(local, remote) && n.path != [] {
      NodeAtUpdated(local, remote, now, n.path);
      if n.path[0] == remote.uuid && remote.uuid in local.remotes {
        var entry := Stored(local.uuid, local.remotes, remote, now);
        OwesInEntry(config, local, remote, now, n);
        assert NodeAt(local, n.path) == NodeAt(local.remotes[remote.uuid], n.path[1..]);
        assert AddOrUpdate(local, remote, now).remotes[remote.uuid] == entry;
        assert NodeAt(AddOrUpdate(local, remote, now), n.path) == NodeAt(entry, n.path[1..]);
      }
    }
  }

  lemma OwesInEntry(config: Config, local: Wigo, remote: Wigo, now: int, n: Notification)
    requires !Rejects(local, remote) && remote.uuid in local.remotes && n.path != [] && n.path[0] == remote.uuid
    ensures var o, w := local.remotes[remote.uuid], Stored(local.uuid, local.remotes, remote, now);
            UpdateOwes(config, local, remote, now, ProbeChanged(n)) <==>
            && config.onProbeChange && NodeAt(o, n.path[1..]).Some? && NodeAt(w, n.path[1..]).Some?
            && DueAt(config, NodeAt(o, n.path[1..]).value, NodeAt(w, n.path[1..]).value, n)
  {
    var o := local.remotes[remote.uuid];
    DueIgnoresStamp(config, o, Stored(local.uuid, local.remotes, remote, o.lastUpdate),
                    Stored(local.uuid, local.remotes, remote, now), [remote.uuid], n);
    assert [remote.uuid] <= n.path && n.path[|[remote.uuid]|..] == n.path[1..];
  }

  method WorstStatus(probes: map<string, int>) returns (status: int)
    ensures status == Worst(probes)
  {
    status := 0;
    var todo := probes.Keys;
    while todo != {}
      invariant todo <= probes.Keys && status >= 0
      invariant forall p :: p in probes && p !in todo ==> probes[p] <= status
      invariant status == 0 || exists p :: p in probes && probes[p] == status
      decreases todo
    {
      var name :| name in todo;
      todo := todo - {name};
      if probes[name] > status {
        status := probes[name];
      }
    }
    WorstIsUnique(status, probes);
  }

  method EraseRemoteWigos(w: Wigo, wanted: int) returns (r: Wigo)
    ensures r == Erase(w, wanted)
    decreases w
  {
    r := w;
    var depth := wanted - 1;
    if depth == 0 {
      var status := WorstStatus(w.host.probes);
      r := w.(remotes := map[], globalStatus := status);
      return;
    }
    var remotes := w.remotes;
    var todo := w.remotes.Keys;
    while todo != {}
      invariant todo <= w.remotes.Keys == remotes.Keys
      invariant forall k :: k in w.remotes ==>
                  remotes[k] == if k in todo then w.remotes[k] else Recomputed(Erase(w.remotes[k], depth))
      decreases todo
    {
      var key :| key in todo;
      var child := EraseRemoteWigos(w.remotes[key], depth);
      var status := WorstStatus(child.host.probes);
      remotes := remotes[key := child.(globalStatus := status)];
      todo := todo - {key};
    }
    r := w.(remotes := remotes);
    assert remotes == Erase(w, wanted).remotes;
  }

  class Local {
    const uuid: string
    const config: Config
    const aliveTimeout: int
    var hostname: string
    var isAlive: bool
    var globalStatus: int
    var globalMessage: string
    var lastUpdate: int
    var host: Host
    var remotes: map<string, Wigo>
    var callbacks: seq<Callback>

    ghost function Tree(): Wigo
      reads this
    {
      Wigo(uuid, hostname, isAlive, globalStatus, globalMessage, lastUpdate, host, remotes)
    }

    constructor (uuid: string, hostname: string, host: Host, config: Config, aliveTimeout: int)
      ensures this.uuid == uuid && this.config == config && this.aliveTimeout == aliveTimeout
      ensures Tree() == Wigo(uuid, hostname, true, 100, "OK", 0, host, map[]) && callbacks == []
    {
      this.uuid, this.config, this.aliveTimeout := uuid, config, aliveTimeout;
      this.hostname, isAlive, globalStatus, globalMessage, lastUpdate := hostname, true, 100, "OK", 0;
      this.host, remotes, callbacks := host, map[], [];
    }

    method RecomputeGlobalStatus()
      modifies this`globalStatus
      ensures Tree() == Recomputed(old(Tree()))
    {
      globalStatus := WorstStatus(host.probes);
    }

    /** Fails on any strict descendant stored under a foreign key, and otherwise prunes, in whatever order
        the maps are walked. A removed child is still walked. */
    method Deduplicate(remoteWigo: Wigo) returns (ok: bool, pruned: Wigo)
      ensures ok <==> KeysMatch(remoteWigo)
      ensures ok ==> pruned == Prune(Dropped(uuid, remotes), remoteWigo)
      decreases remoteWigo
    {
      var items := remoteWigo.remotes;
      var kept := items;
      var todo := items.Keys;
      ghost var drop := Dropped(uuid, remotes);
      pruned := remoteWigo;
      while todo != {}
        invariant todo <= items.Keys
        invariant forall k :: k in kept <==> k in items && (k in todo || k !in drop)
        invariant forall k :: k in kept ==> kept[k] == if k in todo then items[k] else Prune(drop, items[k])
        invariant forall k :: k in items && k !in todo ==> items[k].uuid == k && KeysMatch(items[k])
        decreases todo
      {
        var key :| key in todo;
        todo := todo - {key};
        var wigo := items[key];
        if key != wigo.uuid {
          return false, remoteWigo;
        }
        if wigo.uuid != "" && uuid == wigo.uuid {
          kept := kept - {key};
        }
        if key in remotes {
          kept := kept - {key};
        }
        var sub, child := Deduplicate(wigo);
        if !sub {
          return false, remoteWigo;
        }
        if key in kept {
          kept := kept[key := child];
        }
      }
      pruned := remoteWigo.(remotes := kept);
      assert kept == Prune(drop, remoteWigo).remotes;
      return true, pruned;
    }

    method AddOrUpdateRemoteWigo(remote: Wigo, now: int)
      modifies this`remotes, this`globalStatus, this`callbacks
      ensures Tree() == AddOrUpdate(old(Tree()), remote, now)
      ensures old(callbacks) <= callbacks && NoDuplicates(callbacks[|old(callbacks)|..])
      ensures forall c :: c in callbacks[|old(callbacks)|..] <==> UpdateOwes(config, old(Tree()), remote, now, c)
    {
      if remote.uuid != "" && uuid == remote.uuid {
        return;
      }
      var ok, remoteWigo := Deduplicate(remote);
      if !ok {
        return;
      }
      var news := [];
      if remote.uuid in remotes {
        var oldWigo := remotes[remote.uuid];
        if !oldWigo.isAlive {
          remoteWigo := remoteWigo.(isAlive := false);
        }
        var changes := CompareTwoWigosAndRaiseNotifications(config, oldWigo, remoteWigo, [remote.uuid]);
        news := seq(|changes|, i requires 0 <= i < |changes| => ProbeChanged(changes[i]));
        forall n {
          DueIgnoresStamp(config, oldWigo, remoteWigo, Stored(uuid, remotes, remote, oldWigo.lastUpdate), [remote.uuid], n);
        }
        ghost var was := Tree();
        forall c
          ensures c in news <==> UpdateOwes(config, was, remote, now, c)
        {
          if c.ProbeChanged? && c.change in changes {
            var i :| 0 <= i < |changes| && changes[i] == c.change;
            assert news[i] == c;
          }
        }
      }
      callbacks := callbacks + news;
      remotes := remotes[remote.uuid := remoteWigo.(lastUpdate := now)];
      RecomputeGlobalStatus();
    }

    /** The body of the UP / DOWN loop for one host. */
    method CheckHost(key: string, now: int) returns (news: seq<Callback>)
      requires key in remotes
      modifies this`remotes
      ensures remotes == old(remotes)[key := SweepNode(old(remotes[key]), now, aliveTimeout)]
      ensures NoDuplicates(news)
      ensures forall c :: c in news <==> SweepOwes(old(Tree()), now, aliveTimeout, c) && c.uuid == key
    {
      var wigo := remotes[key];
      news := [];
      if wigo.lastUpdate < now - aliveTimeout {
        if wigo.isAlive {
          remotes := remotes[key := wigo.(globalStatus := 999, host := wigo.host.(status := 999),
                                          globalMessage := "DOWN", isAlive := false)];
          news := [HostDown(key)];
        }
      } else {
        if !wigo.isAlive {
          remotes := remotes[key := wigo.(globalMessage := "UP", isAlive := true)];
          news := [HostUp(key)];
        }
      }
    }

    /** One turn of the UP / DOWN loop. */
    method Monitor(now: int)
      modifies this`remotes, this`callbacks
      ensures Tree() == Sweep(old(Tree()), now, aliveTimeout)
      ensures old(callbacks) <= callbacks && NoDuplicates(callbacks[|old(callbacks)|..])
      ensures forall c :: c in callbacks[|old(callbacks)|..] <==> SweepOwes(old(Tree()), now, aliveTimeout, c)
    {
      var items := remotes;
      var todo := items.Keys;
      var news := [];
      ghost var was := Tree();
      while todo != {}
        invariant todo <= items.Keys == remotes.Keys && items == was.remotes
        invariant callbacks == old(callbacks)
        invariant forall k :: k in items ==>
                    remotes[k] == if k in todo then items[k] else SweepNode(items[k], now, aliveTimeout)
        invariant NoDuplicates(news)
        invariant forall c :: c in news <==> SweepOwes(was, now, aliveTimeout, c) && c.uuid !in todo
        decreases todo
      {
        var key :| key in todo;
        ghost var before := Tree();
        var said := CheckHost(key, now);
        assert forall c :: c in said <==> SweepOwes(was, now, aliveTimeout, c) && c.uuid == key by {
          assert before.remotes[key] == was.remotes[key];
        }
        AppendDisjoint(news, said);
        news := news + said;
        todo := todo - {key};
      }
      callbacks := callbacks + news;
      assert remotes == Sweep(was, now, aliveTimeout).remotes;
    }
  }
}
