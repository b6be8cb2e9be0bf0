/** Probe-change notifications: the send decision of src/wigo/notification.go and the
    tree comparison of src/wigo/global.go that calls it. A notification records the path
    of its host below the compared root, where the program keeps a pointer to it. */
module Notifications {
  import opened Basics
  import opened Forest

  datatype Config = Config(onProbeChange: bool, minLevelToSend: int)

  datatype Notification = ProbeChange(path: Path, probe: string, oldStatus: int, newStatus: int)

  function Worse(a: int, b: int): int {
    if a > b then a else b
  }

  /** What NewNotificationProbe puts on the callback channel, for possibly absent probes: only a change
      between two present probes is sent, and only its worse status matters, in either direction. */
  method NewNotificationProbe(config: Config, at: Path, probe: string, oldStatus: Option<int>, newStatus: Option<int>)
    returns (sent: seq<Notification>)
    ensures sent == if && config.onProbeChange && oldStatus.Some? && newStatus.Some?
                       && Worse(oldStatus.value, newStatus.value) >= config.minLevelToSend
                    then [ProbeChange(at, probe, oldStatus.value, newStatus.value)] else []
  {
    sent := [];
    if config.onProbeChange {
      var weSend := false;
      if oldStatus.Some? && newStatus.Some? {
        if newStatus.value < oldStatus.value && oldStatus.value >= config.minLevelToSend {
          weSend := true;
        } else if newStatus.value >= config.minLevelToSend {
          weSend := true;
        }
      }
      if weSend {
        sent := [ProbeChange(at, probe, oldStatus.value, newStatus.value)];
      }
    }
  }

  /** `n` is due when `oldWigo` at path `at` is replaced by `newWigo`: some path names a host on
      both sides, the probe is on both, its status changed, and the worse status is high enough. */
  ghost predicate Due(config: Config, oldWigo: Wigo, newWigo: Wigo, at: Path, n: Notification) {
    && config.onProbeChange
    && at <= n.path
    && var below := n.path[|at|..];
    && NodeAt(oldWigo, below).Some? && NodeAt(newWigo, below).Some?
    && DueAt(config, NodeAt(oldWigo, below).value, NodeAt(newWigo, below).value, n)
  }

  ghost predicate DueAt(config: Config, o: Wigo, w: Wigo, n: Notification) {
    && n.probe in o.host.probes && n.probe in w.host.probes
    && n.oldStatus == o.host.probes[n.probe] && n.newStatus == w.host.probes[n.probe]
    && n.oldStatus != n.newStatus
    && Worse(n.oldStatus, n.newStatus) >= config.minLevelToSend
  }

  ghost predicate DueBelow(config: Config, oldWigo: Wigo, newWigo: Wigo, at: Path, k: string, n: Notification) {
    && k in oldWigo.remotes && k in newWigo.remotes
    && Due(config, oldWigo.remotes[k], newWigo.remotes[k], at + [k], n)
  }

  lemma DueSplit(config: Config, oldWigo: Wigo, newWigo: Wigo, at: Path, n: Notification)
    ensures n.path == at ==>
            (Due(config, oldWigo, newWigo, at, n) <==> config.onProbeChange && DueAt(config, oldWigo, newWigo, n))
    ensures n.path != at ==>
            (Due(config, oldWigo, newWigo, at, n) <==>
             |n.path| > |at| && DueBelow(config, oldWigo, newWigo, at, n.path[|at|], n))
    ensures forall k :: DueBelow(config, oldWigo, newWigo, at, k, n) ==> |n.path| > |at| && n.path[|at|] == k
  {
    if at <= n.path && |n.path| > |at| {
      var k := n.path[|at|];
      assert at + [k] <= n.path;
      assert n.path[|at|..][1..] == n.path[|at + [k]|..];
    }
    forall k | DueBelow(config, oldWigo, newWigo, at, k, n)
      ensures |n.path| > |at| && n.path[|at|] == k && at <= n.path
    {
      assert n.path[|at|] == (at + [k])[|at|];
      assert at == (at + [k])[..|at|] == n.path[..|at|];
    }
  }

  method CompareTwoWigosAndRaiseNotifications(config: Config, oldWigo: Wigo, newWigo: Wigo, at: Path)
    returns (sent: seq<Notification>)
    ensures NoDuplicates(sent)
    ensures forall n :: n in sent <==> Due(config, oldWigo, newWigo, at, n)
    decreases oldWigo
  {
    sent := CompareProbes(config, oldWigo, newWigo, at);
    forall n {
      DueSplit(config, oldWigo, newWigo, at, n);
    }
    var todo := oldWigo.remotes.Keys;
    while todo != {}
      invariant todo <= oldWigo.remotes.Keys
      invariant NoDuplicates(sent)
      invariant forall n :: n in sent <==>
                  || (n.path == at && Due(config, oldWigo, newWigo, at, n))
                  || (n.path != at && Due(config, oldWigo, newWigo, at, n) && n.path[|at|] !in todo)
      decreases todo
    {
      var name :| name in todo;
      if name in newWigo.remotes {
        var below := CompareTwoWigosAndRaiseNotifications(config, oldWigo.remotes[name], newWigo.remotes[name], at + [name]);
        assert forall n :: n in below <==> DueBelow(config, oldWigo, newWigo, at, name, n);
        AppendDisjoint(sent, below);
        sent := sent + below;
      }
      todo := todo - {name};
    }
  }

  /** The probes of one host: changed ones may notify; vanished and new ones never do. */
  method CompareProbes(config: Config, oldWigo: Wigo, newWigo: Wigo, at: Path) returns (sent: seq<Notification>)
    ensures NoDuplicates(sent)
    ensures forall n :: n in sent <==> n.path == at && config.onProbeChange && DueAt(config, oldWigo, newWigo, n)
  {
    sent := [];
    var todo := oldWigo.host.probes.Keys;
    while todo != {}
      invariant todo <= oldWigo.host.probes.Keys
      invariant NoDuplicates(sent)
      invariant forall n :: n in sent <==>
                  n.path == at && config.onProbeChange && DueAt(config, oldWigo, newWigo, n) && n.probe !in todo
      decreases todo
    {
      var name :| name in todo;
      var oldStatus := oldWigo.host.probes[name];
      var out := [];
      if name in newWigo.host.probes {
        var newStatus := newWigo.host.probes[name];
        if oldStatus != newStatus {
          out := NewNotificationProbe(config, at, name, Some(oldStatus), Some(newStatus));
        }
      } else if newWigo.isAlive {
        out := NewNotificationProbe(config, at, name, Some(oldStatus), None);
      }
      AppendDisjoint(sent, out);
      sent := sent + out;
      todo := todo - {name};
    }
    if newWigo.isAlive && oldWigo.isAlive {
      ghost var changes := sent;
      todo := newWigo.host.probes.Keys;
      while todo != {}
        invariant todo <= newWigo.host.probes.Keys
        invariant sent == changes
        decreases todo
      {
        var name :| name in todo;
        if name in oldWigo.host.probes {
          var out := NewNotificationProbe(config, at, name, None, Some(newWigo.host.probes[name]));
          sent := sent + out;
        }
        todo := todo - {name};
      }
    }
  }
}
