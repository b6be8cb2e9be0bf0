/** Whole runs of the up/down monitor: snapshots and sweeps, interleaved in any order. */
module Monitoring {
  import opened Basics
  import opened Forest
  import opened ForestUnique
  import opened LocalWigo

  datatype Event = Snapshot(remote: Wigo, now: int) | Tick(now: int)

  datatype Direction = WentDown | WentUp

  ghost function Step(local: Wigo, timeout: int, e: Event): Wigo {
    match e
    case Snapshot(remote, now) => AddOrUpdate(local, remote, now)
    case Tick(now) => Sweep(local, now, timeout)
  }

  /** What one event says about host `k`: at most one direction, and only sweeps speak. */
  ghost function Says(local: Wigo, timeout: int, e: Event, k: string): seq<Direction> {
    if e.Snapshot? then []
    else if SweepOwes(local, e.now, timeout, HostDown(k)) then [WentDown]
    else if SweepOwes(local, e.now, timeout, HostUp(k)) then [WentUp]
    else []
  }

  ghost function State(local: Wigo, timeout: int, events: seq<Event>): Wigo {
    if events == [] then local
    else
      var last := |events| - 1;
      Step(State(local, timeout, events[..last]), timeout, events[last])
  }

  /** Everything said about host `k` over a run, in order. */
  ghost function History(local: Wigo, timeout: int, events: seq<Event>, k: string): seq<Direction> {
    if events == [] then []
    else
      var last := |events| - 1;
      History(local, timeout, events[..last], k) + Says(State(local, timeout, events[..last]), timeout, events[last], k)
  }

  ghost predicate Alternates(log: seq<Direction>) {
    forall i :: 0 <= i < |log| ==> log[i] == if i % 2 == 0 then WentDown else WentUp
  }

  ghost predicate Live(w: Wigo, k: string) {
    k in w.remotes && w.remotes[k].isAlive
  }

  /** The log about `k` fits the forest: it alternates from DOWN, and its length tells whether the host is alive. */
  ghost predicate Fits(local: Wigo, log: seq<Direction>, k: string) {
    && Alternates(log)
    && if k in local.remotes then Live(local, k) <==> |log| % 2 == 0 else log == []
  }

  /** An accepted snapshot makes host `k` dead without a word: it arrives dead, and the host was new or alive. */
  ghost predicate DropsSilently(local: Wigo, e: Event, k: string) {
    && e.Snapshot? && !Rejects(local, e.remote) && e.remote.uuid == k && !e.remote.isAlive
    && (k in local.remotes ==> local.remotes[k].isAlive)
  }

  /** What a silent drop leaves behind for good: the next word, if any, is a second UP. */
  ghost predicate OutOfStep(local: Wigo, log: seq<Direction>, k: string) {
    !Alternates(log) || (k in local.remotes && !Live(local, k) && |log| % 2 == 0)
  }

  /** One event: liveness flips exactly when something is said, and a host appears alive and unannounced,
      unless the event drops it silently. */
  lemma StepFitsIff(local: Wigo, timeout: int, e: Event, log: seq<Direction>, k: string)
    requires Fits(local, log, k)
    ensures Fits(Step(local, timeout, e), log + Says(local, timeout, e, k), k) <==> !DropsSilently(local, e, k)
    ensures DropsSilently(local, e, k) ==> OutOfStep(Step(local, timeout, e), log + Says(local, timeout, e, k), k)
  {
    assert log + [] == log;
  }

  lemma StepStaysOut(local: Wigo, timeout: int, e: Event, log: seq<Direction>, k: string)
    requires OutOfStep(local, log, k)
    ensures OutOfStep(Step(local, timeout, e), log + Says(local, timeout, e, k), k)
  {
    var after := log + Says(local, timeout, e, k);
    assert log + [] == log;
    assert forall i :: 0 <= i < |log| ==> after[i] == log[i];
    if Alternates(log) && after != log {
      assert after[|log|] == WentUp;
    }
  }

  /** Event `i` of the run drops host `k` silently. */
  ghost predicate DropsAt(local: Wigo, timeout: int, events: seq<Event>, i: int, k: string)
    requires 0 <= i < |events|
  {
    DropsSilently(State(local, timeout, events[..i]), events[i], k)
  }

  ghost predicate NeverDropsSilently(local: Wigo, timeout: int, events: seq<Event>, k: string) {
    forall i :: 0 <= i < |events| ==> !DropsAt(local, timeout, events, i, k)
  }

  lemma SamePast(local: Wigo, timeout: int, events: seq<Event>, i: int, k: string)
    requires 0 <= i < |events| - 1
    ensures DropsAt(local, timeout, events[..|events| - 1], i, k) == DropsAt(local, timeout, events, i, k)
  {
    var before := events[..|events| - 1];
    assert before[..i] == events[..i] && before[i] == events[i];
  }

  lemma NeverDropsSplit(local: Wigo, timeout: int, events: seq<Event>, k: string)
    requires events != []
    ensures var last := |events| - 1;
            NeverDropsSilently(local, timeout, events, k) <==>
            NeverDropsSilently(local, timeout, events[..last], k) && !DropsAt(local, timeout, events, last, k)
  {
    var last := |events| - 1;
    var before := events[..last];
    if NeverDropsSilently(local, timeout, before, k) && !DropsAt(local, timeout, events, last, k) {
      forall i | 0 <= i < |events|
        ensures !DropsAt(local, timeout, events, i, k)
      {
        if i < last {
          SamePast(local, timeout, events, i, k);
          assert !DropsAt(local, timeout, before, i, k);
        }
      }
    }
    if NeverDropsSilently(local, timeout, events, k) {
      forall i | 0 <= i < last
        ensures !DropsAt(local, timeout, before, i, k)
      {
        SamePast(local, timeout, events, i, k);
        assert !DropsAt(local, timeout, events, i, k);
      }
    }
  }

  /** Each host's notifications strictly alternate DOWN, UP, DOWN, ... from its first arrival, and the host is
      alive exactly when the last word was not DOWN, if and only if no accepted snapshot of the run dropped it
      silently. No assumption on the clock is needed. */
  lemma {:induction false} NotificationsAlternateIff(local: Wigo, timeout: int, events: seq<Event>, k: string)
    requires k !in local.remotes
    ensures Fits(State(local, timeout, events), History(local, timeout, events, k), k) <==>
            NeverDropsSilently(local, timeout, events, k)
    ensures !NeverDropsSilently(local, timeout, events, k) ==>
            OutOfStep(State(local, timeout, events), History(local, timeout, events, k), k)
  {
    if events != [] {
      var last := |events| - 1;
      var s, log := State(local, timeout, events[..last]), History(local, timeout, events[..last], k);
      NotificationsAlternateIff(local, timeout, events[..last], k);
      NeverDropsSplit(local, timeout, events, k);
      if Fits(s, log, k) {
        StepFitsIff(s, timeout, events[last], log, k);
      } else {
        StepStaysOut(s, timeout, events[last], log, k);
        OutOfStepNeverFits(Step(s, timeout, events[last]), log + Says(s, timeout, events[last], k), k);
      }
    }
  }

  lemma OutOfStepNeverFits(local: Wigo, log: seq<Direction>, k: string)
    requires OutOfStep(local, log, k)
    ensures !Fits(local, log, k)
  {
  }

  /** The words alone: something is said at event `j` after a silent drop at event `i`. */
  ghost predicate SpeaksAfterDrop(local: Wigo, timeout: int, events: seq<Event>, i: int, j: int, k: string) {
    && 0 <= i < j < |events| && DropsAt(local, timeout, events, i, k)
    && Says(State(local, timeout, events[..j]), timeout, events[j], k) != []
  }

  ghost predicate QuietAfterDrops(local: Wigo, timeout: int, events: seq<Event>, k: string) {
    forall i, j :: !SpeaksAfterDrop(local, timeout, events, i, j, k)
  }

  lemma SpeaksSplit(local: Wigo, timeout: int, events: seq<Event>, i: int, j: int, k: string)
    requires 0 <= i < j < |events| - 1
    ensures SpeaksAfterDrop(local, timeout, events[..|events| - 1], i, j, k) == SpeaksAfterDrop(local, timeout, events, i, j, k)
  {
    var before := events[..|events| - 1];
    SamePast(local, timeout, events, i, k);
    assert before[..j] == events[..j] && before[j] == events[j];
  }

  /** The last event of the run says something about host `k`. */
  ghost predicate LastSpeaks(local: Wigo, timeout: int, events: seq<Event>, k: string)
    requires events != []
  {
    Says(State(local, timeout, events[..|events| - 1]), timeout, events[|events| - 1], k) != []
  }

  lemma QuietBefore(local: Wigo, timeout: int, events: seq<Event>, k: string)
    requires events != [] && QuietAfterDrops(local, timeout, events, k)
    ensures var before := events[..|events| - 1];
            && QuietAfterDrops(local, timeout, before, k)
            && (LastSpeaks(local, timeout, events, k) ==> NeverDropsSilently(local, timeout, before, k))
  {
    var last := |events| - 1;
    var before := events[..last];
    forall i, j
      ensures !SpeaksAfterDrop(local, timeout, before, i, j, k)
    {
      if 0 <= i < j < last {
        SpeaksSplit(local, timeout, events, i, j, k);
      }
    }
    forall i | 0 <= i < last && LastSpeaks(local, timeout, events, k)
      ensures !DropsAt(local, timeout, before, i, k)
    {
      SamePast(local, timeout, events, i, k);
      assert !SpeaksAfterDrop(local, timeout, events, i, last, k);
    }
  }

  lemma QuietOneMore(local: Wigo, timeout: int, events: seq<Event>, k: string)
    requires events != [] && QuietAfterDrops(local, timeout, events[..|events| - 1], k)
    requires LastSpeaks(local, timeout, events, k) ==> NeverDropsSilently(local, timeout, events[..|events| - 1], k)
    ensures QuietAfterDrops(local, timeout, events, k)
  {
    var last := |events| - 1;
    var before := events[..last];
    forall i, j
      ensures !SpeaksAfterDrop(local, timeout, events, i, j, k)
    {
      if 0 <= i < j < last {
        SpeaksSplit(local, timeout, events, i, j, k);
        assert !SpeaksAfterDrop(local, timeout, before, i, j, k);
      } else if 0 <= i < j == last && LastSpeaks(local, timeout, events, k) {
        SamePast(local, timeout, events, i, k);
        assert !DropsAt(local, timeout, before, i, k);
      }
    }
  }

  /** The words about a host alternate if and only if nothing is ever said about it after a silent drop. */
  lemma {:induction false} WordsAlternateIff(local: Wigo, timeout: int, events: seq<Event>, k: string)
    requires k !in local.remotes
    ensures Alternates(History(local, timeout, events, k)) <==> QuietAfterDrops(local, timeout, events, k)
  {
    if events != [] {
      var last := |events| - 1;
      var before := events[..last];
      WordsAlternateIff(local, timeout, before, k);
      if QuietAfterDrops(local, timeout, events, k) {
        QuietBefore(local, timeout, events, k);
      } else if QuietAfterDrops(local, timeout, before, k)
                && (LastSpeaks(local, timeout, events, k) ==> NeverDropsSilently(local, timeout, before, k)) {
        QuietOneMore(local, timeout, events, k);
      }
      NotificationsAlternateIff(local, timeout, before, k);
      NextWord(State(local, timeout, before), timeout, events[last], History(local, timeout, before, k), k);
    }
  }

  /** A further word fits the alternation exactly when the host was in step. */
  lemma NextWord(local: Wigo, timeout: int, e: Event, log: seq<Direction>, k: string)
    requires Fits(local, log, k) || OutOfStep(local, log, k)
    ensures Alternates(log + Says(local, timeout, e, k)) <==>
            Alternates(log) && (Says(local, timeout, e, k) == [] || Fits(local, log, k))
  {
    var after := log + Says(local, timeout, e, k);
    assert log + [] == log;
    assert forall i :: 0 <= i < |log| ==> after[i] == log[i];
    if after != log {
      assert after[|log|] == Says(local, timeout, e, k)[0];
    }
  }

  ghost predicate ArrivesAlive(events: seq<Event>, k: string) {
    forall i :: 0 <= i < |events| && events[i].Snapshot? && events[i].remote.uuid == k ==> events[i].remote.isAlive
  }

  /** In particular they alternate when every snapshot arrives alive. */
  lemma NotificationsAlternate(local: Wigo, timeout: int, events: seq<Event>, k: string)
    requires k !in local.remotes && ArrivesAlive(events, k)
    ensures Fits(State(local, timeout, events), History(local, timeout, events, k), k)
  {
    NotificationsAlternateIff(local, timeout, events, k);
  }

  /** A snapshot that arrives dead breaks the alternation: the first word about the host is then UP. */
  lemma DeadArrivalSpeaksUpFirst(local: Wigo, remote: Wigo)
    requires local.uuid == "A" && local.remotes == map[]
    requires remote.uuid == "B" && remote.remotes == map[] && !remote.isAlive
    ensures History(local, 60, [Snapshot(remote, 0), Tick(0)], "B") == [WentUp]
  {
    var events := [Snapshot(remote, 0), Tick(0)];
    assert events[..1] == [Snapshot(remote, 0)];
    assert [Snapshot(remote, 0)][..0] == [];
    assert State(local, 60, []) == local;
    assert State(local, 60, events[..1]) == AddOrUpdate(local, remote, 0);
    assert History(local, 60, events[..1], "B") == [];
  }

  /** Right after a sweep, every host is alive exactly when it was heard of recently enough. */
  lemma SweepTellsTheTruth(local: Wigo, timeout: int, now: int, k: string)
    requires k in local.remotes
    ensures var swept := Sweep(local, now, timeout);
            && k in swept.remotes
            && swept.remotes[k].lastUpdate == local.remotes[k].lastUpdate
            && (swept.remotes[k].isAlive <==> swept.remotes[k].lastUpdate >= now - timeout)
  {
  }

  /** A sweep touches nothing of a host but what it declares: its liveness, its message and, going down, its
      statuses. */
  lemma SweepTouches(local: Wigo, timeout: int, now: int, k: string)
    requires k in local.remotes
    ensures var w, swept := local.remotes[k], Sweep(local, now, timeout).remotes[k];
            && swept == w.(isAlive := swept.isAlive, globalMessage := swept.globalMessage, globalStatus := swept.globalStatus,
                           host := w.host.(status := swept.host.status))
            && (w.isAlive == swept.isAlive ==> swept == w)
            && (!w.isAlive && swept.isAlive ==> swept == w.(isAlive := true, globalMessage := "UP"))
            && (w.isAlive && !swept.isAlive ==> ForcedDown(swept) && swept.globalMessage == "DOWN")
  {
  }

  /** A live snapshot keeps a host alive for exactly the timeout, unless the host was dead before. */
  lemma SnapshotLastsTimeout(local: Wigo, remote: Wigo, t: int, now: int, timeout: int)
    requires !Rejects(local, remote) && remote.isAlive
    requires remote.uuid in local.remotes ==> local.remotes[remote.uuid].isAlive
    ensures var swept := Sweep(AddOrUpdate(local, remote, t), now, timeout);
            && remote.uuid in swept.remotes && swept.remotes[remote.uuid].lastUpdate == t
            && (swept.remotes[remote.uuid].isAlive <==> t >= now - timeout)
  {
  }

  /** The event is an accepted snapshot of host `k`. */
  ghost predicate Hears(local: Wigo, e: Event, k: string) {
    e.Snapshot? && !Rejects(local, e.remote) && e.remote.uuid == k
  }

  /** When the run last heard of host `k`. */
  ghost function LastHeard(local: Wigo, timeout: int, events: seq<Event>, k: string): Option<int> {
    if events == [] then None
    else
      var last := |events| - 1;
      if HearsAt(local, timeout, events, last, k) then Some(events[last].now) else LastHeard(local, timeout, events[..last], k)
  }

  lemma StampStep(local: Wigo, timeout: int, e: Event, k: string)
    ensures var after := Step(local, timeout, e);
            if Hears(local, e, k) then k in after.remotes && after.remotes[k].lastUpdate == e.now
            else (k in after.remotes <==> k in local.remotes)
                 && (k in after.remotes ==> after.remotes[k].lastUpdate == local.remotes[k].lastUpdate)
  {
  }

  /** Over every run the forest holds exactly the hosts it has heard of, each stamped with the last time. */
  lemma {:induction false} StampIsLastHeard(local: Wigo, timeout: int, events: seq<Event>, k: string)
    requires k !in local.remotes
    ensures var s := State(local, timeout, events);
            && (k in s.remotes <==> LastHeard(local, timeout, events, k).Some?)
            && (k in s.remotes ==> LastHeard(local, timeout, events, k) == Some(s.remotes[k].lastUpdate))
  {
    if events != [] {
      var before := events[..|events| - 1];
      StampIsLastHeard(local, timeout, before, k);
      StampStep(State(local, timeout, before), timeout, events[|events| - 1], k);
    }
  }

  /** Right after a sweep, whatever happened before, a host is alive if and only if it was last heard of within the
      timeout. */
  lemma AliveIffHeardLately(local: Wigo, timeout: int, events: seq<Event>, now: int, k: string)
    requires k !in local.remotes
    ensures var heard := LastHeard(local, timeout, events, k);
            Live(State(local, timeout, events + [Tick(now)]), k) <==> heard.Some? && heard.value >= now - timeout
  {
    StampIsLastHeard(local, timeout, events, k);
    assert (events + [Tick(now)])[..|events|] == events;
  }

  predicate Monotone(events: seq<Event>) {
    forall i, j :: 0 <= i < j < |events| ==> events[i].now <= events[j].now
  }

  ghost predicate HeardSince(local: Wigo, timeout: int, events: seq<Event>, k: string, since: int) {
    exists i :: 0 <= i < |events| && events[i].now >= since && HearsAt(local, timeout, events, i, k)
  }

  ghost predicate HearsAt(local: Wigo, timeout: int, events: seq<Event>, i: int, k: string)
    requires 0 <= i < |events|
  {
    Hears(State(local, timeout, events[..i]), events[i], k)
  }

  lemma HeardBefore(local: Wigo, timeout: int, events: seq<Event>, i: int, k: string)
    requires 0 <= i < |events| - 1
    ensures HearsAt(local, timeout, events[..|events| - 1], i, k) == HearsAt(local, timeout, events, i, k)
  {
    assert events[..|events| - 1][..i] == events[..i];
  }

  lemma HeardSinceSplit(local: Wigo, timeout: int, events: seq<Event>, k: string, since: int)
    requires events != []
    ensures var last := |events| - 1;
            HeardSince(local, timeout, events, k, since) <==>
            || HeardSince(local, timeout, events[..last], k, since)
            || (events[last].now >= since && HearsAt(local, timeout, events, last, k))
  {
    var last := |events| - 1;
    var before := events[..last];
    if i :| 0 <= i < last && before[i].now >= since && HearsAt(local, timeout, before, i, k) {
      HeardBefore(local, timeout, events, i, k);
      assert events[i].now >= since && HearsAt(local, timeout, events, i, k);
    }
    if i :| 0 <= i < last && events[i].now >= since && HearsAt(local, timeout, events, i, k) {
      HeardBefore(local, timeout, events, i, k);
      assert before[i].now >= since && HearsAt(local, timeout, before, i, k);
    }
  }

  lemma HeardNotLater(local: Wigo, timeout: int, events: seq<Event>, k: string, since: int)
    requires Monotone(events) && events != [] && HeardSince(local, timeout, events[..|events| - 1], k, since)
    ensures events[|events| - 1].now >= since
  {
    var before := events[..|events| - 1];
    var i :| 0 <= i < |before| && before[i].now >= since && HearsAt(local, timeout, before, i, k);
    assert before[i] == events[i];
  }

  /** On a clock that never runs backwards: the last time is late enough if and only if some accepted snapshot is. */
  lemma {:induction false} LastHeardIsLatest(local: Wigo, timeout: int, events: seq<Event>, k: string, since: int)
    requires Monotone(events)
    ensures var heard := LastHeard(local, timeout, events, k);
            heard.Some? && heard.value >= since <==> HeardSince(local, timeout, events, k, since)
  {
    if events != [] {
      LastHeardIsLatest(local, timeout, events[..|events| - 1], k, since);
      HeardSinceSplit(local, timeout, events, k, since);
      if HeardSince(local, timeout, events[..|events| - 1], k, since) {
        HeardNotLater(local, timeout, events, k, since);
      }
    }
  }

  /** So on such a clock a host is alive after a sweep if and only if an accepted snapshot of it arrived within the
      timeout. */
  lemma AliveIffHeardSince(local: Wigo, timeout: int, events: seq<Event>, now: int, k: string)
    requires k !in local.remotes && Monotone(events)
    ensures Live(State(local, timeout, events + [Tick(now)]), k) <==> HeardSince(local, timeout, events, k, now - timeout)
  {
    AliveIffHeardLately(local, timeout, events, now, k);
    LastHeardIsLatest(local, timeout, events, k, now - timeout);
  }

  ghost predicate ForcedDown(w: Wigo) {
    w.globalStatus == 999 && w.host.status == 999 && !w.isAlive
  }

  /** A host a sweep forced to 999 stays exactly as it is, and nothing is said about it, until a new
      snapshot of it arrives; the clock must not run backwards. */
  lemma {:induction false} DownUntilSnapshot(local: Wigo, timeout: int, events: seq<Event>, k: string, since: int)
    requires k in local.remotes && Stale(local.remotes[k], since, timeout) && local.remotes[k].isAlive
    requires forall i :: 0 <= i < |events| ==> events[i].now >= since
    requires forall i :: 0 <= i < |events| && events[i].Snapshot? ==> events[i].remote.uuid != k
    ensures var down := Sweep(local, since, timeout);
            && k in down.remotes && ForcedDown(down.remotes[k])
            && k in State(down, timeout, events).remotes
            && State(down, timeout, events).remotes[k] == down.remotes[k]
            && History(down, timeout, events, k) == []
  {
    if events != [] {
      DownUntilSnapshot(local, timeout, events[..|events| - 1], k, since);
    }
  }

  // ---------------------------------------------------- the forest over such runs

  lemma SweepThins(local: Wigo, now: int, timeout: int)
    ensures Thins(local, Sweep(local, now, timeout))
  {
    forall p | p != []
      ensures UuidAt(Sweep(local, now, timeout), p) == UuidAt(local, p)
    {
      SweptUuid(local, now, timeout, p);
    }
  }

  lemma SweptUuid(local: Wigo, now: int, timeout: int, p: Path)
    requires p != []
    ensures UuidAt(Sweep(local, now, timeout), p) == UuidAt(local, p)
  {
    var swept := Sweep(local, now, timeout);
    if p[0] in local.remotes {
      var a, b := local.remotes[p[0]], swept.remotes[p[0]];
      assert NodeAt(local, p) == NodeAt(a, p[1..]) && NodeAt(swept, p) == NodeAt(b, p[1..]);
      if |p| > 1 {
        SameBelow(a, b, p[1..]);
      }
    }
  }

  /** Sweeps and updates in any order keep every node under its own uuid and the local uuid out of the forest. */
  lemma {:induction false} StateIsClean(local: Wigo, timeout: int, events: seq<Event>)
    requires local.uuid != "" && local.remotes == map[]
    ensures Clean(State(local, timeout, events)) && State(local, timeout, events).uuid == local.uuid
  {
    if events != [] {
      var last := |events| - 1;
      var s := State(local, timeout, events[..last]);
      StateIsClean(local, timeout, events[..last]);
      match events[last]
      case Snapshot(remote, now) => UpdateKeepsClean(s, remote, now);
      case Tick(now) =>
        SweepThins(s, now, timeout);
        ThinnerIsClean(s, Sweep(s, now, timeout));
    }
  }
}
