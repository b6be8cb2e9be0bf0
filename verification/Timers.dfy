/** Underscore's throttle and debounce as timed state machines. The host's timer table is part of the state:
    setTimeout adds an entry, clearTimeout removes one, and an entry may fire once its due time has come.
    `log` and `lastCall` record the invocations of the wrapped function and the latest call. */
module Timers {
  import opened Basics

  type Args = int

  datatype Invocation = Invocation(time: int, args: Option<Args>)

  datatype LastCall = LastCall(time: int, args: Args)

  datatype Event = Called(now: int, args: Args) | Fired(id: nat, now: int)

  /** At most one timer is pending, and it is the one the closure remembers. */
  ghost predicate OneTimer(timers: map<nat, int>, timeout: Option<nat>, due: int, nextId: nat) {
    match timeout
    case None => timers == map[]
    case Some(id) => timers == map[id := due] && id < nextId
  }

  /** Any two invocations are at least `wait` apart. */
  ghost predicate Spaced(wait: int, log: seq<Invocation>) {
    forall i, j :: 0 <= i < j < |log| ==> log[j].time - log[i].time >= wait
  }

  // ------------------------------------------------------------------- throttle

  datatype Options = Options(wait: int, leading: bool, trailing: bool)

  datatype Throttle = Throttle(timeout: Option<nat>, previous: int, args: Option<Args>,
                               timers: map<nat, int>, nextId: nat, clock: int,
                               log: seq<Invocation>, lastCall: Option<LastCall>)

  function ThrottleStart(clock: int): Throttle {
    Throttle(None, 0, None, map[], 1, clock, [], None)
  }

  predicate ThrottleEnabled(s: Throttle, e: Event) {
    e.now >= s.clock && (e.Fired? ==> e.id in s.timers && e.now >= s.timers[e.id])
  }

  function ThrottleStep(o: Options, s: Throttle, e: Event): Throttle {
    match e
    case Called(now, args) =>
      var previous := if s.previous == 0 && !o.leading then now else s.previous;
      var remaining := o.wait - (now - previous);
      var called := s.(clock := now, lastCall := Some(LastCall(now, args)));
      if remaining <= 0 then
        called.(timers := if s.timeout.Some? then s.timers - {s.timeout.value} else s.timers, timeout := None,
                previous := now, log := s.log + [Invocation(now, Some(args))], args := None)
      else if s.timeout.None? && o.trailing then
        called.(previous := previous, args := Some(args), timeout := Some(s.nextId),
                timers := s.timers[s.nextId := now + remaining], nextId := s.nextId + 1)
      else called.(previous := previous, args := Some(args))
    case Fired(id, now) =>
      s.(clock := now, timers := s.timers - {id}, previous := if o.leading then now else 0, timeout := None,
         log := s.log + [Invocation(now, s.args)], args := None)
  }

  ghost function ThrottleRun(o: Options, start: int, events: seq<Event>): Throttle {
    if events == [] then ThrottleStart(start)
    else ThrottleStep(o, ThrottleRun(o, start, events[..|events| - 1]), events[|events| - 1])
  }

  ghost predicate ThrottleRuns(o: Options, start: int, events: seq<Event>) {
    forall i :: 0 <= i < |events| ==> ThrottleEnabled(ThrottleRun(o, start, events[..i]), events[i])
  }

  /** Unserved arguments are always the latest ones and, unless trailing calls are disabled, a timer is pending
      that is due within `wait` of the latest call and will deliver them. */
  ghost predicate NothingLost(o: Options, s: Throttle) {
    match s.lastCall
    case None => s.args == None && s.timeout == None
    case Some(call) =>
      && (s.args == None ==> s.log != [] && s.log[|s.log| - 1].args == Some(call.args))
      && (s.args != None ==> s.args == Some(call.args))
      && (s.args != None && o.trailing ==> s.timeout != None)
      && (s.timeout != None ==> s.args != None && s.previous <= call.time)
  }

  ghost predicate ThrottleClock(o: Options, s: Throttle) {
    && OneTimer(s.timers, s.timeout, s.previous + o.wait, s.nextId)
    && (s.timeout != None ==> o.wait > 0 && s.previous > 0 && o.trailing)
    && s.clock >= o.wait
    && (s.previous == 0 || o.wait <= s.previous <= s.clock)
  }

  ghost predicate ThrottleLog(o: Options, s: Throttle) {
    && Spaced(o.wait, s.log)
    && (forall i :: 0 <= i < |s.log| ==> s.log[i].time <= s.clock)
    && (o.wait > 0 && s.previous != 0 ==> forall i :: 0 <= i < |s.log| ==> s.log[i].time <= s.previous)
    && (o.wait > 0 && o.leading ==> s.previous == if s.log == [] then 0 else s.log[|s.log| - 1].time)
  }

  ghost predicate ThrottleValid(o: Options, s: Throttle) {
    ThrottleClock(o, s) && ThrottleLog(o, s) && NothingLost(o, s)
  }

  lemma ThrottleStepLog(o: Options, s: Throttle, e: Event)
    requires ThrottleClock(o, s) && ThrottleLog(o, s) && ThrottleEnabled(s, e)
    ensures ThrottleLog(o, ThrottleStep(o, s, e))
  {
  }

  lemma ThrottleStepValid(o: Options, s: Throttle, e: Event)
    requires ThrottleValid(o, s) && ThrottleEnabled(s, e)
    ensures ThrottleValid(o, ThrottleStep(o, s, e))
  {
    ThrottleStepLog(o, s, e);
    var next := ThrottleStep(o, s, e);
    assert ThrottleClock(o, next);
    assert NothingLost(o, next);
  }

  /** For every combination of leading and trailing, over every run on a monotone clock that starts at or after
      `wait`: invocations are spaced, at most one timer is pending, and no latest arguments are lost. */
  lemma {:induction false} ThrottleRunValid(o: Options, start: int, events: seq<Event>)
    requires start >= o.wait && ThrottleRuns(o, start, events)
    ensures ThrottleValid(o, ThrottleRun(o, start, events))
  {
    if events != [] {
      var last := |events| - 1;
      var before := events[..last];
      assert forall i :: 0 <= i < last ==> before[..i] == events[..i] && before[i] == events[i];
      ThrottleRunValid(o, start, before);
      ThrottleStepValid(o, ThrottleRun(o, start, before), events[last]);
    }
  }

  /** A pending timer delivers the latest arguments, and a punctual one does so within `wait` of their call. */
  lemma ThrottleDelivers(o: Options, s: Throttle, e: Event)
    requires ThrottleValid(o, s) && ThrottleEnabled(s, e) && e.Fired?
    ensures s.lastCall.Some? && s.timers[e.id] <= s.lastCall.value.time + o.wait
    ensures ThrottleStep(o, s, e).log == s.log + [Invocation(e.now, Some(s.lastCall.value.args))]
    ensures ThrottleStep(o, s, e).timers == map[]
  {
  }

  /** With leading calls enabled, a call goes through at once if and only if it is the first or comes at least
      `wait` after the last invocation. */
  lemma LeadingInvokesIff(o: Options, s: Throttle, e: Event)
    requires ThrottleValid(o, s) && ThrottleEnabled(s, e) && e.Called? && o.leading
    ensures ThrottleStep(o, s, e).log ==
            if s.log == [] || e.now - s.log[|s.log| - 1].time >= o.wait
            then s.log + [Invocation(e.now, Some(e.args))] else s.log
  {
  }

  /** With leading calls disabled, a call that opens a window never goes through; unless trailing calls are disabled
      too, it is due exactly `wait` later. */
  lemma OpeningCallWaits(o: Options, s: Throttle, e: Event)
    requires ThrottleValid(o, s) && ThrottleEnabled(s, e) && e.Called? && !o.leading && o.wait > 0 && s.previous == 0
    ensures var next := ThrottleStep(o, s, e);
            && next.log == s.log
            && (o.trailing ==> next.timers == map[s.nextId := e.now + o.wait])
  {
  }

  // ------------------------------------------------------------------- debounce

  datatype Debounce = Debounce(timeout: Option<nat>, args: Option<Args>, timestamp: int,
                               timers: map<nat, int>, nextId: nat, clock: int,
                               log: seq<Invocation>, lastCall: Option<LastCall>)

  function DebounceStart(clock: int): Debounce {
    Debounce(None, None, 0, map[], 1, clock, [], None)
  }

  predicate DebounceEnabled(s: Debounce, e: Event) {
    e.now >= s.clock && (e.Fired? ==> e.id in s.timers && e.now >= s.timers[e.id])
  }

  function DebounceStep(wait: int, immediate: bool, s: Debounce, e: Event): Debounce {
    match e
    case Called(now, args) =>
      var called := s.(clock := now, lastCall := Some(LastCall(now, args)), timestamp := now, args := Some(args));
      var armed := if s.timeout.None?
                   then called.(timeout := Some(s.nextId), timers := s.timers[s.nextId := now + wait], nextId := s.nextId + 1)
                   else called;
      if immediate && s.timeout.None?
      then armed.(log := s.log + [Invocation(now, Some(args))], args := None)
      else armed
    case Fired(id, now) =>
      var fired := s.(clock := now, timers := s.timers - {id});
      var last := now - s.timestamp;
      if last < wait then
        fired.(timeout := Some(s.nextId), timers := fired.timers[s.nextId := now + (wait - last)], nextId := s.nextId + 1)
      else if immediate then fired.(timeout := None)
      else fired.(timeout := None, log := s.log + [Invocation(now, s.args)], args := None)
  }

  ghost function DebounceRun(wait: int, immediate: bool, start: int, events: seq<Event>): Debounce {
    if events == [] then DebounceStart(start)
    else DebounceStep(wait, immediate, DebounceRun(wait, immediate, start, events[..|events| - 1]), events[|events| - 1])
  }

  ghost predicate DebounceRuns(wait: int, immediate: bool, start: int, events: seq<Event>) {
    forall i :: 0 <= i < |events| ==> DebounceEnabled(DebounceRun(wait, immediate, start, events[..i]), events[i])
  }

  ghost predicate DebounceValid(wait: int, immediate: bool, s: Debounce) {
    && |s.timers| <= 1
    && (match s.timeout
        case None => s.timers == map[]
        case Some(id) => s.timers.Keys == {id} && id < s.nextId)
    && match s.lastCall
       case None => s.timeout == None && s.log == []
       case Some(call) =>
         && s.timestamp == call.time <= s.clock
         && (s.timeout.Some? ==> s.timers[s.timeout.value] <= call.time + wait)
         && (s.timeout.None? ==> s.clock >= call.time + wait)
         && (!immediate ==> if s.timeout.Some? then s.args == Some(call.args)
                            else s.log != [] && s.log[|s.log| - 1].args == Some(call.args)
                                 && s.log[|s.log| - 1].time >= call.time + wait)
  }

  /** What one event may add to the log: a trailing invocation passes the latest arguments at least `wait` after
      the latest call; an immediate one answers the first call or one at least `wait` after its predecessor. */
  ghost predicate DebounceInvokes(wait: int, immediate: bool, s: Debounce, e: Event) {
    var next := DebounceStep(wait, immediate, s, e);
    || next.log == s.log
    || (!immediate && e.Fired? && s.lastCall.Some? && e.now >= s.lastCall.value.time + wait
        && next.log == s.log + [Invocation(e.now, Some(s.lastCall.value.args))])
    || (immediate && e.Called? && (s.lastCall.None? || e.now >= s.lastCall.value.time + wait)
        && next.log == s.log + [Invocation(e.now, Some(e.args))])
  }

  lemma DebounceStepValid(wait: int, immediate: bool, s: Debounce, e: Event)
    requires DebounceValid(wait, immediate, s) && DebounceEnabled(s, e)
    ensures DebounceValid(wait, immediate, DebounceStep(wait, immediate, s, e))
    ensures DebounceInvokes(wait, immediate, s, e)
  {
  }

  /** Over every run on a monotone clock, each step invokes only when it may, however often timers are re-armed. */
  lemma {:induction false} DebounceRunValid(wait: int, immediate: bool, start: int, events: seq<Event>)
    requires DebounceRuns(wait, immediate, start, events)
    ensures DebounceValid(wait, immediate, DebounceRun(wait, immediate, start, events))
    ensures events != [] ==>
              var last := |events| - 1;
              DebounceInvokes(wait, immediate, DebounceRun(wait, immediate, start, events[..last]), events[last])
  {
    if events != [] {
      var last := |events| - 1;
      var before := events[..last];
      assert forall i :: 0 <= i < last ==> before[..i] == events[..i] && before[i] == events[i];
      DebounceRunValid(wait, immediate, start, before);
      DebounceStepValid(wait, immediate, DebounceRun(wait, immediate, start, before), events[last]);
    }
  }

  /** A timer that fires too early is re-armed for exactly `wait` after the latest call, and without a further
      call its next firing ends the burst. */
  lemma RearmsOnce(wait: int, immediate: bool, s: Debounce, early: Event, late: Event)
    requires DebounceValid(wait, immediate, s) && DebounceEnabled(s, early) && early.Fired?
    requires early.now < s.timestamp + wait
    requires DebounceEnabled(DebounceStep(wait, immediate, s, early), late) && late.Fired?
    ensures var again := DebounceStep(wait, immediate, s, early);
            && again.timers.Values == {s.timestamp + wait} && again.log == s.log
            && DebounceStep(wait, immediate, again, late).timers == map[]
            && (!immediate ==> DebounceStep(wait, immediate, again, late).log == s.log + [Invocation(late.now, s.args)])
  {
    var again := DebounceStep(wait, immediate, s, early);
    assert again.timers == map[s.nextId := s.timestamp + wait];
  }

  /** When exactly the function is invoked: immediately, on every call with no timer pending; otherwise on every
      firing at least `wait` after the latest call, with its arguments. */
  lemma DebounceInvokesIff(wait: int, immediate: bool, s: Debounce, e: Event)
    requires DebounceValid(wait, immediate, s) && DebounceEnabled(s, e)
    ensures DebounceStep(wait, immediate, s, e).log ==
            if immediate && e.Called? && s.timers == map[] then s.log + [Invocation(e.now, Some(e.args))]
            else if !immediate && e.Fired? && s.lastCall.Some? && e.now >= s.lastCall.value.time + wait
            then s.log + [Invocation(e.now, Some(s.lastCall.value.args))]
            else s.log
  {
  }

  /** Every call leaves exactly one timer pending. */
  lemma CallLeavesTimer(wait: int, immediate: bool, s: Debounce, e: Event)
    requires DebounceValid(wait, immediate, s) && DebounceEnabled(s, e) && e.Called?
    ensures |DebounceStep(wait, immediate, s, e).timers| == 1
  {
    DebounceStepValid(wait, immediate, s, e);
  }
}
