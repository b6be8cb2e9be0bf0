/** Underscore's throttle and debounce as the closures they are: their captured variables and the host's timer
    table change in place, each call and each firing taking the step the state machines of Timers describe. */
module TimerClosures {
  import opened Basics
  import opened Timers

  /** The host's setTimeout and clearTimeout, with the calls of the wrapped function it sees. */
  class Host {
    var timers: map<nat, int>
    var nextId: nat
    var clock: int
    var log: seq<Invocation>

    constructor (clock: int)
      ensures timers == map[] && nextId == 1 && this.clock == clock && log == []
    {
      timers, nextId, this.clock, log := map[], 1, clock, [];
    }

    method SetTimeout(delay: int) returns (id: nat)
      modifies this
      ensures id == old(nextId) && nextId == id + 1 && timers == old(timers)[id := clock + delay]
      ensures clock == old(clock) && log == old(log)
    {
      id := nextId;
      timers := timers[id := clock + delay];
      nextId := id + 1;
    }

    /** Clearing no timer, or one that is gone, does nothing. */
    method ClearTimeout(id: Option<nat>)
      modifies this
      ensures timers == (if id.Some? then old(timers) - {id.value} else old(timers))
      ensures nextId == old(nextId) && clock == old(clock) && log == old(log)
    {
      if id.Some? {
        timers := timers - {id.value};
      }
    }

    method Apply(args: Option<Args>)
      modifies this
      ensures log == old(log) + [Invocation(clock, args)]
      ensures nextId == old(nextId) && clock == old(clock) && timers == old(timers)
    {
      log := log + [Invocation(clock, args)];
    }
  }

  class Throttled {
    const o: Options
    const host: Host
    var timeout: Option<nat>
    var previous: int
    var args: Option<Args>
    ghost var lastCall: Option<LastCall>

    constructor (o: Options, host: Host)
      requires host.timers == map[] && host.nextId == 1 && host.log == []
      ensures this.o == o && this.host == host && State() == ThrottleStart(host.clock)
    {
      this.o, this.host := o, host;
      timeout, previous, args, lastCall := None, 0, None, None;
    }

    ghost function State(): Throttle
      reads this, host
    {
      Throttle(timeout, previous, args, host.timers, host.nextId, host.clock, host.log, lastCall)
    }

    /** The wrapped function, called at the host's present time `now`. */
    method Call(now: int, arguments: Args)
      modifies this, host
      ensures State() == ThrottleStep(o, old(State()), Called(now, arguments))
    {
      host.clock := now;
      lastCall := Some(LastCall(now, arguments));
      if previous == 0 && !o.leading {
        previous := now;
      }
      var remaining := o.wait - (now - previous);
      args := Some(arguments);
      if remaining <= 0 {
        host.ClearTimeout(timeout);
        timeout := None;
        previous := now;
        host.Apply(args);
        args := None;
      } else if timeout == None && o.trailing {
        var id := host.SetTimeout(remaining);
        timeout := Some(id);
      }
    }

    /** The host fires timer `id` at time `now`. */
    method Later(id: nat, now: int)
      modifies this, host
      ensures State() == ThrottleStep(o, old(State()), Fired(id, now))
    {
      host.clock := now;
      host.ClearTimeout(Some(id));
      previous := if o.leading then now else 0;
      timeout := None;
      host.Apply(args);
      args := None;
    }
  }

  class Debounced {
    const wait: int
    const immediate: bool
    const host: Host
    var timeout: Option<nat>
    var args: Option<Args>
    var timestamp: int
    ghost var lastCall: Option<LastCall>

    constructor (wait: int, immediate: bool, host: Host)
      requires host.timers == map[] && host.nextId == 1 && host.log == []
      ensures this.wait == wait && this.immediate == immediate && this.host == host
      ensures State() == DebounceStart(host.clock)
    {
      this.wait, this.immediate, this.host := wait, immediate, host;
      timeout, args, timestamp, lastCall := None, None, 0, None;
    }

    ghost function State(): Debounce
      reads this, host
    {
      Debounce(timeout, args, timestamp, host.timers, host.nextId, host.clock, host.log, lastCall)
    }

    method Call(now: int, arguments: Args)
      modifies this, host
      ensures State() == DebounceStep(wait, immediate, old(State()), Called(now, arguments))
    {
      host.clock := now;
      lastCall := Some(LastCall(now, arguments));
      args := Some(arguments);
      timestamp := now;
      var callNow := immediate && timeout == None;
      if timeout == None {
        var id := host.SetTimeout(wait);
        timeout := Some(id);
      }
      if callNow {
        host.Apply(args);
        args := None;
      }
    }

    method Later(id: nat, now: int)
      modifies this, host
      ensures State() == DebounceStep(wait, immediate, old(State()), Fired(id, now))
    {
      host.clock := now;
      host.ClearTimeout(Some(id));
      var last := now - timestamp;
      if last < wait {
        var again := host.SetTimeout(wait - last);
        timeout := Some(again);
      } else {
        timeout := None;
        if !immediate {
          host.Apply(args);
          args := None;
        }
      }
    }
  }
}
