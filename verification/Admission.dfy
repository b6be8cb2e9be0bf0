/** Who is waiting and who is allowed, told by the past of the push server alone: the requests and decisions that
    put a client on a list, those that take it off, and what a revocation means from then on. */
module Admission {
  import opened Basics
  import opened AllowedList
  import opened PushProtocol
  import Forest

  // ------------------------------------------------------------ gaining and losing

  /** Of a run of `n` events: what was there at first and never ended, or was gained and not ended since. */
  ghost predicate Held(initially: bool, gains: int -> bool, ends: int -> bool, n: nat) {
    || (initially && forall k :: 0 <= k < n ==> !ends(k))
    || exists j :: 0 <= j < n && gains(j) && forall k :: j < k < n ==> !ends(k)
  }

  lemma HeldOneMore(initially: bool, gains: int -> bool, ends: int -> bool, n: nat)
    ensures Held(initially, gains, ends, n + 1) <==> gains(n) || (Held(initially, gains, ends, n) && !ends(n))
  {
    if j :| 0 <= j < n && gains(j) && forall k :: j < k < n ==> !ends(k) {
      assert !ends(n) ==> forall k :: j < k < n + 1 ==> !ends(k);
    }
    if j :| 0 <= j < n + 1 && gains(j) && forall k :: j < k < n + 1 ==> !ends(k) {
      assert j < n ==> !ends(n);
    }
  }

  // ---------------------------------------------------------------- single events

  predicate On(list: map<string, string>, uuid: string, hostname: string) {
    uuid in list && list[uuid] == hostname
  }

  /** The event puts an unknown client on the waiting list, under the hostname it registers with. */
  predicate Joins(settings: Settings, s: Server, e: Event, uuid: string, hostname: string) {
    && e.Register? && e.uuid == uuid && e.hostname == hostname && !settings.autoAccept
    && uuid !in s.allowed && uuid !in s.waiting && |s.waiting| < settings.maxWaiting
  }

  /** The event puts a client on the allowed list: the administrator allows it while it waits, or it registers
      where clients are accepted automatically and is waiting already or finds room. */
  predicate Admits(settings: Settings, s: Server, e: Event, uuid: string, hostname: string) {
    || (e.Allow? && e.uuid == uuid && On(s.waiting, uuid, hostname))
    || (e.Register? && e.uuid == uuid && settings.autoAccept && uuid !in s.allowed
        && if uuid in s.waiting then s.waiting[uuid] == hostname
           else |s.waiting| < settings.maxWaiting && e.hostname == hostname)
  }

  predicate Revokes(e: Event, uuid: string) {
    e.Revoke? && e.uuid == uuid
  }

  /** The event takes the client off the waiting list. */
  predicate Leaves(settings: Settings, s: Server, e: Event, uuid: string) {
    Revokes(e, uuid) || e.Restart? || (uuid in s.waiting && Admits(settings, s, e, uuid, s.waiting[uuid]))
  }

  ghost predicate Sound(settings: Settings, s: Server) {
    WellFormed(settings, s) && Invariant(settings, s) && Load(settings.accepts, s.file) == Loaded(s.allowed)
  }

  /** What an event makes of one place on both lists. */
  ghost predicate ListsFollow(settings: Settings, s: Server, e: Event, uuid: string, hostname: string) {
    var t := Step(settings, s, e);
    && (On(t.allowed, uuid, hostname) <==>
        Admits(settings, s, e, uuid, hostname) || (On(s.allowed, uuid, hostname) && !Revokes(e, uuid)))
    && (On(t.waiting, uuid, hostname) <==>
        Joins(settings, s, e, uuid, hostname) || (On(s.waiting, uuid, hostname) && !Leaves(settings, s, e, uuid)))
  }

  lemma AddedOn(settings: Settings, s: Server, u: string, h: string, uuid: string, hostname: string)
    ensures var t := AddedToWaiting(settings, s, u, h);
            && t.allowed == s.allowed
            && (On(t.waiting, uuid, hostname) <==>
                || On(s.waiting, uuid, hostname)
                || (u == uuid && h == hostname && uuid !in s.waiting && |s.waiting| < settings.maxWaiting))
  {
  }

  lemma AllowedOn(s: Server, u: string, order: seq<string>, uuid: string, hostname: string)
    ensures var t := Allowed(s, u, order);
            && (On(t.waiting, uuid, hostname) <==> On(s.waiting, uuid, hostname) && u != uuid)
            && (On(t.allowed, uuid, hostname) <==>
                if u == uuid && uuid in s.waiting then On(s.waiting, uuid, hostname) else On(s.allowed, uuid, hostname))
  {
  }

  lemma RegisterFollows(settings: Settings, s: Server, e: Event, uuid: string, hostname: string)
    requires !s.down && s.waiting.Keys !! s.allowed.Keys && e.Register?
    ensures ListsFollow(settings, s, e, uuid, hostname)
  {
    var added := AddedToWaiting(settings, s, e.uuid, e.hostname);
    AddedOn(settings, s, e.uuid, e.hostname, uuid, hostname);
    AllowedOn(added, e.uuid, e.order, uuid, hostname);
    assert Step(settings, s, e) ==
           if e.uuid in s.allowed then s else if settings.autoAccept then Allowed(added, e.uuid, e.order) else added;
  }

  lemma AllowFollows(settings: Settings, s: Server, e: Event, uuid: string, hostname: string)
    requires !s.down && s.waiting.Keys !! s.allowed.Keys && e.Allow?
    ensures ListsFollow(settings, s, e, uuid, hostname)
  {
  }

  lemma RevokeFollows(settings: Settings, s: Server, e: Event, uuid: string, hostname: string)
    requires !s.down && s.waiting.Keys !! s.allowed.Keys && e.Revoke?
    ensures ListsFollow(settings, s, e, uuid, hostname)
  {
  }

  lemma RestartFollows(settings: Settings, s: Server, e: Event, uuid: string, hostname: string)
    requires Sound(settings, s) && e.Restart?
    ensures ListsFollow(settings, s, e, uuid, hostname)
  {
  }

  /** Each event puts clients on the lists and takes them off exactly as its definition here says. */
  lemma StepFollowsLists(settings: Settings, s: Server, e: Event, uuid: string, hostname: string)
    requires Sound(settings, s)
    ensures ListsFollow(settings, s, e, uuid, hostname)
  {
    match e
    case Register(_, _, _) => RegisterFollows(settings, s, e, uuid, hostname);
    case Allow(_, _) => AllowFollows(settings, s, e, uuid, hostname);
    case Revoke(_, _) => RevokeFollows(settings, s, e, uuid, hostname);
    case Restart => RestartFollows(settings, s, e, uuid, hostname);
    case _ =>
  }

  // ------------------------------------------------------------------- whole runs

  /** The file loads to well-formed clients and only well-formed clients register. */
  ghost predicate GoodRun(settings: Settings, file: Option<string>, events: seq<Event>) {
    && Load(settings.accepts, file).Loaded? && GoodClients(settings.accepts, Load(settings.accepts, file).allowed)
    && forall i :: 0 <= i < |events| && events[i].Register? ==> GoodClient(settings.accepts, events[i].uuid, events[i].hostname)
  }

  ghost function StateAt(settings: Settings, file: Option<string>, local: Forest.Wigo, events: seq<Event>, n: int): Server {
    Run(settings, Booted(settings, file, local), if 0 <= n <= |events| then events[..n] else events)
  }

  lemma SoundAt(settings: Settings, file: Option<string>, local: Forest.Wigo, events: seq<Event>, n: int)
    requires GoodRun(settings, file, events) && 0 <= n <= |events|
    ensures Sound(settings, StateAt(settings, file, local, events, n))
  {
    GoodRunsNeverLose(settings, file, local, events[..n]);
    BootedKeepsInvariant(settings, file, local);
    RunKeepsInvariant(settings, Booted(settings, file, local), events[..n]);
  }

  lemma NextState(settings: Settings, file: Option<string>, local: Forest.Wigo, events: seq<Event>, n: int)
    requires 0 <= n < |events|
    ensures StateAt(settings, file, local, events, n + 1) == Step(settings, StateAt(settings, file, local, events, n), events[n])
  {
    assert events[..n + 1][..n] == events[..n];
  }

  /** Event `j` admits, joins and so on, as functions of the event's number. */
  ghost function AdmitsAt(settings: Settings, file: Option<string>, local: Forest.Wigo, events: seq<Event>,
                          uuid: string, hostname: string): int -> bool {
    j => 0 <= j < |events| && Admits(settings, StateAt(settings, file, local, events, j), events[j], uuid, hostname)
  }

  ghost function JoinsAt(settings: Settings, file: Option<string>, local: Forest.Wigo, events: seq<Event>,
                         uuid: string, hostname: string): int -> bool {
    j => 0 <= j < |events| && Joins(settings, StateAt(settings, file, local, events, j), events[j], uuid, hostname)
  }

  ghost function RevokesAt(events: seq<Event>, uuid: string): int -> bool {
    j => 0 <= j < |events| && Revokes(events[j], uuid)
  }

  ghost function LeavesAt(settings: Settings, file: Option<string>, local: Forest.Wigo, events: seq<Event>,
                          uuid: string): int -> bool {
    j => 0 <= j < |events| && Leaves(settings, StateAt(settings, file, local, events, j), events[j], uuid)
  }

  /** A client is allowed, under a hostname, if and only if the file at the start said so or it was admitted under
      that hostname during the run, and it has not been revoked since. Restarts change nothing. */
  lemma {:induction false} AllowedIffAdmitted(settings: Settings, file: Option<string>, local: Forest.Wigo, events: seq<Event>,
                                              n: nat, uuid: string, hostname: string)
    requires GoodRun(settings, file, events) && n <= |events|
    ensures On(StateAt(settings, file, local, events, n).allowed, uuid, hostname) <==>
            Held(On(Load(settings.accepts, file).allowed, uuid, hostname),
                 AdmitsAt(settings, file, local, events, uuid, hostname), RevokesAt(events, uuid), n)
  {
    if n > 0 {
      AllowedIffAdmitted(settings, file, local, events, n - 1, uuid, hostname);
      SoundAt(settings, file, local, events, n - 1);
      NextState(settings, file, local, events, n - 1);
      StepFollowsLists(settings, StateAt(settings, file, local, events, n - 1), events[n - 1], uuid, hostname);
      HeldOneMore(On(Load(settings.accepts, file).allowed, uuid, hostname),
                  AdmitsAt(settings, file, local, events, uuid, hostname), RevokesAt(events, uuid), n - 1);
    }
  }

  /** A client waits, under a hostname, if and only if it registered with that hostname when it was on neither list
      and there was room, and has not been admitted or revoked and the server not restarted since. */
  lemma {:induction false} WaitingIffJoined(settings: Settings, file: Option<string>, local: Forest.Wigo, events: seq<Event>,
                                            n: nat, uuid: string, hostname: string)
    requires GoodRun(settings, file, events) && n <= |events|
    ensures On(StateAt(settings, file, local, events, n).waiting, uuid, hostname) <==>
            Held(false, JoinsAt(settings, file, local, events, uuid, hostname),
                 LeavesAt(settings, file, local, events, uuid), n)
  {
    if n > 0 {
      WaitingIffJoined(settings, file, local, events, n - 1, uuid, hostname);
      SoundAt(settings, file, local, events, n - 1);
      NextState(settings, file, local, events, n - 1);
      StepFollowsLists(settings, StateAt(settings, file, local, events, n - 1), events[n - 1], uuid, hostname);
      HeldOneMore(false, JoinsAt(settings, file, local, events, uuid, hostname),
                  LeavesAt(settings, file, local, events, uuid), n - 1);
    }
  }

  // ------------------------------------------------------------------- revocation

  /** The client is on no list and owns no token. */
  ghost predicate Out(s: Server, uuid: string) {
    uuid !in s.waiting && uuid !in s.allowed && uuid !in s.tokens.Values
  }

  /** A revocation takes the client off both lists, out of the file's map, and drops its tokens and its host. */
  lemma RevokedIsOut(settings: Settings, s: Server, uuid: string, order: seq<string>)
    requires !s.down
    ensures var t := Step(settings, s, Revoke(uuid, order));
            Out(t, uuid) && uuid !in t.local.remotes
  {
  }

  lemma StaysOut(settings: Settings, s: Server, e: Event, uuid: string)
    requires Sound(settings, s) && Out(s, uuid) && !(e.Register? && e.uuid == uuid)
    ensures Out(Step(settings, s, e), uuid)
  {
    forall h
      ensures !On(Step(settings, s, e).allowed, uuid, h) && !On(Step(settings, s, e).waiting, uuid, h)
    {
      StepFollowsLists(settings, s, e, uuid, h);
    }
    assert uuid in Step(settings, s, e).allowed ==> On(Step(settings, s, e).allowed, uuid, Step(settings, s, e).allowed[uuid]);
    assert uuid in Step(settings, s, e).waiting ==> On(Step(settings, s, e).waiting, uuid, Step(settings, s, e).waiting[uuid]);
    NoNewToken(settings, s, e, uuid);
  }

  lemma NoNewToken(settings: Settings, s: Server, e: Event, uuid: string)
    requires Sound(settings, s) && Out(s, uuid)
    ensures uuid !in Step(settings, s, e).tokens.Values
  {
  }

  /** From a revocation on until the client registers again, whatever else happens, restarts included, it is on no
      list and owns no token. */
  lemma {:induction false} RevokedStaysOut(settings: Settings, file: Option<string>, local: Forest.Wigo, events: seq<Event>,
                                           i: nat, n: nat, uuid: string)
    requires GoodRun(settings, file, events) && i < n <= |events| && Revokes(events[i], uuid)
    requires forall k :: i < k < n ==> !(events[k].Register? && events[k].uuid == uuid)
    ensures Out(StateAt(settings, file, local, events, n), uuid)
  {
    SoundAt(settings, file, local, events, n - 1);
    NextState(settings, file, local, events, n - 1);
    if n == i + 1 {
      RevokedIsOut(settings, StateAt(settings, file, local, events, i), uuid, events[i].order);
    } else {
      RevokedStaysOut(settings, file, local, events, i, n - 1, uuid);
      StaysOut(settings, StateAt(settings, file, local, events, n - 1), events[n - 1], uuid);
    }
  }

  /** So from then on every signature request, Hello, Update and Goodbye of it is answered NOT ALLOWED. */
  lemma RevokedIsRefused(settings: Settings, file: Option<string>, local: Forest.Wigo, events: seq<Event>,
                         i: nat, n: nat, uuid: string, request: Event)
    requires GoodRun(settings, file, events) && i < n <= |events| && Revokes(events[i], uuid)
    requires forall k :: i < k < n ==> !(events[k].Register? && events[k].uuid == uuid)
    requires RequestOf(request, uuid)
    ensures var s := StateAt(settings, file, local, events, n);
            Answer(settings, s, request) == Failed("NOT ALLOWED") && Step(settings, s, request) == s
  {
    SoundAt(settings, file, local, events, n);
    RevokedStaysOut(settings, file, local, events, i, n, uuid);
    OutIsRefused(settings, StateAt(settings, file, local, events, n), request, uuid);
  }

  predicate RequestOf(e: Event, uuid: string) {
    (e.GetUuidSignature? || e.Hello? || e.Update? || e.Goodbye?) && e.uuid == uuid
  }

  lemma OutIsRefused(settings: Settings, s: Server, e: Event, uuid: string)
    requires !s.down && Out(s, uuid) && RequestOf(e, uuid)
    ensures Answer(settings, s, e) == Failed("NOT ALLOWED") && Step(settings, s, e) == s
  {
  }
}
