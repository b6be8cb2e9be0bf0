/** The push server as a state machine: the maps of src/wigo/authority.go, the allowed-clients file and the
    local forest, driven by the RPCs of src/wigo/push_server.go, the administrator and restarts. Each event is
    one atomic step; what the environment decides (generated tokens, printing order, time) is in the event. */
module PushProtocol {
  import opened Basics
  import opened Forest
  import opened AllowedList

  /** `sign` is the deterministic RSASSA-PKCS1-v1_5 signature (section 8.2 of RFC 8017) under the server key;
      `accepts` is the uuid library's verdict on the uuid of a line of the allowed-clients file. */
  datatype Settings = Settings(maxWaiting: int, autoAccept: bool, sign: string -> string, accepts: string -> bool)

  datatype Server = Server(waiting: map<string, string>, allowed: map<string, string>, tokens: map<string, string>,
                           file: Option<string>, local: Wigo, down: bool)

  datatype Payload = Legacy | Undecodable | Decoded(wigo: Wigo)

  datatype Event =
    | Register(uuid: string, hostname: string, order: seq<string>)
    | GetUuidSignature(uuid: string)
    | Hello(uuid: string, signature: string, generated: Option<string>)
    | Update(uuid: string, token: string, payload: Payload, now: int)
    | Goodbye(uuid: string, token: string)
    | Allow(uuid: string, order: seq<string>)
    | Revoke(uuid: string, order: seq<string>)
    | Restart

  datatype Reply = Done | Token(token: string) | Signature(signature: string) | Failed(message: string) | Silence

  // ------------------------------------------------------------------ the file

  ghost function SomeOrder(keys: set<string>): (order: seq<string>)
    ensures IsOrder(order, keys)
  {
    if keys == {} then []
    else
      var k :| k in keys;
      [k] + SomeOrder(keys - {k})
  }

  /** The file written for `allowed`, walking the map in the given order, or in some order if that is none. */
  ghost function Saved(allowed: map<string, string>, order: seq<string>): Option<string> {
    Some(Print(allowed, if IsOrder(order, allowed.Keys) then order else SomeOrder(allowed.Keys)))
  }

  // ----------------------------------------------------------------- authority

  ghost function AddedToWaiting(settings: Settings, s: Server, uuid: string, hostname: string): Server {
    if uuid !in s.waiting && |s.waiting| < settings.maxWaiting then s.(waiting := s.waiting[uuid := hostname]) else s
  }

  ghost function Allowed(s: Server, uuid: string, order: seq<string>): Server {
    if uuid in s.waiting then
      var allowed := s.allowed[uuid := s.waiting[uuid]];
      s.(waiting := s.waiting - {uuid}, allowed := allowed, file := Saved(allowed, order))
    else s
  }

  ghost function Revoked(s: Server, uuid: string, order: seq<string>): Server {
    s.(waiting := s.waiting - {uuid},
       allowed := s.allowed - {uuid},
       file := if uuid in s.allowed then Saved(s.allowed - {uuid}, order) else s.file,
       tokens := WithoutOwner(s.tokens, uuid),
       local := s.local.(remotes := s.local.remotes - {uuid}))
  }

  function WithoutOwner(tokens: map<string, string>, uuid: string): map<string, string> {
    map t | t in tokens && tokens[t] != uuid :: tokens[t]
  }

  /** A token for `uuid` replaces its previous ones; when none can be generated the caller is handed
      the empty string, without an error. */
  function Tokened(tokens: map<string, string>, uuid: string, generated: Option<string>): map<string, string> {
    if generated.Some? then WithoutOwner(tokens, uuid)[generated.value := uuid] else tokens
  }

  predicate Authentic(s: Server, uuid: string, token: string) {
    !s.down && token in s.tokens && s.tokens[token] == uuid
  }

  predicate Welcome(settings: Settings, s: Server, uuid: string, signature: string) {
    !s.down && uuid in s.allowed && signature == settings.sign(uuid)
  }

  ghost function Booted(settings: Settings, file: Option<string>, local: Wigo): Server {
    var reset := local.(isAlive := true, globalStatus := 100, globalMessage := "OK", lastUpdate := 0,
                        host := local.host.(status := 100, probes := map[]), remotes := map[]);
    match Load(settings.accepts, file)
    case Loaded(allowed) => Server(map[], allowed, map[], file, reset, false)
    case Fatal => Server(map[], map[], map[], file, reset, true)
  }

  // ---------------------------------------------------------------------- steps

  ghost function Step(settings: Settings, s: Server, e: Event): Server {
    if s.down then s
    else
      match e
      case Register(uuid, hostname, order) =>
        if uuid in s.allowed then s
        else
          var added := AddedToWaiting(settings, s, uuid, hostname);
          if settings.autoAccept then Allowed(added, uuid, order) else added
      case GetUuidSignature(_) => s
      case Hello(uuid, signature, generated) =>
        if Welcome(settings, s, uuid, signature) then s.(tokens := Tokened(s.tokens, uuid, generated)) else s
      case Update(uuid, token, payload, now) =>
        if Authentic(s, uuid, token) && payload.Decoded?
        then s.(local := AddOrUpdate(s.local, Erase(payload.wigo, 1), now)) else s
      case Goodbye(uuid, token) =>
        if Authentic(s, uuid, token) then s.(tokens := s.tokens - {token}) else s
      case Allow(uuid, order) => Allowed(s, uuid, order)
      case Revoke(uuid, order) => Revoked(s, uuid, order)
      case Restart => Booted(settings, s.file, s.local)
  }

  function NotYet(s: Server, uuid: string): Reply {
    Failed(if uuid in s.waiting then "WAITING" else "NOT ALLOWED")
  }

  function Answer(settings: Settings, s: Server, e: Event): Reply {
    if s.down then Silence
    else
      match e
      case GetUuidSignature(uuid) =>
        if uuid in s.allowed then Signature(settings.sign(uuid)) else NotYet(s, uuid)
      case Hello(uuid, signature, generated) =>
        if uuid !in s.allowed then NotYet(s, uuid)
        else if !Welcome(settings, s, uuid, signature) then Failed("NOT ALLOWED")
        else Token(if generated.Some? then generated.value else "")
      case Update(uuid, token, payload, _) =>
        if !Authentic(s, uuid, token) then Failed("NOT ALLOWED")
        else if payload.Legacy? then Failed("TOO OLD WIGO CLIENT") else Done
      case Goodbye(uuid, token) =>
        if Authentic(s, uuid, token) then Done else Failed("NOT ALLOWED")
      case Allow(uuid, _) =>
        if uuid in s.waiting then Done else Failed("Authority : Invalid uuid " + uuid)
      case _ => Done
  }

  ghost function Run(settings: Settings, s: Server, events: seq<Event>): Server {
    if events == [] then s
    else Step(settings, Run(settings, s, events[..|events| - 1]), events[|events| - 1])
  }

  // ----------------------------------------------------------------- invariant

  ghost predicate Invariant(settings: Settings, s: Server) {
    && s.waiting.Keys !! s.allowed.Keys
    && |s.waiting| <= (if settings.maxWaiting > 0 then settings.maxWaiting else 0)
    && (forall t, u :: t in s.tokens && u in s.tokens && s.tokens[t] == s.tokens[u] ==> t == u)
    && (forall t :: t in s.tokens ==> s.tokens[t] in s.allowed)
  }

  lemma AllowedKeepsInvariant(settings: Settings, s: Server, uuid: string, order: seq<string>)
    requires Invariant(settings, s)
    ensures Invariant(settings, Allowed(s, uuid, order))
  {
    var after := Allowed(s, uuid, order);
    if uuid in s.waiting {
      assert after.waiting.Keys == s.waiting.Keys - {uuid};
    }
  }

  lemma RevokedKeepsInvariant(settings: Settings, s: Server, uuid: string, order: seq<string>)
    requires Invariant(settings, s)
    ensures Invariant(settings, Revoked(s, uuid, order))
  {
    var after := Revoked(s, uuid, order);
    assert after.waiting.Keys == s.waiting.Keys - {uuid};
    assert |after.waiting| <= |s.waiting| by { assert |s.waiting.Keys - {uuid}| <= |s.waiting.Keys|; }
  }

  lemma AddedKeepsInvariant(settings: Settings, s: Server, uuid: string, hostname: string)
    requires Invariant(settings, s) && uuid !in s.allowed
    ensures Invariant(settings, AddedToWaiting(settings, s, uuid, hostname))
  {
  }

  lemma TokenedKeepsInvariant(settings: Settings, s: Server, uuid: string, generated: Option<string>)
    requires Invariant(settings, s) && uuid in s.allowed
    ensures Invariant(settings, s.(tokens := Tokened(s.tokens, uuid, generated)))
  {
  }

  lemma GoodbyeKeepsInvariant(settings: Settings, s: Server, token: string)
    requires Invariant(settings, s)
    ensures Invariant(settings, s.(tokens := s.tokens - {token}))
  {
  }

  /** However the file reads, the server starts within the invariant. */
  lemma BootedKeepsInvariant(settings: Settings, file: Option<string>, local: Wigo)
    ensures Invariant(settings, Booted(settings, file, local))
  {
  }

  lemma StepKeepsInvariant(settings: Settings, s: Server, e: Event)
    requires Invariant(settings, s)
    ensures Invariant(settings, Step(settings, s, e))
  {
    match e
    case Register(uuid, hostname, order) =>
      if uuid !in s.allowed {
        AddedKeepsInvariant(settings, s, uuid, hostname);
        AllowedKeepsInvariant(settings, AddedToWaiting(settings, s, uuid, hostname), uuid, order);
      }
    case Allow(uuid, order) => AllowedKeepsInvariant(settings, s, uuid, order);
    case Revoke(uuid, order) => RevokedKeepsInvariant(settings, s, uuid, order);
    case Hello(uuid, signature, generated) =>
      if Welcome(settings, s, uuid, signature) {
        TokenedKeepsInvariant(settings, s, uuid, generated);
      }
    case Goodbye(uuid, token) => GoodbyeKeepsInvariant(settings, s, token);
    case Restart => BootedKeepsInvariant(settings, s.file, s.local);
    case _ =>
  }

  /** In every reachable state: nobody is both waiting and allowed, the waiting list respects its limit, no
      client owns two tokens, and only allowed clients own one. */
  lemma {:induction false} RunKeepsInvariant(settings: Settings, start: Server, events: seq<Event>)
    requires Invariant(settings, start)
    ensures Invariant(settings, Run(settings, start, events))
  {
    if events != [] {
      RunKeepsInvariant(settings, start, events[..|events| - 1]);
      StepKeepsInvariant(settings, Run(settings, start, events[..|events| - 1]), events[|events| - 1]);
    }
  }

  /** Clients that build their requests from their own Wigo object. */
  predicate Honest(e: Event) {
    e.Update? && e.payload.Decoded? ==> e.payload.wigo.uuid == e.uuid
  }

  lemma UpdateAddsOne(local: Wigo, sent: Wigo, now: int)
    ensures AddOrUpdate(local, sent, now).remotes.Keys <= local.remotes.Keys + {sent.uuid}
  {
  }

  ghost predicate RemotesAllowed(s: Server) {
    forall u :: u in s.local.remotes ==> u in s.allowed
  }

  lemma UpdateKeepsRemotesAllowed(s: Server, sent: Wigo, now: int)
    requires RemotesAllowed(s) && sent.uuid in s.allowed
    ensures RemotesAllowed(s.(local := AddOrUpdate(s.local, sent, now)))
  {
    UpdateAddsOne(s.local, sent, now);
    assert forall u :: u in AddOrUpdate(s.local, sent, now).remotes ==> u in AddOrUpdate(s.local, sent, now).remotes.Keys;
  }

  lemma RevokedKeepsRemotesAllowed(s: Server, uuid: string, order: seq<string>)
    requires RemotesAllowed(s)
    ensures RemotesAllowed(Revoked(s, uuid, order))
  {
  }

  lemma StepKeepsRemotesAllowed(settings: Settings, s: Server, e: Event)
    requires Invariant(settings, s) && Honest(e) && RemotesAllowed(s)
    ensures RemotesAllowed(Step(settings, s, e))
  {
    match e
    case Update(uuid, token, payload, now) =>
      if Authentic(s, uuid, token) && payload.Decoded? {
        UpdateKeepsRemotesAllowed(s, Erase(payload.wigo, 1), now);
      }
    case Revoke(uuid, order) => RevokedKeepsRemotesAllowed(s, uuid, order);
    case _ =>
  }

  /** With honest clients only, every host the server keeps is an allowed client. */
  lemma {:induction false} RemotesAreAllowed(settings: Settings, file: Option<string>, local: Wigo, events: seq<Event>)
    requires forall i :: 0 <= i < |events| ==> Honest(events[i])
    ensures RemotesAllowed(Run(settings, Booted(settings, file, local), events))
  {
    if events != [] {
      var last := |events| - 1;
      RemotesAreAllowed(settings, file, local, events[..last]);
      BootedKeepsInvariant(settings, file, local);
      RunKeepsInvariant(settings, Booted(settings, file, local), events[..last]);
      StepKeepsRemotesAllowed(settings, Run(settings, Booted(settings, file, local), events[..last]), events[last]);
    }
  }

  // ----------------------------------------------------------- file and restart

  /** The file is either the text the allowed map came from or a printing of it. */
  ghost predicate FileFollows(settings: Settings, s: Server) {
    || s.down
    || Load(settings.accepts, s.file) == Loaded(s.allowed)
    || exists order :: IsOrder(order, s.allowed.Keys) && s.file == Some(Print(s.allowed, order))
  }

  lemma SavedFollows(allowed: map<string, string>, order: seq<string>) returns (o: seq<string>)
    ensures IsOrder(o, allowed.Keys) && Saved(allowed, order) == Some(Print(allowed, o))
  {
    o := if IsOrder(order, allowed.Keys) then order else SomeOrder(allowed.Keys);
  }

  lemma AllowedFollows(settings: Settings, s: Server, uuid: string, order: seq<string>)
    requires FileFollows(settings, s)
    ensures FileFollows(settings, Allowed(s, uuid, order))
  {
    if uuid in s.waiting {
      var o := SavedFollows(s.allowed[uuid := s.waiting[uuid]], order);
    }
  }

  lemma StepFollows(settings: Settings, s: Server, e: Event)
    requires FileFollows(settings, s)
    ensures FileFollows(settings, Step(settings, s, e))
  {
    match e
    case Register(uuid, hostname, order) =>
      AllowedFollows(settings, AddedToWaiting(settings, s, uuid, hostname), uuid, order);
    case Allow(uuid, order) => AllowedFollows(settings, s, uuid, order);
    case Revoke(uuid, order) =>
      if uuid in s.allowed {
        var o := SavedFollows(s.allowed - {uuid}, order);
      } else {
        assert s.allowed - {uuid} == s.allowed;
      }
    case _ =>
  }

  lemma {:induction false} RunFollows(settings: Settings, file: Option<string>, local: Wigo, events: seq<Event>)
    ensures FileFollows(settings, Run(settings, Booted(settings, file, local), events))
  {
    if events != [] {
      RunFollows(settings, file, local, events[..|events| - 1]);
      StepFollows(settings, Run(settings, Booted(settings, file, local), events[..|events| - 1]), events[|events| - 1]);
    }
  }

  /** In every reachable state whose allowed clients are well-formed, the file reads back as the allowed map,
      and a restart keeps that map exactly while forgetting who waits and every token. */
  lemma RestartKeepsAllowed(settings: Settings, file: Option<string>, local: Wigo, events: seq<Event>)
    ensures var s := Run(settings, Booted(settings, file, local), events);
            !s.down && GoodClients(settings.accepts, s.allowed) ==>
              && Load(settings.accepts, s.file) == Loaded(s.allowed)
              && var next := Run(settings, Booted(settings, file, local), events + [Restart]);
                 && next.allowed == s.allowed && next.waiting == map[] && next.tokens == map[]
                 && next.local.remotes == map[] && next.file == s.file && !next.down
  {
    var s := Run(settings, Booted(settings, file, local), events);
    RunFollows(settings, file, local, events);
    assert (events + [Restart])[..|events|] == events;
    if order :| IsOrder(order, s.allowed.Keys) && s.file == Some(Print(s.allowed, order)) {
      LoadSavedIff(settings.accepts, s.allowed, order);
    }
  }

  ghost predicate WellFormed(settings: Settings, s: Server) {
    !s.down && GoodClients(settings.accepts, s.allowed) && GoodClients(settings.accepts, s.waiting)
  }

  lemma AllowedKeepsWellFormed(settings: Settings, s: Server, uuid: string, order: seq<string>)
    requires WellFormed(settings, s)
    ensures WellFormed(settings, Allowed(s, uuid, order))
  {
  }

  lemma RevokedKeepsWellFormed(settings: Settings, s: Server, uuid: string, order: seq<string>)
    requires WellFormed(settings, s)
    ensures WellFormed(settings, Revoked(s, uuid, order))
  {
  }

  lemma AddedKeepsWellFormed(settings: Settings, s: Server, uuid: string, hostname: string)
    requires WellFormed(settings, s) && GoodClient(settings.accepts, uuid, hostname)
    ensures WellFormed(settings, AddedToWaiting(settings, s, uuid, hostname))
  {
  }

  lemma StepKeepsWellFormed(settings: Settings, s: Server, e: Event)
    requires WellFormed(settings, s)
    requires e.Register? ==> GoodClient(settings.accepts, e.uuid, e.hostname)
    requires Load(settings.accepts, s.file) == Loaded(s.allowed)
    ensures WellFormed(settings, Step(settings, s, e))
  {
    match e
    case Register(uuid, hostname, order) =>
      var added := AddedToWaiting(settings, s, uuid, hostname);
      AddedKeepsWellFormed(settings, s, uuid, hostname);
      AllowedKeepsWellFormed(settings, added, uuid, order);
    case Allow(uuid, order) => AllowedKeepsWellFormed(settings, s, uuid, order);
    case Revoke(uuid, order) => RevokedKeepsWellFormed(settings, s, uuid, order);
    case _ =>
  }

  /** Clients that register well-formed keep the allowed list well-formed, so no restart ever loses one. */
  lemma {:induction false} GoodRunsNeverLose(settings: Settings, file: Option<string>, local: Wigo, events: seq<Event>)
    requires Load(settings.accepts, file).Loaded? && GoodClients(settings.accepts, Load(settings.accepts, file).allowed)
    requires forall i :: 0 <= i < |events| && events[i].Register? ==>
               GoodClient(settings.accepts, events[i].uuid, events[i].hostname)
    ensures var s := Run(settings, Booted(settings, file, local), events);
            && WellFormed(settings, s)
            && Load(settings.accepts, s.file) == Loaded(s.allowed)
  {
    if events != [] {
      var last := |events| - 1;
      GoodRunsNeverLose(settings, file, local, events[..last]);
      StepKeepsWellFormed(settings, Run(settings, Booted(settings, file, local), events[..last]), events[last]);
    }
    RestartKeepsAllowed(settings, file, local, events);
  }
}
