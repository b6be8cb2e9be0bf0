/** What a valid token proves about the past of the push server, over whole runs. */
module TokenHistory {
  import opened Basics
  import Forest
  import opened PushProtocol

  /** The client is on the allowed list and the signature is the server's own of its uuid. */
  predicate Proven(settings: Settings, s: Server, uuid: string, signature: string) {
    !s.down && uuid in s.allowed && signature == settings.sign(uuid)
  }

  /** Event `j` of the run hands `token` to `uuid`: a Hello with a verified signature from an allowed client. */
  ghost predicate Issues(settings: Settings, start: Server, events: seq<Event>, j: nat, uuid: string, token: string)
    requires j < |events|
  {
    && events[j].Hello? && events[j].uuid == uuid && events[j].generated == Some(token)
    && Proven(settings, Run(settings, start, events[..j]), uuid, events[j].signature)
  }

  /** Event `k` of the run ends every claim of `uuid` to `token`: a revocation of the client, a newer Hello of
      its own that was answered with a token, a Goodbye with this token, or a restart. */
  ghost predicate Ends(settings: Settings, start: Server, events: seq<Event>, k: nat, uuid: string, token: string)
    requires k < |events|
  {
    match events[k]
    case Revoke(u, _) => u == uuid
    case Hello(u, signature, generated) =>
      u == uuid && generated.Some? && Proven(settings, Run(settings, start, events[..k]), u, signature)
    case Goodbye(u, t) => u == uuid && t == token
    case Restart => true
    case _ => false
  }

  ghost predicate IssuedSince(settings: Settings, start: Server, events: seq<Event>, j: nat, uuid: string, token: string)
    requires j < |events|
  {
    && Issues(settings, start, events, j, uuid, token)
    && forall k :: j < k < |events| ==> !Ends(settings, start, events, k, uuid, token)
  }

  /** Token generation never repeats a value. */
  ghost predicate FreshTokens(events: seq<Event>) {
    forall i, j :: 0 <= i < j < |events| && events[i].Hello? && events[j].Hello? && events[i].generated.Some?
      ==> events[i].generated != events[j].generated
  }

  /** How one event changes the validity of (uuid, token). */
  lemma StepToken(settings: Settings, s: Server, e: Event, uuid: string, token: string)
    ensures var issued := e.Hello? && e.uuid == uuid && e.generated == Some(token) && Proven(settings, s, uuid, e.signature);
            var ended := (e.Revoke? && e.uuid == uuid) || e.Restart? || (e.Goodbye? && e.uuid == uuid && e.token == token)
                         || (e.Hello? && e.uuid == uuid && e.generated.Some? && Proven(settings, s, uuid, e.signature));
            var overwritten := e.Hello? && e.generated == Some(token) && Proven(settings, s, e.uuid, e.signature);
            Authentic(Step(settings, s, e), uuid, token) <==>
            issued || (Authentic(s, uuid, token) && !ended && !overwritten)
  {
    match e
    case Register(u, hostname, order) => RegisterKeepsTokens(settings, s, e);
    case Restart => NoTokensAfterRestart(settings, s);
    case _ =>
  }

  lemma RegisterKeepsTokens(settings: Settings, s: Server, e: Event)
    requires e.Register?
    ensures Step(settings, s, e).tokens == s.tokens && Step(settings, s, e).down == s.down
  {
  }

  lemma NoTokensAfterRestart(settings: Settings, s: Server)
    ensures !s.down ==> Step(settings, s, Restart).tokens == map[]
  {
  }

  lemma SamePast(settings: Settings, start: Server, events: seq<Event>, k: nat, uuid: string, token: string)
    requires k < |events| - 1
    ensures var before := events[..|events| - 1];
            && Issues(settings, start, before, k, uuid, token) == Issues(settings, start, events, k, uuid, token)
            && Ends(settings, start, before, k, uuid, token) == Ends(settings, start, events, k, uuid, token)
  {
    var before := events[..|events| - 1];
    assert before[k] == events[k] && before[..k] == events[..k];
  }

  /** A claim survives one more event unless that event ends it. */
  lemma SurvivesLast(settings: Settings, start: Server, events: seq<Event>, j: nat, uuid: string, token: string)
    requires j < |events| - 1
    ensures IssuedSince(settings, start, events, j, uuid, token) <==>
            && IssuedSince(settings, start, events[..|events| - 1], j, uuid, token)
            && !Ends(settings, start, events, |events| - 1, uuid, token)
  {
    var before := events[..|events| - 1];
    SamePast(settings, start, events, j, uuid, token);
    forall k: nat | j < k < |events| - 1
      ensures Ends(settings, start, before, k, uuid, token) == Ends(settings, start, events, k, uuid, token)
    {
      SamePast(settings, start, events, k, uuid, token);
    }
  }

  ghost predicate Claimed(settings: Settings, start: Server, events: seq<Event>, uuid: string, token: string) {
    exists j :: 0 <= j < |events| && IssuedSince(settings, start, events, j, uuid, token)
  }

  lemma ClaimedSplit(settings: Settings, start: Server, events: seq<Event>, uuid: string, token: string)
    requires events != []
    ensures Claimed(settings, start, events, uuid, token) <==>
            || Issues(settings, start, events, |events| - 1, uuid, token)
            || (Claimed(settings, start, events[..|events| - 1], uuid, token)
                && !Ends(settings, start, events, |events| - 1, uuid, token))
  {
    var last := |events| - 1;
    var before := events[..last];
    forall j: nat | j < last
      ensures IssuedSince(settings, start, events, j, uuid, token) <==>
              IssuedSince(settings, start, before, j, uuid, token) && !Ends(settings, start, events, last, uuid, token)
    {
      SurvivesLast(settings, start, events, j, uuid, token);
    }
    if Issues(settings, start, events, last, uuid, token) {
      assert IssuedSince(settings, start, events, last, uuid, token);
    }
  }

  /** How the last event changes the validity of (uuid, token), in terms of the run. */
  lemma LastToken(settings: Settings, start: Server, events: seq<Event>, uuid: string, token: string)
    requires events != []
    ensures var last := |events| - 1;
            Authentic(Run(settings, start, events), uuid, token) <==>
            || Issues(settings, start, events, last, uuid, token)
            || (Authentic(Run(settings, start, events[..last]), uuid, token)
                && !Ends(settings, start, events, last, uuid, token) && !Overwrites(settings, start, events, token))
  {
    StepToken(settings, Run(settings, start, events[..|events| - 1]), events[|events| - 1], uuid, token);
  }

  /** The last event hands `token` to somebody. */
  ghost predicate Overwrites(settings: Settings, start: Server, events: seq<Event>, token: string)
    requires events != []
  {
    var e := events[|events| - 1];
    e.Hello? && e.generated == Some(token) && Proven(settings, Run(settings, start, events[..|events| - 1]), e.uuid, e.signature)
  }

  lemma FreshNeverOverwrites(settings: Settings, start: Server, events: seq<Event>, uuid: string, token: string)
    requires events != [] && FreshTokens(events) && Claimed(settings, start, events[..|events| - 1], uuid, token)
    ensures !Overwrites(settings, start, events, token)
  {
    var before := events[..|events| - 1];
    var j :| 0 <= j < |before| && IssuedSince(settings, start, before, j, uuid, token);
    assert before[j] == events[j];
  }

  /** A token authenticates a client at the end of a run exactly when some earlier Hello of that client was
      answered with it and nothing since has ended that claim. */
  lemma {:induction false} AuthenticIffIssued(settings: Settings, start: Server, events: seq<Event>, uuid: string, token: string)
    requires start.tokens == map[] && FreshTokens(events)
    ensures Authentic(Run(settings, start, events), uuid, token) <==> Claimed(settings, start, events, uuid, token)
  {
    if events != [] {
      var before := events[..|events| - 1];
      AuthenticIffIssued(settings, start, before, uuid, token);
      ClaimedSplit(settings, start, events, uuid, token);
      LastToken(settings, start, events, uuid, token);
      if Claimed(settings, start, before, uuid, token) {
        FreshNeverOverwrites(settings, start, events, uuid, token);
      }
    }
  }

  /** An update that is not refused as NOT ALLOWED comes from a client that is allowed at that moment, and its
      token was handed out by an earlier Hello of that client with a verified signature, and is still in force. */
  lemma AcceptedUpdate(settings: Settings, file: Option<string>, local: Forest.Wigo, events: seq<Event>,
                       uuid: string, token: string, payload: Payload, now: int)
    requires FreshTokens(events)
    ensures var start := Booted(settings, file, local);
            var s := Run(settings, start, events);
            var reply := Answer(settings, s, Update(uuid, token, payload, now));
            && (reply !in {Failed("NOT ALLOWED"), Silence} <==> Claimed(settings, start, events, uuid, token))
            && (reply !in {Failed("NOT ALLOWED"), Silence} ==> uuid in s.allowed)
  {
    AuthenticIffIssued(settings, Booted(settings, file, local), events, uuid, token);
    BootedKeepsInvariant(settings, file, local);
    RunKeepsInvariant(settings, Booted(settings, file, local), events);
  }

  /** A client that was handed the empty token, because none could be generated, cannot use it. */
  lemma EmptyTokenIsRefused(settings: Settings, start: Server, events: seq<Event>, uuid: string)
    requires start.tokens == map[] && FreshTokens(events)
    requires forall i :: 0 <= i < |events| && events[i].Hello? ==> events[i].generated != Some("")
    ensures !Authentic(Run(settings, start, events), uuid, "")
  {
    AuthenticIffIssued(settings, start, events, uuid, "");
  }

  /** Behind every valid token stands a Hello of its owner that carried the server's signature of the owner's uuid
      while the owner was on the allowed list. */
  lemma TokenWasEarned(settings: Settings, start: Server, events: seq<Event>, uuid: string, token: string) returns (j: nat)
    requires start.tokens == map[] && FreshTokens(events) && Authentic(Run(settings, start, events), uuid, token)
    ensures j < |events| && events[j].Hello? && events[j].uuid == uuid && events[j].generated == Some(token)
    ensures events[j].signature == settings.sign(uuid)
    ensures uuid in Run(settings, start, events[..j]).allowed
  {
    AuthenticIffIssued(settings, start, events, uuid, token);
    j :| 0 <= j < |events| && IssuedSince(settings, start, events, j, uuid, token);
  }

  /** A Hello with a forged signature, or of a client that is not allowed, changes nothing and gets no token. */
  lemma ForgedHelloIsRefused(settings: Settings, s: Server, uuid: string, signature: string, generated: Option<string>)
    requires !s.down && (uuid !in s.allowed || signature != settings.sign(uuid))
    ensures Step(settings, s, Hello(uuid, signature, generated)) == s
    ensures Answer(settings, s, Hello(uuid, signature, generated)) ==
            Failed(if uuid !in s.allowed && uuid in s.waiting then "WAITING" else "NOT ALLOWED")
  {
  }

  /** A signature is given to allowed clients only, and it is the one Hello asks for. */
  lemma SignatureIsForAllowed(settings: Settings, s: Server, uuid: string)
    requires !s.down
    ensures var reply := Answer(settings, s, GetUuidSignature(uuid));
            reply == if uuid in s.allowed then Signature(settings.sign(uuid))
                     else Failed(if uuid in s.waiting then "WAITING" else "NOT ALLOWED")
    ensures Step(settings, s, GetUuidSignature(uuid)) == s
  {
  }
}
