/** The push client (src/wigo/push_client.go) and its reconnect loop (threadPush in src/wigo.go), composed
    with the push server. One client move is one RPC and what the client does with its outcome; the retry
    loops that poll while the server answers WAITING are repeated moves. */
module PushClient {
  import opened Basics
  import opened PushProtocol

  /** What the client keeps on disk: the server certificate and its own signed uuid. */
  datatype Disk = Disk(cert: bool, signature: Option<string>)

  datatype Phase =
    | Disconnected
    | Signing                     // registered, asking for the signature of its uuid
    | Greeting(signature: string) // registered, saying Hello
    | Pushing(token: string)

  datatype Client = Client(uuid: string, hostname: string, ssl: bool, disk: Disk, phase: Phase)

  /** What the network makes of one call: the caller gets the reply, the call is lost on the way, or it is
      served and the reply is lost (a timeout on the client's side). */
  datatype Delivery = Delivered | CallLost | ReplyLost

  datatype Outcome = Moved | Reconnect | Waiting | Pushed | Error

  datatype World = World(server: Server, client: Client)

  datatype Move =
    | ByClient(delivery: Delivery, order: seq<string>, generated: Option<string>, payload: Payload, now: int)
    | ByOthers(e: Event)

  /** The call the client makes next, if it concerns the server's state. */
  ghost function Call(c: Client, m: Move): Option<Event>
    requires m.ByClient?
  {
    match c.phase
    case Disconnected => if c.ssl && !c.disk.cert then None else Some(Event.Register(c.uuid, c.hostname, m.order))
    case Signing => Some(Event.GetUuidSignature(c.uuid))
    case Greeting(signature) => Some(Event.Hello(c.uuid, signature, m.generated))
    case Pushing(token) => Some(Event.Update(c.uuid, token, m.payload, m.now))
  }

  ghost predicate OpensConnection(c: Client, m: Move) {
    m.ByClient? && c.phase.Disconnected?
  }

  /** The client after its call, by the reply it gets; without a reply it closes the connection. */
  function AfterReply(c: Client, reply: Reply): (Client, Outcome) {
    match c.phase
    case Disconnected =>
      if c.ssl && !c.disk.cert then (c.(disk := c.disk.(cert := true)), Reconnect)
      else if reply.Silence? then (c, Error)
      else (c.(phase := if c.disk.signature.Some? then Greeting(c.disk.signature.value) else Signing), Moved)
    case Signing =>
      if reply.Signature? then (c.(disk := c.disk.(signature := Some(reply.signature)), phase := Disconnected), Reconnect)
      else if reply == Failed("WAITING") then (c, Waiting)
      else (c.(phase := Disconnected), Error)
    case Greeting(_) =>
      if reply.Token? then (c.(phase := Pushing(reply.token)), Moved)
      else if reply == Failed("WAITING") then (c, Waiting)
      else (c.(phase := Disconnected), Error)
    case Pushing(_) =>
      if reply.Done? then (c, Pushed) else (c.(phase := Disconnected), Error)
  }

  ghost function ReplyTo(settings: Settings, w: World, m: Move): Reply
    requires m.ByClient?
  {
    if w.server.down || m.delivery != Delivered then Silence
    else if Call(w.client, m).None? then Done
    else Answer(settings, w.server, Call(w.client, m).value)
  }

  ghost function MoveOutcome(settings: Settings, w: World, m: Move): Outcome
    requires m.ByClient?
  {
    if ReplyTo(settings, w, m).Silence? then Error else AfterReply(w.client, ReplyTo(settings, w, m)).1
  }

  ghost function Next(settings: Settings, w: World, m: Move): World {
    match m
    case ByOthers(e) => w.(server := Step(settings, w.server, e))
    case ByClient(delivery, _, _, _, _) =>
      var call := Call(w.client, m);
      var server := if delivery == CallLost || call.None? then w.server else Step(settings, w.server, call.value);
      var reply := ReplyTo(settings, w, m);
      World(server, if reply.Silence? then w.client.(phase := Disconnected) else AfterReply(w.client, reply).0)
  }

  ghost function Reach(settings: Settings, w: World, moves: seq<Move>): World {
    if moves == [] then w
    else Next(settings, Reach(settings, w, moves[..|moves| - 1]), moves[|moves| - 1])
  }

  /** How many client moves of the run have a given outcome. */
  ghost function Count(settings: Settings, w: World, moves: seq<Move>, outcome: Outcome): nat {
    if moves == [] then 0
    else
      var before, m := moves[..|moves| - 1], moves[|moves| - 1];
      Count(settings, w, before, outcome)
      + if m.ByClient? && MoveOutcome(settings, Reach(settings, w, before), m) == outcome then 1 else 0
  }

  ghost function Connections(settings: Settings, w: World, moves: seq<Move>): nat {
    if moves == [] then 0
    else
      var before, m := moves[..|moves| - 1], moves[|moves| - 1];
      Connections(settings, w, before) + if OpensConnection(Reach(settings, w, before).client, m) then 1 else 0
  }

  // ------------------------------------------------------------ RECONNECT bound

  function Missing(c: Client): nat {
    (if c.ssl && !c.disk.cert then 1 else 0) + (if c.disk.signature.None? then 1 else 0)
  }

  /** The client asks for a signature only when it has none. */
  predicate Sane(c: Client) {
    c.phase.Signing? ==> c.disk.signature.None?
  }

  /** Whatever the network, the server and everybody else do, each RECONNECT stores one of the two missing
      files, so no run has more RECONNECTs than files were missing, and never more than two. */
  lemma {:induction false} ReconnectsAreFiles(settings: Settings, w: World, moves: seq<Move>)
    requires Sane(w.client)
    ensures Sane(Reach(settings, w, moves).client)
    ensures Count(settings, w, moves, Reconnect) + Missing(Reach(settings, w, moves).client) == Missing(w.client)
    ensures Count(settings, w, moves, Reconnect) <= 2
  {
    if moves != [] {
      ReconnectsAreFiles(settings, w, moves[..|moves| - 1]);
      ReconnectStores(settings, Reach(settings, w, moves[..|moves| - 1]), moves[|moves| - 1]);
    }
  }

  lemma ReconnectStores(settings: Settings, w: World, m: Move)
    requires Sane(w.client)
    ensures var c := Next(settings, w, m).client;
            && Sane(c)
            && Missing(w.client) == Missing(c) + if m.ByClient? && MoveOutcome(settings, w, m) == Reconnect then 1 else 0
  {
  }

  // ------------------------------------------------------------------- progress

  predicate Known(s: Server, uuid: string) {
    uuid in s.allowed || uuid in s.waiting
  }

  /** Calls are delivered, tokens are generated and fresh, there is room when the client registers, and nobody
      else revokes the client, speaks in its name with its token or signature, or restarts the server. */
  ghost predicate Friendly(settings: Settings, w: World, m: Move) {
    match m
    case ByClient(delivery, _, generated, payload, _) =>
      && delivery == Delivered && payload.Decoded?
      && generated.Some? && generated.value !in w.server.tokens
      && (w.client.phase.Disconnected? ==> Known(w.server, w.client.uuid) || |w.server.waiting| < settings.maxWaiting)
    case ByOthers(e) =>
      match e
      case Revoke(u, _) => u != w.client.uuid
      case Goodbye(u, _) => u != w.client.uuid
      case Hello(u, _, generated) => u != w.client.uuid && (generated.Some? ==> generated.value !in w.server.tokens)
      case Restart => false
      case _ => true
  }

  ghost predicate FriendlyRun(settings: Settings, w: World, moves: seq<Move>) {
    forall i :: 0 <= i < |moves| ==> Friendly(settings, Reach(settings, w, moves[..i]), moves[i])
  }

  /** What a friendly run keeps. */
  ghost predicate OnTrack(settings: Settings, w: World) {
    var s, c := w.server, w.client;
    && !s.down && Sane(c)
    && (c.disk.signature.Some? ==> c.disk.signature.value == settings.sign(c.uuid))
    && (!c.phase.Disconnected? ==> Known(s, c.uuid) && (c.ssl ==> c.disk.cert))
    && (c.phase.Greeting? ==> c.disk.signature == Some(c.phase.signature))
    && (c.phase.Pushing? ==> c.uuid in s.allowed && Authentic(s, c.uuid, c.phase.token))
  }

  /** Moves the client still has to make before it pushes, and connections it still has to open. */
  function Ahead(c: Client): nat {
    match c.phase
    case Pushing(_) => 0
    case Greeting(_) => 1
    case Signing => 3
    case Disconnected => (if c.disk.signature.Some? then 2 else 4) + if c.ssl && !c.disk.cert then 1 else 0
  }

  function ConnectionsAhead(c: Client): nat {
    match c.phase
    case Pushing(_) => 0
    case Greeting(_) => 0
    case Signing => 1
    case Disconnected => (if c.disk.signature.Some? then 1 else 2) + if c.ssl && !c.disk.cert then 1 else 0
  }

  lemma OthersKeepOnTrack(settings: Settings, w: World, e: Event)
    requires OnTrack(settings, w) && Friendly(settings, w, ByOthers(e))
    ensures OnTrack(settings, Next(settings, w, ByOthers(e)))
  {
  }

  /** One move of the client: it waits, and only while it is not allowed, or it comes one move closer to
      pushing, or its update is accepted. It never fails. */
  lemma ClientMove(settings: Settings, w: World, m: Move)
    requires m.ByClient? && OnTrack(settings, w) && Friendly(settings, w, m)
    ensures OnTrack(settings, Next(settings, w, m))
    ensures var c, after, outcome := w.client, Next(settings, w, m).client, MoveOutcome(settings, w, m);
            && outcome != Error
            && (outcome == Waiting ==> c.uuid !in w.server.allowed && after == c)
            && (outcome == Pushed <==> c.phase.Pushing?)
            && (outcome == Pushed ==> after == c)
            && (outcome in {Moved, Reconnect} ==> Ahead(after) + 1 == Ahead(c))
            && ConnectionsAhead(c) == ConnectionsAhead(after) + if OpensConnection(c, m) then 1 else 0
  {
  }

  /** Over a friendly run every client move is accounted for: it polled while not yet allowed, or was one of at
      most five moves ahead, or was an accepted update; and the connections opened are at most the three ahead. */
  lemma {:induction false} ThreeConnections(settings: Settings, w: World, moves: seq<Move>)
    requires OnTrack(settings, w) && FriendlyRun(settings, w, moves)
    ensures OnTrack(settings, Reach(settings, w, moves))
    ensures var end := Reach(settings, w, moves).client;
            && ClientMoves(moves) == Count(settings, w, moves, Waiting) + Count(settings, w, moves, Pushed)
                                     + (Ahead(w.client) - Ahead(end))
            && Count(settings, w, moves, Error) == 0
            && Connections(settings, w, moves) == ConnectionsAhead(w.client) - ConnectionsAhead(end)
            && Connections(settings, w, moves) <= 3
  {
    if moves != [] {
      var before, m := moves[..|moves| - 1], moves[|moves| - 1];
      FriendlyPrefix(settings, w, moves);
      ThreeConnections(settings, w, before);
      if m.ByClient? {
        ClientMove(settings, Reach(settings, w, before), m);
      } else {
        OthersKeepOnTrack(settings, Reach(settings, w, before), m.e);
      }
    }
  }

  function ClientMoves(moves: seq<Move>): nat {
    if moves == [] then 0
    else ClientMoves(moves[..|moves| - 1]) + if moves[|moves| - 1].ByClient? then 1 else 0
  }

  ghost predicate IsAllowed(w: World) {
    w.client.uuid in w.server.allowed
  }

  /** Nothing in a friendly run takes the client off the allowed list. */
  lemma MoveKeepsAllowed(settings: Settings, w: World, m: Move)
    requires OnTrack(settings, w) && Friendly(settings, w, m) && IsAllowed(w)
    ensures IsAllowed(Next(settings, w, m)) && Next(settings, w, m).client.uuid == w.client.uuid
  {
  }

  lemma FriendlyPrefix(settings: Settings, w: World, moves: seq<Move>)
    requires FriendlyRun(settings, w, moves) && moves != []
    ensures FriendlyRun(settings, w, moves[..|moves| - 1])
    ensures Friendly(settings, Reach(settings, w, moves[..|moves| - 1]), moves[|moves| - 1])
  {
    var last := |moves| - 1;
    var before := moves[..last];
    assert forall i :: 0 <= i < last ==> before[..i] == moves[..i] && before[i] == moves[i];
  }

  /** Once allowed, a client never has to wait again. */
  lemma {:induction false} AllowedNeverWaits(settings: Settings, w: World, moves: seq<Move>)
    requires OnTrack(settings, w) && FriendlyRun(settings, w, moves) && IsAllowed(w)
    ensures IsAllowed(Reach(settings, w, moves)) && Count(settings, w, moves, Waiting) == 0
  {
    if moves != [] {
      var before, m := moves[..|moves| - 1], moves[|moves| - 1];
      FriendlyPrefix(settings, w, moves);
      AllowedNeverWaits(settings, w, before);
      ThreeConnections(settings, w, before);
      MoveKeepsAllowed(settings, Reach(settings, w, before), m);
      if m.ByClient? {
        ClientMove(settings, Reach(settings, w, before), m);
      }
    }
  }

  /** An allowed client gets an update accepted within six moves of its own, over at most three connections. */
  lemma ReachesAcceptedUpdate(settings: Settings, w: World, moves: seq<Move>)
    requires OnTrack(settings, w) && FriendlyRun(settings, w, moves)
    requires IsAllowed(w) && ClientMoves(moves) > Ahead(w.client)
    ensures Count(settings, w, moves, Pushed) >= 1 && Connections(settings, w, moves) <= 3
  {
    AllowedNeverWaits(settings, w, moves);
    ThreeConnections(settings, w, moves);
  }

  // A run in two parts: what happens after `before` is what happens from where it leads.

  lemma {:induction false} ReachAfter(settings: Settings, w: World, before: seq<Move>, after: seq<Move>)
    ensures Reach(settings, w, before + after) == Reach(settings, Reach(settings, w, before), after)
    decreases |after|
  {
    if after == [] {
      assert before + after == before;
    } else {
      ReachAfter(settings, w, before, after[..|after| - 1]);
      assert (before + after)[..|before + after| - 1] == before + after[..|after| - 1];
    }
  }

  lemma FriendlyParts(settings: Settings, w: World, before: seq<Move>, after: seq<Move>)
    requires FriendlyRun(settings, w, before + after)
    ensures FriendlyRun(settings, w, before) && FriendlyRun(settings, Reach(settings, w, before), after)
  {
    var all := before + after;
    forall i | 0 <= i < |before|
      ensures Friendly(settings, Reach(settings, w, before[..i]), before[i])
    {
      assert all[..i] == before[..i] && all[i] == before[i];
    }
    forall i | 0 <= i < |after|
      ensures Friendly(settings, Reach(settings, Reach(settings, w, before), after[..i]), after[i])
    {
      assert all[..|before| + i] == before + after[..i] && all[|before| + i] == after[i];
      ReachAfter(settings, w, before, after[..i]);
    }
  }

  /** A client that becomes allowed on the way, however long it waited before, gets an update accepted within its
      next six moves, and the whole run opens at most three connections. */
  lemma ReachesOnceAllowed(settings: Settings, w: World, before: seq<Move>, after: seq<Move>)
    requires OnTrack(settings, w) && FriendlyRun(settings, w, before + after)
    requires IsAllowed(Reach(settings, w, before)) && ClientMoves(after) >= 6
    ensures Count(settings, Reach(settings, w, before), after, Pushed) >= 1
    ensures Connections(settings, w, before + after) <= 3
  {
    FriendlyParts(settings, w, before, after);
    ThreeConnections(settings, w, before);
    ReachesAcceptedUpdate(settings, Reach(settings, w, before), after);
    ThreeConnections(settings, w, before + after);
  }

  // ------------------------------------------------------------------- recovery

  /** Whatever went wrong, a lost call, a lost reply, a refusal in any phase, the client drops its connection with
      its token and starts over from its files. */
  lemma FailureDisconnects(settings: Settings, w: World, m: Move)
    requires m.ByClient? && MoveOutcome(settings, w, m) == Error
    ensures Next(settings, w, m).client == w.client.(phase := Disconnected)
  {
  }

  /** The signature on disk, if there is one, is the server's. */
  predicate GoodFiles(settings: Settings, c: Client) {
    c.disk.signature.Some? ==> c.disk.signature.value == settings.sign(c.uuid)
  }

  /** So with a good signature file, and the server up afterwards, every failure puts the client back on track. */
  lemma FailureRecovers(settings: Settings, w: World, m: Move)
    requires m.ByClient? && MoveOutcome(settings, w, m) == Error
    requires GoodFiles(settings, w.client) && !Next(settings, w, m).server.down
    ensures OnTrack(settings, Next(settings, w, m))
  {
    FailureDisconnects(settings, w, m);
  }

  /** A connected client that the server does not know any more, or whose token it has dropped, is refused. */
  lemma RefusedPush(settings: Settings, w: World, m: Move)
    requires m.ByClient? && m.delivery == Delivered && !w.server.down
    requires w.client.phase.Pushing? && !Authentic(w.server, w.client.uuid, w.client.phase.token)
    ensures MoveOutcome(settings, w, m) == Error && Next(settings, w, m).server == w.server
  {
  }

  /** A client whose token is gone, say because it was revoked, gives up at its next update; once it is registered
      and allowed again it gets an update accepted within its next six moves, over at most three connections. */
  lemma RefusedPushRecovers(settings: Settings, w: World, m: Move, before: seq<Move>, after: seq<Move>)
    requires m.ByClient? && m.delivery == Delivered && !w.server.down && GoodFiles(settings, w.client)
    requires w.client.phase.Pushing? && !Authentic(w.server, w.client.uuid, w.client.phase.token)
    requires var refused := Next(settings, w, m);
             && FriendlyRun(settings, refused, before + after)
             && IsAllowed(Reach(settings, refused, before)) && ClientMoves(after) >= 6
    ensures var refused := Next(settings, w, m);
            && refused.client.phase.Disconnected?
            && Count(settings, Reach(settings, refused, before), after, Pushed) >= 1
            && Connections(settings, refused, before + after) <= 3
  {
    RefusedPush(settings, w, m);
    FailureRecovers(settings, w, m);
    FailureDisconnects(settings, w, m);
    ReachesOnceAllowed(settings, Next(settings, w, m), before, after);
  }

  /** A client that starts with nothing, or with the files of an earlier run, is on track. */
  lemma StartsOnTrack(settings: Settings, w: World)
    requires !w.server.down && w.client.phase.Disconnected? && GoodFiles(settings, w.client)
    ensures OnTrack(settings, w)
  {
  }
}
