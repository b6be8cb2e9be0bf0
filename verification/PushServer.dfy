/** The objects of src/wigo/authority.go and src/wigo/push_server.go, updated in place. Every operation is
    proved to take the step of PushProtocol that the run theorems are about. */
module PushServer {
  import opened Basics
  import opened Forest
  import opened AllowedList
  import opened PushProtocol
  import opened Notifications
  import LocalWigo

  class Authority {
    const settings: Settings
    const local: LocalWigo.Local
    var Waiting: map<string, string>
    var Allowed: map<string, string>
    var Tokens: map<string, string>
    var allowedClientsFile: Option<string>
    var stopped: bool                  // the program ended while loading the allowed list

    ghost function State(): Server
      reads this, local
    {
      Server(Waiting, Allowed, Tokens, allowedClientsFile, local.Tree(), false)
    }

    /** NewAuthority: the maps start empty and the allowed list is loaded, which may stop the program. */
    constructor (settings: Settings, local: LocalWigo.Local, file: Option<string>)
      ensures this.settings == settings && this.local == local
      ensures Waiting == map[] && Tokens == map[] && allowedClientsFile == file
      ensures stopped <==> Load(settings.accepts, file).Fatal?
      ensures !stopped ==> State() == Booted(settings, file, local.Tree()).(local := local.Tree())
    {
      this.settings, this.local := settings, local;
      Waiting, Allowed, Tokens, allowedClientsFile, stopped := map[], map[], map[], file, false;
      new;
      var ok := LoadAllowedList();
      stopped := !ok;
    }

    predicate IsWaiting(uuid: string)
      reads this
    {
      uuid in Waiting
    }

    predicate IsAllowed(uuid: string)
      reads this
    {
      uuid in Allowed
    }

    method AddClientToWaitingList(uuid: string, hostname: string) returns (err: bool)
      modifies this`Waiting, local`callbacks
      ensures State() == AddedToWaiting(settings, old(State()), uuid, hostname)
      ensures local.callbacks == old(local.callbacks) + if State() != old(State()) then [LocalWigo.NewClient(hostname)] else []
      ensures err <==> uuid !in old(Waiting) && |old(Waiting)| >= settings.maxWaiting
    {
      err := false;
      if uuid !in Waiting {
        if |Waiting| < settings.maxWaiting {
          Waiting := Waiting[uuid := hostname];
          local.callbacks := local.callbacks + [LocalWigo.NewClient(hostname)];
        } else {
          err := true;
        }
      }
    }

    /** Reads the file line by line on top of the present map; `ok` is false when the program would stop, at a
        uuid the library refuses or at a line the scanner has no room for. */
    method LoadAllowedList() returns (ok: bool)
      modifies this`Allowed
      ensures ok <==> allowedClientsFile.None?
                      || LoadLines(settings.accepts, old(Allowed), Lines(allowedClientsFile.value)).Loaded?
      ensures ok && allowedClientsFile.None? ==> Allowed == old(Allowed)
      ensures ok && allowedClientsFile.Some? ==>
                Loaded(Allowed) == LoadLines(settings.accepts, old(Allowed), Lines(allowedClientsFile.value))
    {
      if allowedClientsFile.None? {
        return true;
      }
      var scanner := allowedClientsFile.value;
      while scanner != ""
        invariant LoadLines(settings.accepts, Allowed, Lines(scanner))
                  == LoadLines(settings.accepts, old(Allowed), Lines(allowedClientsFile.value))
        decreases |scanner|
      {
        var n := LineEnd(scanner);
        var line := scanner[..n];
        scanner := if n < |scanner| then scanner[n + 1..] else "";
        if |line| > MAX_LINE {
          return false;
        }
        var result := FindEntry(DropCR(line), 0);
        if result.None? {
          continue;
        }
        if !settings.accepts(result.value.0) {
          return false;
        }
        Allowed := Allowed[Normalised(result.value.0) := result.value.1];
      }
      return true;
    }

    /** Truncates the file and writes one line per allowed client, in the order the map happens to be walked. */
    method SaveAllowedList() returns (ghost order: seq<string>)
      modifies this`allowedClientsFile
      ensures IsOrder(order, Allowed.Keys) && allowedClientsFile == Some(Print(Allowed, order))
    {
      var text := "";
      order := [];
      var todo := Allowed.Keys;
      while todo != {}
        invariant todo <= Allowed.Keys
        invariant IsOrder(order, Allowed.Keys - todo) && text == Print(Allowed, order)
        decreases todo
      {
        var uuid :| uuid in todo;
        text := text + (uuid + " " + Allowed[uuid] + "\n");
        PrintOneMore(Allowed, order, uuid);
        order := order + [uuid];
        todo := todo - {uuid};
      }
      allowedClientsFile := Some(text);
    }

    method AllowClient(uuid: string) returns (err: bool, ghost order: seq<string>)
      modifies this`Waiting, this`Allowed, this`allowedClientsFile
      ensures State() == PushProtocol.Allowed(old(State()), uuid, order)
      ensures err <==> uuid !in old(Waiting)
    {
      err, order := false, [];
      if uuid in Waiting {
        var hostname := Waiting[uuid];
        Waiting := Waiting - {uuid};
        Allowed := Allowed[uuid := hostname];
        order := SaveAllowedList();
      } else {
        err := true;
      }
    }

    method RevokeClient(uuid: string) returns (ghost order: seq<string>)
      modifies this, local`remotes
      ensures State() == Revoked(old(State()), uuid, order)
    {
      order := [];
      if uuid in Waiting {
        Waiting := Waiting - {uuid};
      }
      if uuid in Allowed {
        Allowed := Allowed - {uuid};
        order := SaveAllowedList();
      }
      DropTokensOf(uuid);
      if uuid in local.remotes {
        local.remotes := local.remotes - {uuid};
      }
      assert old(Waiting) - {uuid} == Waiting && old(Allowed) - {uuid} == Allowed;
      assert old(local.remotes) - {uuid} == local.remotes;
    }

    /** The loop over Tokens shared by RevokeClient and GetToken. */
    method DropTokensOf(uuid: string)
      modifies this`Tokens
      ensures Tokens == WithoutOwner(old(Tokens), uuid)
    {
      var items := Tokens;
      var todo := items.Keys;
      while todo != {}
        invariant todo <= items.Keys
        invariant Tokens == map t | t in items && (t in todo || items[t] != uuid) :: items[t]
        decreases todo
      {
        var token :| token in todo;
        todo := todo - {token};
        if items[token] == uuid {
          Tokens := Tokens - {token};
        }
      }
    }

    method GetUuidSignature(uuid: string) returns (signature: string)
      ensures signature == settings.sign(uuid)
    {
      signature := settings.sign(uuid);
    }

    method VerifyUuidSignature(uuid: string, signature: string) returns (err: bool)
      ensures err <==> signature != settings.sign(uuid)
    {
      err := signature != settings.sign(uuid);
    }

    /** `generated` is the outcome of the uuid generator; its failure is lost and an empty token returned. */
    method GetToken(uuid: string, generated: Option<string>) returns (token: string)
      modifies this`Tokens
      ensures Tokens == Tokened(old(Tokens), uuid, generated)
      ensures token == if generated.Some? then generated.value else ""
    {
      token := "";
      if generated.Some? {
        token := generated.value;
        DropTokensOf(uuid);
        Tokens := Tokens[token := uuid];
      }
    }

    method VerifyToken(uuid: string, token: string) returns (err: bool)
      ensures err <==> !Authentic(State(), uuid, token)
    {
      if token in Tokens {
        err := uuid != Tokens[token];
      } else {
        err := true;
      }
    }

    method RevokeToken(uuid: string, token: string) returns (err: bool)
      modifies this`Tokens
      ensures Tokens == if Authentic(old(State()), uuid, token) then old(Tokens) - {token} else old(Tokens)
      ensures err <==> !Authentic(old(State()), uuid, token)
    {
      err := true;
      if token in Tokens {
        if uuid == Tokens[token] {
          Tokens := Tokens - {token};
          err := false;
        }
      }
    }
  }

  lemma {:induction false} PrintOneMore(allowed: map<string, string>, order: seq<string>, uuid: string)
    requires uuid in allowed && forall u :: u in order ==> u in allowed
    ensures Print(allowed, order + [uuid]) == Print(allowed, order) + (uuid + " " + allowed[uuid] + "\n")
  {
    if order == [] {
      assert [uuid][1..] == [];
    } else {
      assert (order + [uuid])[1..] == order[1..] + [uuid];
      PrintOneMore(allowed, order[1..], uuid);
    }
  }

  /** The callbacks an event owes: one for a client that joins the waiting list, and those of an accepted update. */
  ghost predicate Owes(settings: Settings, config: Config, s: Server, e: Event, c: LocalWigo.Callback) {
    match e
    case Register(uuid, hostname, _) =>
      && c == LocalWigo.NewClient(hostname)
      && uuid !in s.allowed && uuid !in s.waiting && |s.waiting| < settings.maxWaiting
    case Update(uuid, token, payload, now) =>
      && Authentic(s, uuid, token) && payload.Decoded?
      && LocalWigo.UpdateOwes(config, s.local, Erase(payload.wigo, 1), now, c)
    case _ => false
  }

  class PushServer {
    const authority: Authority

    constructor (authority: Authority)
      ensures this.authority == authority
    {
      this.authority := authority;
    }

    /** Every RPC takes the step of its event, gives its answer and adds the callbacks it owes, once each, to those
        sent before; the ghost event records the choices made. */
    ghost predicate Did(before: Server, sent: seq<LocalWigo.Callback>, e: Event, reply: Reply)
      reads authority, authority.local
    {
      && Notified(before, sent, e)
      && authority.State() == Step(authority.settings, before, e)
      && reply == Answer(authority.settings, before, e)
    }

    ghost predicate Notified(before: Server, sent: seq<LocalWigo.Callback>, e: Event)
      reads authority, authority.local
    {
      var callbacks := authority.local.callbacks;
      && sent <= callbacks && NoDuplicates(callbacks[|sent|..])
      && forall c :: c in callbacks[|sent|..] <==> Owes(authority.settings, authority.local.config, before, e, c)
    }

    method Register(uuid: string, hostname: string) returns (reply: Reply, ghost e: Event)
      modifies authority, authority.local
      ensures e.Register? && e.uuid == uuid && e.hostname == hostname
      ensures Did(old(authority.State()), old(authority.local.callbacks), e, reply)
    {
      reply := Done;
      e := Event.Register(uuid, hostname, []);
      if !authority.IsAllowed(uuid) {
        var full := authority.AddClientToWaitingList(uuid, hostname);
        if authority.settings.autoAccept {
          var err, order := authority.AllowClient(uuid);
          e := Event.Register(uuid, hostname, order);
        }
      }
    }

    method GetUuidSignature(uuid: string) returns (reply: Reply)
      ensures reply == Answer(authority.settings, authority.State(), Event.GetUuidSignature(uuid))
    {
      if authority.IsAllowed(uuid) {
        var sig := authority.GetUuidSignature(uuid);
        reply := Signature(sig);
      } else if authority.IsWaiting(uuid) {
        reply := Failed("WAITING");
      } else {
        reply := Failed("NOT ALLOWED");
      }
    }

    method Hello(uuid: string, signature: string, generated: Option<string>) returns (reply: Reply)
      modifies authority
      ensures Did(old(authority.State()), old(authority.local.callbacks), Event.Hello(uuid, signature, generated), reply)
    {
      if authority.IsAllowed(uuid) {
        var err := authority.VerifyUuidSignature(uuid, signature);
        if !err {
          var token := authority.GetToken(uuid, generated);
          reply := Token(token);
        } else {
          reply := Failed("NOT ALLOWED");
        }
      } else if authority.IsWaiting(uuid) {
        reply := Failed("WAITING");
      } else {
        reply := Failed("NOT ALLOWED");
      }
    }

    /** An undecodable payload changes nothing and, its error being lost, is answered like a good one. */
    method Update(uuid: string, token: string, payload: Payload, now: int) returns (reply: Reply)
      modifies authority.local
      ensures Did(old(authority.State()), old(authority.local.callbacks), Event.Update(uuid, token, payload, now), reply)
    {
      var err := authority.VerifyToken(uuid, token);
      if !err {
        reply := Done;
        match payload
        case Legacy =>
          reply := Failed("TOO OLD WIGO CLIENT");
        case Undecodable =>
        case Decoded(json) =>
          var wigo := LocalWigo.EraseRemoteWigos(json, 1);
          authority.local.AddOrUpdateRemoteWigo(wigo, now);
      } else {
        reply := Failed("NOT ALLOWED");
      }
    }

    method Goodbye(uuid: string, token: string) returns (reply: Reply)
      modifies authority
      ensures Did(old(authority.State()), old(authority.local.callbacks), Event.Goodbye(uuid, token), reply)
    {
      var err := authority.VerifyToken(uuid, token);
      if !err {
        var lost := authority.RevokeToken(uuid, token);
        reply := Done;
      } else {
        reply := Failed("NOT ALLOWED");
      }
    }

    method Allow(uuid: string) returns (reply: Reply, ghost e: Event)
      modifies authority
      ensures e.Allow? && e.uuid == uuid && Did(old(authority.State()), old(authority.local.callbacks), e, reply)
    {
      var err, order := authority.AllowClient(uuid);
      reply := if err then Failed("Authority : Invalid uuid " + uuid) else Done;
      e := Event.Allow(uuid, order);
    }

    method Revoke(uuid: string) returns (reply: Reply, ghost e: Event)
      modifies authority, authority.local
      ensures e.Revoke? && e.uuid == uuid && Did(old(authority.State()), old(authority.local.callbacks), e, reply)
    {
      var order := authority.RevokeClient(uuid);
      reply := Done;
      e := Event.Revoke(uuid, order);
    }

    /** A restart: a new server on the file the old one left, or none when the program stops while loading it. */
    method Restart() returns (next: PushServer?)
      ensures next == null <==> Step(authority.settings, authority.State(), Event.Restart).down
      ensures next != null ==> next.authority.State() == Step(authority.settings, authority.State(), Event.Restart)
    {
      next := Start(authority.settings, authority.local, authority.allowedClientsFile);
    }
  }

  /** A start of the program with the identity and configuration of `local`: a new local Wigo and a new authority. */
  method Start(settings: Settings, local: LocalWigo.Local, file: Option<string>) returns (server: PushServer?)
    ensures server == null <==> Booted(settings, file, local.Tree()).down
    ensures server != null ==> fresh(server) && fresh(server.authority) && fresh(server.authority.local)
    ensures server != null ==> server.authority.State() == Booted(settings, file, local.Tree())
                               && server.authority.settings == settings && server.authority.local.callbacks == []
  {
    server := null;
    var host := Host(local.host.group, 100, map[]);
    var wigo := new LocalWigo.Local(local.uuid, local.hostname, host, local.config, local.aliveTimeout);
    var authority := new Authority(settings, wigo, file);
    if !authority.stopped {
      server := new PushServer(authority);
    }
  }
}
