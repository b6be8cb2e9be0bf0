/** The push client as the object the reconnect loop of src/wigo.go drives: each turn makes one RPC against the
    server object and updates the client's fields and files in place, taking the move PushClient describes. */
module PushThread {
  import opened Basics
  import opened PushProtocol
  import opened PushClient
  import Server = PushServer

  class PushClientObject {
    const uuid: string
    const hostname: string
    const sslEnabled: bool
    var sslCert: bool                  // the server certificate file
    var uuidSig: Option<string>        // the uuid signature file
    var connected: bool                // `client` is not nil
    var uuidSignature: Option<string>
    var token: Option<string>

    constructor (uuid: string, hostname: string, sslEnabled: bool, sslCert: bool, uuidSig: Option<string>)
      ensures this.uuid == uuid && this.hostname == hostname
      ensures Abstract() == Client(uuid, hostname, sslEnabled, Disk(sslCert, uuidSig), Disconnected)
    {
      this.uuid, this.hostname, this.sslEnabled, this.sslCert, this.uuidSig := uuid, hostname, sslEnabled, sslCert, uuidSig;
      connected, uuidSignature, token := false, None, None;
    }

    ghost function Abstract(): Client
      reads this
    {
      Client(uuid, hostname, sslEnabled, Disk(sslCert, uuidSig),
             if !connected then Disconnected
             else if token.Some? then Pushing(token.value)
             else if uuidSignature.Some? then Greeting(uuidSignature.value)
             else Signing)
    }

    method Close()
      modifies this
      ensures Abstract() == old(Abstract()).(phase := Disconnected)
    {
      connected, uuidSignature, token := false, None, None;
    }

    ghost predicate Took(server: Server.PushServer, before: World, m: Move, outcome: Outcome)
      reads this, server.authority, server.authority.local
    {
      && m.ByClient?
      && World(server.authority.State(), Abstract()) == Next(server.authority.settings, before, m)
      && outcome == MoveOutcome(server.authority.settings, before, m)
    }

    /** The client's pending call, if it reaches the server. */
    method Request(server: Server.PushServer, delivery: Delivery, generated: Option<string>, payload: Payload, now: int)
      returns (reply: Reply, ghost m: Move)
      modifies server.authority, server.authority.local
      ensures var before := old(World(server.authority.State(), Abstract()));
              && m.ByClient? && m.delivery == delivery
              && server.authority.State() == Next(server.authority.settings, before, m).server
              && (delivery == Delivered ==> reply == ReplyTo(server.authority.settings, before, m))
    {
      m := ByClient(delivery, [], generated, payload, now);
      reply := Silence;
      if !connected && sslEnabled && !sslCert {
        reply := Done;
      } else if delivery != CallLost {
        if !connected {
          ghost var e;
          reply, e := server.Register(uuid, hostname);
          m := ByClient(delivery, e.order, generated, payload, now);
        } else if token.Some? {
          reply := server.Update(uuid, token.value, payload, now);
        } else if uuidSignature.Some? {
          reply := server.Hello(uuid, uuidSignature.value, generated);
        } else {
          reply := server.GetUuidSignature(uuid);
        }
      }
    }

    /** One turn of the loop: the pending call, then what the loop does with its outcome. */
    method Turn(server: Server.PushServer, delivery: Delivery, generated: Option<string>, payload: Payload, now: int)
      returns (outcome: Outcome, ghost m: Move)
      modifies this, server.authority, server.authority.local
      ensures Took(server, old(World(server.authority.State(), Abstract())), m, outcome)
    {
      var reply;
      reply, m := Request(server, delivery, generated, payload, now);
      if delivery != Delivered {
        Close();
        outcome := Error;
      } else {
        outcome := Handle(reply);
      }
    }

    /** NewPushClient, SignUuid, Hello and Update after their call returned. */
    method Handle(reply: Reply) returns (outcome: Outcome)
      requires !reply.Silence?
      modifies this
      ensures (Abstract(), outcome) == AfterReply(old(Abstract()), reply)
    {
      if !connected {
        if sslEnabled && !sslCert {
          sslCert := true;
          return Reconnect;
        }
        connected, uuidSignature := true, uuidSig;
        token := None;
        return Moved;
      }
      if token.Some? {
        if reply.Done? {
          return Pushed;
        }
        Close();
        return Error;
      }
      if reply == Failed("WAITING") {
        return Waiting;
      }
      if uuidSignature.Some? {
        if reply.Token? {
          token := Some(reply.token);
          return Moved;
        }
      } else if reply.Signature? {
        uuidSig := Some(reply.signature);
        Close();
        return Reconnect;
      }
      Close();
      return Error;
    }
  }
}
