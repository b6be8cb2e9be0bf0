/** The forest of a push server: what its events, revocations and restarts included, keep of the tree of hosts. */
module PushForest {
  import opened Basics
  import opened Forest
  import opened ForestUnique
  import opened PushProtocol

  lemma RevokedKeepsClean(s: Server, uuid: string, order: seq<string>)
    requires Clean(s.local)
    ensures Clean(Revoked(s, uuid, order).local)
  {
    DroppingThins(s.local, {uuid});
    ThinnerIsClean(s.local, s.local.(remotes := s.local.remotes - {uuid}));
  }

  lemma StepKeepsClean(settings: Settings, s: Server, e: Event)
    requires s.local.uuid != "" && Clean(s.local)
    ensures Clean(Step(settings, s, e).local) && Step(settings, s, e).local.uuid == s.local.uuid
  {
    match e
    case Update(_, _, payload, now) =>
      if payload.Decoded? {
        UpdateKeepsClean(s.local, Erase(payload.wigo, 1), now);
      }
    case Revoke(uuid, order) => RevokedKeepsClean(s, uuid, order);
    case Restart => BootedIsClean(settings, s.file, s.local);
    case _ =>
  }

  lemma BootedIsClean(settings: Settings, file: Option<string>, local: Wigo)
    ensures Clean(Booted(settings, file, local).local) && Booted(settings, file, local).local.uuid == local.uuid
  {
  }

  /** In every reachable state of the server, hosts stand under their own uuids and the server's uuid is not among
      them, whatever the clients send. */
  lemma {:induction false} ServedForestIsClean(settings: Settings, file: Option<string>, local: Wigo, events: seq<Event>)
    requires local.uuid != ""
    ensures Clean(PushProtocol.Run(settings, Booted(settings, file, local), events).local)
    ensures PushProtocol.Run(settings, Booted(settings, file, local), events).local.uuid == local.uuid
  {
    if events == [] {
      BootedIsClean(settings, file, local);
    } else {
      var before := events[..|events| - 1];
      ServedForestIsClean(settings, file, local, before);
      StepKeepsClean(settings, PushProtocol.Run(settings, Booted(settings, file, local), before), events[|events| - 1]);
    }
  }

  /** Hosts directly below the root only, each under its own uuid. */
  ghost predicate Flat(w: Wigo) {
    forall k :: k in w.remotes ==> w.remotes[k].uuid == k && w.remotes[k].remotes == map[]
  }

  lemma FlatIsUnique(w: Wigo)
    requires Flat(w)
    ensures Unique(w)
  {
    forall p | p != [] && UuidAt(w, p).Some?
      ensures p == [UuidAt(w, p).value]
    {
      assert NodeAt(w, p) == NodeAt(w.remotes[p[0]], p[1..]);
      assert p == [p[0]] + p[1..];
    }
  }

  lemma UpdateKeepsFlat(local: Wigo, sent: Wigo, now: int)
    requires Flat(local) && sent.remotes == map[]
    ensures Flat(AddOrUpdate(local, sent, now))
  {
    var stored := Stored(local.uuid, local.remotes, sent, now);
    assert stored.uuid == sent.uuid && stored.remotes == map[];
  }

  lemma StepKeepsFlat(settings: Settings, s: Server, e: Event)
    requires Flat(s.local)
    ensures Flat(Step(settings, s, e).local)
  {
    match e
    case Update(_, _, payload, now) =>
      if payload.Decoded? {
        UpdateKeepsFlat(s.local, Erase(payload.wigo, 1), now);
      }
    case _ =>
  }

  /** A server that is only pushed to keeps its clients flat, since it cuts what they send at the first level; so
      no uuid ever occurs twice there. */
  lemma {:induction false} ServedForestIsUnique(settings: Settings, file: Option<string>, local: Wigo, events: seq<Event>)
    ensures Flat(PushProtocol.Run(settings, Booted(settings, file, local), events).local)
    ensures Unique(PushProtocol.Run(settings, Booted(settings, file, local), events).local)
  {
    var s := PushProtocol.Run(settings, Booted(settings, file, local), events);
    if events != [] {
      var before := events[..|events| - 1];
      ServedForestIsUnique(settings, file, local, before);
      StepKeepsFlat(settings, PushProtocol.Run(settings, Booted(settings, file, local), before), events[|events| - 1]);
    }
    FlatIsUnique(s.local);
  }

  // ------------------------------------------------------------- who changes the forest

  /** An authentic, decodable update of any host but the server itself is stored under its uuid, without the hosts
      below it, at the time it arrived, its status recomputed from its probes. */
  lemma AcceptedUpdateIsStored(settings: Settings, s: Server, uuid: string, token: string, wigo: Wigo, now: int)
    requires Authentic(s, uuid, token) && (wigo.uuid == "" || wigo.uuid != s.local.uuid)
    ensures var t := Step(settings, s, Update(uuid, token, Decoded(wigo), now)).local;
            && wigo.uuid in t.remotes
            && EntryStored(s.local, Erase(wigo, 1), now, t)
            && var entry := t.remotes[wigo.uuid];
            && entry.hostname == wigo.hostname && entry.host == wigo.host && entry.remotes == map[]
            && entry.lastUpdate == now && IsWorst(entry.globalStatus, wigo.host.probes)
  {
    var sent := Erase(wigo, 1);
    assert sent.remotes == map[] && sent.uuid == wigo.uuid;
    assert KeysMatch(sent);
    KeysMatchByPath(sent);
    UpdateOutcome(s.local, sent, now);
    EraseRecomputes(wigo, 1, []);
  }

  lemma DroppingNobody(local: Wigo, uuid: string)
    ensures uuid !in local.remotes ==> local.(remotes := local.remotes - {uuid}) == local
  {
    assert uuid !in local.remotes ==> local.remotes - {uuid} == local.remotes;
  }

  /** Nothing else changes the forest: only an authentic, decodable update, a revocation of a host it holds, and a
      restart. */
  lemma WhoChangesTheForest(settings: Settings, s: Server, e: Event)
    requires !s.down && Step(settings, s, e).local != s.local
    ensures || e.Restart?
            || (e.Revoke? && e.uuid in s.local.remotes)
            || (e.Update? && e.payload.Decoded? && e.token in s.tokens && s.tokens[e.token] == e.uuid)
  {
    if e.Revoke? {
      DroppingNobody(s.local, e.uuid);
    }
  }

  /** What an update is answered, whatever it does to the forest: an undecodable one looks accepted. */
  lemma UpdateAnswers(settings: Settings, s: Server, uuid: string, token: string, payload: Payload, now: int)
    requires !s.down
    ensures var reply := Answer(settings, s, Update(uuid, token, payload, now));
            if token !in s.tokens || s.tokens[token] != uuid then reply == Failed("NOT ALLOWED")
            else if payload.Legacy? then reply == Failed("TOO OLD WIGO CLIENT")
            else reply == Done
  {
  }
}
