/** What every run of the receiver keeps: authentication, single publication, counts and records. */
module ReceiverRuns {
  import opened Prelude
  import opened Base64
  import opened Json
  import opened Messages
  import opened Privacy
  import opened Enrollment
  import opened Snapshots
  import opened Sessions
  import opened SessionTelemetry
  import opened Registry
  import opened Receiver

  /** The enrolled key of the challenged device has signed exactly this challenge, for a time it covers. */
  ghost predicate Proven(env: Env, signed: Signatures, c: SessionChallenge, m: Message)
  {
    && m.SessionAuth? && m.session == c && m.deviceId == c.audience
    && c.audience in env.devices && m.deviceKey == env.devices[c.audience]
    && DecodeKey(m.deviceKey).Some?
    && env.did(DecodeKey(m.deviceKey).value) == c.audience
    && (DecodeKey(m.deviceKey).value, Payload(m)) in signed
    && c.issued - SESSION_CLOCK_SKEW <= m.signedAt < c.expires
  }

  ghost predicate PhaseOk(env: Env, w: World, h: nat)
    requires h < |w.phases|
  {
    match w.phases[h]
    case AwaitingHello => h !in w.challenges
    case Challenged(c) => h in w.challenges && w.challenges[h] == c
    case Open(c, m) => h in w.challenges && w.challenges[h] == c && Proven(env, w.signed, c, m)
    case Acknowledging(c, m) => h in w.challenges && w.challenges[h] == c && Proven(env, w.signed, c, m)
    case Ended => true
  }

  ghost predicate ChallengeOk(env: Env, w: World, h: nat)
    requires h in w.challenges
  {
    && h < |w.phases| && w.challenges[h].audience in env.devices && w.challenges[h].relayId == env.relayId
    && forall g | g in w.challenges && g != h :: w.challenges[g].sessionId != w.challenges[h].sessionId
  }

  ghost predicate PublicationOk(env: Env, w: World, p: Publication)
  {
    && p.handler < |w.phases| && (w.phases[p.handler].Acknowledging? || w.phases[p.handler].Ended?)
    && p.handler in w.challenges && w.challenges[p.handler] == p.challenge
    && Proven(env, w.signed, p.challenge, p.proof)
    && p.record.deviceId == p.challenge.audience && p.record.sequence == 1
    && AcceptSnapshot(env.lower, p.sent) == Some(p.record.snapshot)
  }

  ghost predicate SinglePublications(ps: seq<Publication>)
  {
    forall i, j | 0 <= i < j < |ps| :: ps[i].handler != ps[j].handler
  }

  function LatestRecords(ps: seq<Publication>): map<string, Record>
  {
    if ps == [] then map[]
    else
      var last := ps[|ps| - 1].record;
      LatestRecords(ps[..|ps| - 1])[last.deviceId := last]
  }

  ghost predicate RecordsOk(w: World)
  {
    && w.registry.records == LatestRecords(w.publications)
    && w.registry.file == if w.publications == [] then None else Some(FileOf(w.registry.records))
  }

  ghost predicate Logged(w: World, key: Bytes, payload: string)
  {
    exists m :: (key, m) in w.log && payload == Payload(m)
  }

  /** What an honest device signed for a session, it signed as itself, after checking the challenge. */
  ghost predicate HonestLog(env: Env, key: Bytes, m: Message)
  {
    m.SessionAuth? ==>
      && m.deviceId == env.did(key) && m.deviceKey == Encode(key)
      && ValidSession(m.session, env.did(key), m.session.relayId, m.signedAt)
  }

  ghost predicate SigningOk(env: Env, w: World)
  {
    && (forall key, p | (key, p) in w.signed && key in env.honest :: Logged(w, key, p))
    && (forall key, m | (key, m) in w.log :: HonestLog(env, key, m))
  }

  ghost predicate HandlersOk(env: Env, w: World)
  {
    && (forall g | 0 <= g < |w.phases| :: PhaseOk(env, w, g))
    && (forall g | g in w.challenges :: ChallengeOk(env, w, g))
    && (forall i | 0 <= i < |w.publications| :: PublicationOk(env, w, w.publications[i]))
  }

  ghost predicate Inv(env: Env, w: World)
  {
    && CountsAgree(w) && RecordsOk(w) && SigningOk(env, w) && SinglePublications(w.publications)
    && HandlersOk(env, w)
  }

  // ---- Steps ----

  /** Only handler `h` moves, from a phase that has published nothing unless it ends; nothing is unsigned. */
  ghost predicate Moves(w: World, w': World, h: nat)
  {
    && w'.challenges == w.challenges && w.signed <= w'.signed && |w.phases| <= |w'.phases|
    && (forall g | 0 <= g < |w.phases| && g != h :: w'.phases[g] == w.phases[g])
    && (h < |w.phases| && !w'.phases[h].Ended? ==>
        w'.phases[h] == w.phases[h] || !(w.phases[h].Acknowledging? || w.phases[h].Ended?))
  }

  lemma OthersKeep(env: Env, w: World, w': World, h: nat)
    requires HandlersOk(env, w) && Moves(w, w', h)
    ensures forall g | 0 <= g < |w.phases| && g != h :: PhaseOk(env, w', g)
    ensures forall g | g in w'.challenges :: ChallengeOk(env, w', g)
    ensures forall i | 0 <= i < |w.publications| :: PublicationOk(env, w', w.publications[i])
  {
    forall g | 0 <= g < |w.phases| && g != h ensures PhaseOk(env, w', g) { assert PhaseOk(env, w, g); }
    forall g | g in w'.challenges ensures ChallengeOk(env, w', g) { assert ChallengeOk(env, w, g); }
    forall i | 0 <= i < |w.publications| ensures PublicationOk(env, w', w.publications[i]) {
      assert PublicationOk(env, w, w.publications[i]);
    }
  }

  lemma EndKeeps(env: Env, w: World, h: nat, errors: nat)
    requires Inv(env, w) && h < |w.phases|
    ensures Inv(env, End(w, h, errors))
  {
    EndCounts(w, h, errors);
    OthersKeep(env, w, End(w, h, errors), h);
  }

  lemma ConnectKeeps(env: Env, w: World)
    requires Inv(env, w)
    ensures Inv(env, w.(phases := w.phases + [AwaitingHello]))
  {
    var n := |w.phases|;
    ConnectCounts(w);
    forall g | g in w.challenges ensures g < n { assert ChallengeOk(env, w, g); }
    OthersKeep(env, w, w.(phases := w.phases + [AwaitingHello]), n);
  }

  lemma ChallengeKeepsHandlers(env: Env, w: World, h: nat, hello: Json, c: SessionChallenge)
    requires HandlersOk(env, w) && h < |w.phases| && w.phases[h].AwaitingHello?
    requires c.audience in env.devices && c.relayId == env.relayId && FreshSession(w, c.sessionId)
    ensures HandlersOk(env, SendChallenge(w, h, hello, c))
  {
    var w' := SendChallenge(w, h, hello, c);
    assert PhaseOk(env, w, h);
    forall g | 0 <= g < |w'.phases| ensures PhaseOk(env, w', g) { assert PhaseOk(env, w, g); }
    forall g | g in w'.challenges ensures ChallengeOk(env, w', g) {
      if g != h { assert ChallengeOk(env, w, g); }
    }
    forall i | 0 <= i < |w'.publications| ensures PublicationOk(env, w', w'.publications[i]) {
      assert PublicationOk(env, w, w.publications[i]);
    }
  }

  lemma ChallengeKeeps(env: Env, w: World, h: nat, hello: Json, c: SessionChallenge)
    requires Inv(env, w) && h < |w.phases| && w.phases[h].AwaitingHello?
    requires c.audience in env.devices && c.relayId == env.relayId && FreshSession(w, c.sessionId)
    ensures Inv(env, SendChallenge(w, h, hello, c))
  {
    ChallengeCounts(w, h, hello, c);
    ChallengeKeepsHandlers(env, w, h, hello, c);
  }

  lemma AdmitKeeps(env: Env, w: World, h: nat, proof: Message, now: int)
    requires Inv(env, w) && h < |w.phases| && w.phases[h].Challenged?
    requires Proven(env, w.signed, w.phases[h].challenge, proof)
    ensures Inv(env, Admit(w, h, w.phases[h].challenge, proof, now))
  {
    assert PhaseOk(env, w, h);
    AdmitCounts(w, h, w.phases[h].challenge, proof, now);
    AdmitKeepsHandlers(env, w, h, w.phases[h].challenge, proof, now);
  }

  lemma AdmitKeepsHandlers(env: Env, w: World, h: nat, c: SessionChallenge, proof: Message, now: int)
    requires HandlersOk(env, w) && h < |w.phases| && w.phases[h] == Challenged(c) && Proven(env, w.signed, c, proof)
    ensures HandlersOk(env, Admit(w, h, c, proof, now))
  {
    assert PhaseOk(env, w, h);
    OthersKeep(env, w, Admit(w, h, c, proof, now), h);
  }

  lemma StoreKeepsRecords(w: World, h: nat, p: Publication)
    requires RecordsOk(w) && h < |w.phases|
    ensures RecordsOk(Store(w, h, p))
  {
    assert (w.publications + [p])[..|w.publications|] == w.publications;
  }

  lemma StoreKeepsSingle(env: Env, w: World, h: nat, p: Publication)
    requires HandlersOk(env, w) && SinglePublications(w.publications)
    requires h < |w.phases| && w.phases[h].Open? && p.handler == h
    ensures SinglePublications(Store(w, h, p).publications)
  {
    forall i | 0 <= i < |w.publications| ensures w.publications[i].handler != h {
      assert PublicationOk(env, w, w.publications[i]);
    }
  }

  lemma StoreKeepsHandlers(env: Env, w: World, h: nat, p: Publication)
    requires HandlersOk(env, w) && h < |w.phases| && w.phases[h].Open?
    requires p.handler == h && p.challenge == w.phases[h].challenge && p.proof == w.phases[h].proof
    requires p.record.deviceId == p.challenge.audience && p.record.sequence == 1
    requires AcceptSnapshot(env.lower, p.sent) == Some(p.record.snapshot)
    ensures HandlersOk(env, Store(w, h, p))
  {
    assert PhaseOk(env, w, h);
    OthersKeep(env, w, Store(w, h, p), h);
  }

  lemma StoreKeeps(env: Env, w: World, h: nat, p: Publication)
    requires Inv(env, w) && h < |w.phases| && w.phases[h].Open?
    requires p.handler == h && p.challenge == w.phases[h].challenge && p.proof == w.phases[h].proof
    requires p.record.deviceId == p.challenge.audience && p.record.sequence == 1
    requires AcceptSnapshot(env.lower, p.sent) == Some(p.record.snapshot)
    ensures Inv(env, Store(w, h, p))
  {
    StoreCounts(w, h, p);
    StoreKeepsRecords(w, h, p);
    StoreKeepsSingle(env, w, h, p);
    StoreKeepsHandlers(env, w, h, p);
  }

  lemma SignKeeps(env: Env, w: World, key: Bytes, payload: string, m: Option<Message>)
    requires Inv(env, w)
    requires if m.Some? then payload == Payload(m.value) && HonestLog(env, key, m.value) else key !in env.honest
    ensures Inv(env, w.(signed := w.signed + {(key, payload)},
                        log := if m.Some? then w.log + {(key, m.value)} else w.log))
  {
    var w' := w.(signed := w.signed + {(key, payload)}, log := if m.Some? then w.log + {(key, m.value)} else w.log);
    OthersKeep(env, w, w', |w.phases|);
    forall k, p | (k, p) in w'.signed && k in env.honest ensures Logged(w', k, p) {
      if (k, p) in w.signed {
        assert Logged(w, k, p);
      } else {
        assert (key, m.value) in w'.log;
      }
    }
    assert w'.registry == w.registry && w'.phases == w.phases;
  }

  lemma VerdictProves(env: Env, signed: Signatures, document: Json, c: SessionChallenge, now: int)
    requires WellFormed(document) && AuthVerdict(env, signed, document, c, now).Some?
    ensures Proven(env, signed, c, AuthVerdict(env, signed, document, c, now).value)
  {
    AcceptedMeansSigned(env.did, signed, document, c, now);
  }

  lemma HonestSigning(env: Env, key: Bytes, m: Message)
    requires m.SessionAuth? ==> exists relayId ::
             SignSession(Identity(env.did(key), key), m.session, relayId, m.signedAt) == Some(m)
    ensures HonestLog(env, key, m)
  {
  }

  lemma StepKeepsInv(env: Env, w: World, e: Event)
    requires Inv(env, w) && Legal(env, w, e)
    ensures Inv(env, Next(env, w, e))
  {
    match e
    case Connect => ConnectKeeps(env, w);
    case Hello(h, document, sessionId, nonce, now) =>
      var verdict := HelloVerdict(env, document);
      if verdict.Some? {
        ChallengeKeeps(env, w, h, document, NewSession(verdict.value, env.relayId, sessionId, nonce, now));
      } else {
        EndKeeps(env, w, h, 1);
      }
    case Authenticate(h, document, now) =>
      var verdict := AuthVerdict(env, w.signed, document, w.phases[h].challenge, now);
      if verdict.Some? {
        VerdictProves(env, w.signed, document, w.phases[h].challenge, now);
        AdmitKeeps(env, w, h, verdict.value, now);
      } else {
        EndKeeps(env, w, h, 1);
      }
    case Telemetry(h, document, now) =>
      TelemetryKeeps(env, w, h, document, now);
    case Finish(h) => EndKeeps(env, w, h, 0);
    case Drop(h, counted) => EndKeeps(env, w, h, if counted then 1 else 0);
    case HonestSigns(key, m) =>
      HonestSigning(env, key, m);
      SignKeeps(env, w, key, Payload(m), Some(m));
    case OutsiderSigns(key, payload) => SignKeeps(env, w, key, payload, None);
  }

  lemma TelemetryKeeps(env: Env, w: World, h: nat, document: Json, now: int)
    requires Inv(env, w) && Legal(env, w, Telemetry(h, document, now))
    ensures Inv(env, Next(env, w, Telemetry(h, document, now)))
  {
    var p := w.phases[h];
    assert PhaseOk(env, w, h);
    TelemetryOutcome(env, w, h, document, now);
    if AcceptTelemetry(env.lower, document, p.challenge.sessionId).Some? {
      AcceptedKeeps(env, w, h, p.challenge, p.proof, document, now);
    } else {
      EndKeeps(env, w, h, 1);
    }
  }

  lemma TelemetryOutcome(env: Env, w: World, h: nat, document: Json, now: int)
    requires Legal(env, w, Telemetry(h, document, now)) && w.phases[h].challenge.audience in env.devices
    ensures var p := w.phases[h];
            var verdict := AcceptTelemetry(env.lower, document, p.challenge.sessionId);
            Next(env, w, Telemetry(h, document, now))
            == if verdict == None then End(w, h, 1)
               else Store(w, h, PublicationOf(h, p.challenge, p.proof, SnapshotOf(document), verdict.value, now))
  {
  }

  lemma AcceptedKeeps(env: Env, w: World, h: nat, c: SessionChallenge, proof: Message, document: Json, now: int)
    requires Inv(env, w) && h < |w.phases| && w.phases[h] == Open(c, proof)
    requires AcceptTelemetry(env.lower, document, c.sessionId).Some?
    ensures var snapshot := AcceptTelemetry(env.lower, document, c.sessionId).value;
            Inv(env, Store(w, h, PublicationOf(h, c, proof, SnapshotOf(document), snapshot, now)))
  {
    var verdict := AcceptTelemetry(env.lower, document, c.sessionId);
    assert AcceptSnapshot(env.lower, SnapshotOf(document)) == verdict;
    StoreKeeps(env, w, h, PublicationOf(h, c, proof, SnapshotOf(document), verdict.value, now));
  }

  lemma {:induction false} RunKeepsInv(env: Env, w: World, events: seq<Event>, final: World)
    requires Inv(env, w) && Reaches(env, w, events, final)
    ensures Inv(env, final)
    decreases |events|
  {
    if events != [] {
      StepKeepsInv(env, w, events[0]);
      RunKeepsInv(env, Next(env, w, events[0]), events[1..], final);
    }
  }

  lemma NewWorldInv(env: Env)
    ensures Inv(env, NEW_WORLD)
  {
    forall d ensures Active(NEW_WORLD.registry, d) == OpenSessions(NEW_WORLD.phases, d) {}
  }

  // ---- Hellos ----

  ghost predicate Greeted(w: World, h: nat)
  {
    h in w.challenges && h in w.hellos && HelloOf(w.hellos[h]) == Some(w.challenges[h].audience)
  }

  /** Every challenge answers a hello that named its audience. */
  ghost predicate HellosOk(w: World)
  {
    forall h | h in w.challenges :: Greeted(w, h)
  }

  lemma ChallengeKeepsHellos(w: World, h: nat, hello: Json, c: SessionChallenge)
    requires HellosOk(w) && h < |w.phases| && HelloOf(hello) == Some(c.audience)
    ensures HellosOk(SendChallenge(w, h, hello, c))
  {
    var w' := SendChallenge(w, h, hello, c);
    forall g | g in w'.challenges ensures Greeted(w', g) {
      if g != h { assert Greeted(w, g); }
    }
  }

  lemma SameHellos(w: World, w': World)
    requires HellosOk(w) && w'.hellos == w.hellos && w'.challenges == w.challenges
    ensures HellosOk(w')
  {
    forall g | g in w'.challenges ensures Greeted(w', g) { assert Greeted(w, g); }
  }

  lemma StepKeepsHellos(env: Env, w: World, e: Event)
    requires HellosOk(w) && Legal(env, w, e)
    ensures HellosOk(Next(env, w, e))
  {
    if e.Hello? && HelloVerdict(env, e.document).Some? {
      ChallengeKeepsHellos(w, e.h, e.document,
                           NewSession(HelloVerdict(env, e.document).value, env.relayId, e.sessionId, e.nonce, e.now));
    } else {
      SameHellos(w, Next(env, w, e));
    }
  }

  lemma {:induction false} RunKeepsHellos(env: Env, w: World, events: seq<Event>, final: World)
    requires HellosOk(w) && Reaches(env, w, events, final)
    ensures HellosOk(final)
    decreases |events|
  {
    if events != [] {
      StepKeepsHellos(env, w, events[0]);
      RunKeepsHellos(env, Next(env, w, events[0]), events[1..], final);
    }
  }

  // ---- Main results ----

  /** Agreement: everything published came through a session whose challenge this receiver sent to this very
      handler, in answer to a hello that named the enrolled device the record names, and that device's enrolled
      key signed exactly that challenge. An honest device signed it knowingly: as itself, for that challenge,
      while it was valid. */
  lemma SessionAgreement(env: Env, events: seq<Event>, w: World, i: nat)
    requires Reaches(env, NEW_WORLD, events, w) && i < |w.publications|
    ensures var p := w.publications[i];
            && p.handler in w.challenges && w.challenges[p.handler] == p.challenge
            && Greeted(w, p.handler)
            && p.record.deviceId == p.challenge.audience && p.challenge.audience in env.devices
            && Proven(env, w.signed, p.challenge, p.proof)
            && var key := DecodeKey(env.devices[p.record.deviceId]).value;
               key in env.honest ==>
                 && (key, p.proof) in w.log && env.devices[p.record.deviceId] == Encode(key)
                 && ValidSession(p.challenge, p.record.deviceId, env.relayId, p.proof.signedAt)
  {
    NewWorldInv(env);
    RunKeepsInv(env, NEW_WORLD, events, w);
    var p := w.publications[i];
    assert PublicationOk(env, w, p);
    RunKeepsHellos(env, NEW_WORLD, events, w);
    assert Greeted(w, p.handler);
    var key := DecodeKey(p.proof.deviceKey).value;
    if key in env.honest {
      assert Logged(w, key, Payload(p.proof));
      var m :| (key, m) in w.log && Payload(p.proof) == Payload(m);
      PayloadInjective(p.proof, m);
      assert HonestLog(env, key, m);
      assert ChallengeOk(env, w, p.handler);
    }
  }

  /** Each handler publishes at most once, and so does each signature: no two publications rest on the same
      challenge or the same signed message. */
  lemma SinglePublication(env: Env, events: seq<Event>, w: World, i: nat, j: nat)
    requires Reaches(env, NEW_WORLD, events, w) && i < j < |w.publications|
    ensures w.publications[i].handler != w.publications[j].handler
    ensures w.publications[i].challenge.sessionId != w.publications[j].challenge.sessionId
    ensures Payload(w.publications[i].proof) != Payload(w.publications[j].proof)
  {
    NewWorldInv(env);
    RunKeepsInv(env, NEW_WORLD, events, w);
    var p, q := w.publications[i], w.publications[j];
    assert PublicationOk(env, w, p) && PublicationOk(env, w, q);
    assert ChallengeOk(env, w, q.handler);
    if Payload(p.proof) == Payload(q.proof) {
      PayloadInjective(p.proof, q.proof);
    }
  }

  /** A document that authenticates one session is refused in every other, whenever it is replayed. */
  lemma ReplayIsRefused(env: Env, events: seq<Event>, w: World, g: nat, h: nat, document: Json,
                        signed: Signatures, earlier: int, now: int)
    requires Reaches(env, NEW_WORLD, events, w) && g != h && g in w.challenges && h in w.challenges
    requires WellFormed(document) && AuthVerdict(env, signed, document, w.challenges[g], earlier).Some?
    ensures AuthVerdict(env, w.signed, document, w.challenges[h], now) == None
  {
    NewWorldInv(env);
    RunKeepsInv(env, NEW_WORLD, events, w);
    assert ChallengeOk(env, w, h);
    if AuthVerdict(env, w.signed, document, w.challenges[h], now).Some? {
      OneChallengePerDocument(env.did, signed, w.signed, document, w.challenges[g], w.challenges[h], earlier, now);
    }
  }

  /** The registry's count of a device is the number of its open authenticated sessions, whatever the
      interleaving; closing a session never meets a zero; and when all handlers have ended all are zero. */
  lemma SessionCounters(env: Env, events: seq<Event>, w: World)
    requires Reaches(env, NEW_WORLD, events, w)
    ensures forall d :: Active(w.registry, d) == OpenSessions(w.phases, d)
    ensures forall h | 0 <= h < |w.phases| && Counted(w.phases[h]).Some? ::
            Active(w.registry, Counted(w.phases[h]).value) > 0
    ensures (forall h | 0 <= h < |w.phases| :: w.phases[h].Ended?) ==> forall d :: Active(w.registry, d) == 0
  {
    NewWorldInv(env);
    RunKeepsInv(env, NEW_WORLD, events, w);
    forall h | 0 <= h < |w.phases| && Counted(w.phases[h]).Some?
      ensures Active(w.registry, Counted(w.phases[h]).value) > 0
    {
      SessionsPositive(w.phases, h, Counted(w.phases[h]).value);
    }
    if forall h | 0 <= h < |w.phases| :: w.phases[h].Ended? {
      forall d ensures Active(w.registry, d) == 0 { NoSessions(w.phases, d); }
    }
  }

  ghost predicate LastFor(ps: seq<Publication>, deviceId: string, i: int)
  {
    && 0 <= i < |ps| && ps[i].record.deviceId == deviceId
    && forall j | i < j < |ps| :: ps[j].record.deviceId != deviceId
  }

  lemma {:induction false} LatestIsLast(ps: seq<Publication>, deviceId: string)
    ensures deviceId in LatestRecords(ps) <==> exists i :: LastFor(ps, deviceId, i)
    ensures forall i | LastFor(ps, deviceId, i) ::
            deviceId in LatestRecords(ps) && LatestRecords(ps)[deviceId] == ps[i].record
  {
    if ps != [] {
      var n := |ps| - 1;
      LatestIsLast(ps[..n], deviceId);
      if ps[n].record.deviceId == deviceId {
        assert LastFor(ps, deviceId, n);
      } else {
        forall i ensures LastFor(ps, deviceId, i) <==> LastFor(ps[..n], deviceId, i) {}
      }
    }
  }

  /** The registry holds for each device what its last publication said, and from the first publication on
      the file holds the same without the receipt epoch. */
  lemma RecordsAreLatest(env: Env, events: seq<Event>, w: World, deviceId: string)
    requires Reaches(env, NEW_WORLD, events, w)
    ensures deviceId in w.registry.records <==> exists i :: LastFor(w.publications, deviceId, i)
    ensures forall i | LastFor(w.publications, deviceId, i) ::
              deviceId in w.registry.records && w.registry.records[deviceId] == w.publications[i].record
    ensures w.publications == [] ==> w.registry.file == None
    ensures w.publications != [] ==>
              && w.registry.file.Some? && w.registry.file.value.Keys == w.registry.records.Keys
              && (deviceId in w.registry.records ==>
                  w.registry.file.value[deviceId] == Stored(w.registry.records[deviceId]))
  {
    NewWorldInv(env);
    RunKeepsInv(env, NEW_WORLD, events, w);
    LatestIsLast(w.publications, deviceId);
  }

  /** A query about a device is answered with its last publication: the filtered snapshot of an accepted
      telemetry frame, and what the file says. It is refused exactly when the device never published. */
  lemma QueryGivesLastPublication(env: Env, events: seq<Event>, w: World, deviceId: string)
    requires Reaches(env, NEW_WORLD, events, w)
    ensures Latest(w.registry, deviceId) == None
       <==> forall i | 0 <= i < |w.publications| :: w.publications[i].record.deviceId != deviceId
    ensures forall i | LastFor(w.publications, deviceId, i) ::
              && Latest(w.registry, deviceId) == Some(Stored(w.publications[i].record))
              && AcceptSnapshot(env.lower, w.publications[i].sent) == Some(w.publications[i].record.snapshot)
    ensures Latest(w.registry, deviceId).Some? ==>
              && w.registry.file.Some? && deviceId in w.registry.file.value
              && w.registry.file.value[deviceId] == Latest(w.registry, deviceId).value
  {
    NewWorldInv(env);
    RunKeepsInv(env, NEW_WORLD, events, w);
    LatestIsLast(w.publications, deviceId);
    forall i | 0 <= i < |w.publications| && w.publications[i].record.deviceId == deviceId
      ensures deviceId in w.registry.records
    {
      SomeLast(w.publications, deviceId, i);
    }
    forall i | LastFor(w.publications, deviceId, i)
      ensures AcceptSnapshot(env.lower, w.publications[i].sent) == Some(w.publications[i].record.snapshot)
    {
      assert PublicationOk(env, w, w.publications[i]);
    }
  }

  lemma {:induction false} SomeLast(ps: seq<Publication>, deviceId: string, i: nat)
    requires i < |ps| && ps[i].record.deviceId == deviceId
    ensures exists j :: LastFor(ps, deviceId, j)
    decreases |ps| - i
  {
    if j :| i < j < |ps| && ps[j].record.deviceId == deviceId {
      SomeLast(ps, deviceId, j);
    } else {
      assert LastFor(ps, deviceId, i);
    }
  }

  /** Every record in the registry is privacy filtered. */
  lemma RecordsArePublic(env: Env, events: seq<Event>, w: World, i: nat, n: nat, path: seq<Step>)
    requires Reaches(env, NEW_WORLD, events, w) && i < |w.publications| && path != []
    requires n < |InstancesOf(w.publications[i].record.snapshot)|
    requires At(InstancesOf(w.publications[i].record.snapshot)[n].value, path).Some?
    ensures || (path[0].Key? && path[0].key in INSTANCE_FIELDS && Clean(env.lower, path[1..]))
            || (path == [Key("error")]
                && At(InstancesOf(w.publications[i].record.snapshot)[n].value, path) == Some(Str("unavailable")))
  {
    NewWorldInv(env);
    RunKeepsInv(env, NEW_WORLD, events, w);
    assert PublicationOk(env, w, w.publications[i]);
    PublishedIsPublic(env.lower, w.publications[i].sent, n, path);
  }
}
