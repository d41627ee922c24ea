/**
 The relay receiver with any number of concurrent connections. Each connection's handler is a small
 machine; every event is what happens between two points where the handler waits, so events of
 different handlers interleave freely. The peers, and so the frames, are arbitrary: recorded, replayed
 or made up. Keys held by honest devices sign only what those devices sign.
 */
module Receiver {
  import opened Prelude
  import opened Text
  import opened Base64
  import opened Json
  import opened Messages
  import opened Privacy
  import opened Enrollment
  import opened RelayConfig
  import opened Sessions
  import opened SessionTelemetry
  import opened Registry

  /** The loaded configuration, the hash and `str.lower`, and whose keys are honest devices'. */
  datatype Env = Env(
    did: DeviceIdOf, lower: Lower, relayId: string, devices: map<string, string>, honest: set<Bytes>)

  /** How far a connection's handler has come. */
  datatype Phase =
    | AwaitingHello
    | Challenged(challenge: SessionChallenge)
    | Open(challenge: SessionChallenge, proof: Message)
    | Acknowledging(challenge: SessionChallenge, proof: Message)
    | Ended

  datatype Publication = Publication(handler: nat, challenge: SessionChallenge, proof: Message, sent: Json,
                                     record: Record)

  /** A frame a handler has put on its connection. */
  datatype Frame = Frame(handler: nat, document: Json)

  /** What the process holds, and its past: the hellos that were answered and the challenges sent to them, the
      frames written, and everything published. */
  datatype World = World(
    registry: RegistryState, phases: seq<Phase>, errors: nat,
    hellos: map<nat, Json>, challenges: map<nat, SessionChallenge>, written: seq<Frame>, publications: seq<Publication>,
    signed: Signatures, log: set<(Bytes, Message)>)

  datatype Event =
    | Connect
    | Hello(h: nat, document: Json, sessionId: string, nonce: Bytes, now: int)
    | Authenticate(h: nat, document: Json, now: int)
    | Telemetry(h: nat, document: Json, now: int)
    | Finish(h: nat)
    | Drop(h: nat, counted: bool)
    | HonestSigns(key: Bytes, message: Message)
    | OutsiderSigns(key: Bytes, payload: string)

  const NEW_WORLD := World(NEW_REGISTRY, [], 0, map[], map[], [], [], {}, {})

  ghost predicate FreshSession(w: World, sessionId: string)
  {
    forall h | h in w.challenges :: w.challenges[h].sessionId != sessionId
  }

  /** Session ids and nonces are fresh; frames are decoded objects; honest devices sign sessions only
      after checking them. */
  ghost predicate Legal(env: Env, w: World, e: Event)
  {
    match e
    case Connect => true
    case Hello(h, document, sessionId, nonce, _) =>
      && h < |w.phases| && w.phases[h].AwaitingHello? && WellFormed(document)
      && FreshSession(w, sessionId) && IsUuid(sessionId) && |nonce| == 32
    case Authenticate(h, document, _) => h < |w.phases| && w.phases[h].Challenged? && WellFormed(document)
    case Telemetry(h, document, _) => h < |w.phases| && w.phases[h].Open? && WellFormed(document)
    case Finish(h) => h < |w.phases| && w.phases[h].Acknowledging?
    case Drop(h, _) => h < |w.phases| && !w.phases[h].Ended?
    case HonestSigns(key, m) =>
      && key in env.honest
      && (m.SessionAuth? ==> exists relayId ::
          SignSession(Identity(env.did(key), key), m.session, relayId, m.signedAt) == Some(m))
    case OutsiderSigns(key, _) => key !in env.honest
  }

  /** The session a handler counts for. */
  function Counted(p: Phase): Option<string>
  {
    if p.Open? || p.Acknowledging? then Some(p.challenge.audience) else None
  }

  /** The handler is done: whatever the reason, an open session is closed. */
  function End(w: World, h: nat, errors: nat): World
    requires h < |w.phases|
  {
    var registry := match Counted(w.phases[h]) case None => w.registry case Some(d) => Closed(w.registry, d);
    w.(registry := registry, phases := w.phases[h := Ended], errors := w.errors + errors)
  }

  /** The device a hello names, if it is enrolled. */
  function HelloVerdict(env: Env, document: Json): Option<string>
  {
    match HelloOf(document)
    case None => None
    case Some(d) => if d in env.devices then Some(d) else None
  }

  /** The message an answer to `c` proves to be signed by the enrolled key. */
  function AuthVerdict(env: Env, signed: Signatures, document: Json, c: SessionChallenge, now: int): Option<Message>
  {
    if c.audience in env.devices && document.Obj?
       && Get(document.fields, "device_public_key") == Some(Str(env.devices[c.audience]))
       && AuthAccepted(env.did, signed, document, c, now)
    then ClaimOf(document.fields, c)
    else None
  }

  function SendChallenge(w: World, h: nat, hello: Json, c: SessionChallenge): World
    requires h < |w.phases|
  {
    w.(phases := w.phases[h := Challenged(c)], hellos := w.hellos[h := hello], challenges := w.challenges[h := c],
       written := w.written + [Frame(h, ChallengeDocument(c))])
  }

  function Admit(w: World, h: nat, c: SessionChallenge, proof: Message, now: int): World
    requires h < |w.phases|
  {
    w.(phases := w.phases[h := Open(c, proof)], registry := Opened(w.registry, c.audience),
       written := w.written + [Frame(h, ReadyDocument(c.sessionId, c.relayId, now))])
  }

  function PublicationOf(h: nat, c: SessionChallenge, proof: Message, sent: Json, snapshot: Json, now: int): Publication
  {
    Publication(h, c, proof, sent, Record(c.audience, 1, now, now, snapshot))
  }

  function Store(w: World, h: nat, p: Publication): World
    requires h < |w.phases|
  {
    w.(phases := w.phases[h := Acknowledging(p.challenge, p.proof)],
       registry := Publish(w.registry, p.record), publications := w.publications + [p],
       written := w.written + [Frame(h, AckDocument(p.challenge.sessionId))])
  }

  ghost function Next(env: Env, w: World, e: Event): World
    requires Legal(env, w, e)
  {
    match e
    case Connect => w.(phases := w.phases + [AwaitingHello])
    case Hello(h, document, sessionId, nonce, now) =>
      (match HelloVerdict(env, document)
       case None => End(w, h, 1)
       case Some(d) => SendChallenge(w, h, document, NewSession(d, env.relayId, sessionId, nonce, now)))
    case Authenticate(h, document, now) =>
      (match AuthVerdict(env, w.signed, document, w.phases[h].challenge, now)
       case None => End(w, h, 1)
       case Some(proof) => Admit(w, h, w.phases[h].challenge, proof, now))
    case Telemetry(h, document, now) =>
      var p := w.phases[h];
      (match AcceptTelemetry(env.lower, document, p.challenge.sessionId)
       case None => End(w, h, 1)
       case Some(snapshot) =>
         if p.challenge.audience !in env.devices then End(w, h, 1)
         else Store(w, h, PublicationOf(h, p.challenge, p.proof, SnapshotOf(document), snapshot, now)))
    case Finish(h) => End(w, h, 0)
    case Drop(h, counted) => End(w, h, if counted then 1 else 0)
    case HonestSigns(key, m) => w.(signed := w.signed + {(key, Payload(m))}, log := w.log + {(key, m)})
    case OutsiderSigns(key, payload) => w.(signed := w.signed + {(key, payload)})
  }

  ghost predicate Reaches(env: Env, w: World, events: seq<Event>, final: World)
    decreases |events|
  {
    if events == [] then final == w
    else Legal(env, w, events[0]) && Reaches(env, Next(env, w, events[0]), events[1..], final)
  }

  // ---- Counting sessions ----

  /** How many handlers have an authenticated session of the device. */
  function OpenSessions(phases: seq<Phase>, deviceId: string): nat
  {
    if phases == [] then 0
    else (if Counted(phases[0]) == Some(deviceId) then 1 else 0) + OpenSessions(phases[1..], deviceId)
  }

  lemma {:induction false} SessionsUpdate(phases: seq<Phase>, h: nat, p: Phase, d: string)
    requires h < |phases|
    ensures OpenSessions(phases[h := p], d)
         == OpenSessions(phases, d)
            + (if Counted(p) == Some(d) then 1 else 0) - (if Counted(phases[h]) == Some(d) then 1 else 0)
  {
    if h == 0 {
      assert phases[h := p][1..] == phases[1..];
    } else {
      SessionsUpdate(phases[1..], h - 1, p, d);
      assert phases[h := p][1..] == phases[1..][h - 1 := p];
    }
  }

  lemma {:induction false} SessionsAppend(phases: seq<Phase>, p: Phase, d: string)
    ensures OpenSessions(phases + [p], d) == OpenSessions(phases, d) + if Counted(p) == Some(d) then 1 else 0
  {
    if phases == [] {
      assert phases + [p] == [p] && [p][1..] == [];
    } else {
      SessionsAppend(phases[1..], p, d);
      assert (phases + [p])[1..] == phases[1..] + [p];
    }
  }

  lemma {:induction false} SessionsPositive(phases: seq<Phase>, h: nat, d: string)
    requires h < |phases| && Counted(phases[h]) == Some(d)
    ensures OpenSessions(phases, d) > 0
  {
    if h > 0 {
      SessionsPositive(phases[1..], h - 1, d);
    }
  }

  lemma {:induction false} NoSessions(phases: seq<Phase>, d: string)
    requires forall h | 0 <= h < |phases| :: Counted(phases[h]) != Some(d)
    ensures OpenSessions(phases, d) == 0
  {
    if phases != [] {
      NoSessions(phases[1..], d);
    }
  }

  ghost predicate CountsAgree(w: World)
  {
    forall d :: Active(w.registry, d) == OpenSessions(w.phases, d)
  }

  lemma EndCounts(w: World, h: nat, errors: nat)
    requires CountsAgree(w) && h < |w.phases|
    ensures CountsAgree(End(w, h, errors))
    ensures Counted(w.phases[h]).Some? ==> Active(w.registry, Counted(w.phases[h]).value) > 0
  {
    var w' := End(w, h, errors);
    if Counted(w.phases[h]).Some? {
      SessionsPositive(w.phases, h, Counted(w.phases[h]).value);
    }
    forall d ensures Active(w'.registry, d) == OpenSessions(w'.phases, d) {
      SessionsUpdate(w.phases, h, Ended, d);
    }
  }

  lemma ChallengeCounts(w: World, h: nat, hello: Json, c: SessionChallenge)
    requires CountsAgree(w) && h < |w.phases| && Counted(w.phases[h]) == None
    ensures CountsAgree(SendChallenge(w, h, hello, c))
  {
    var w' := SendChallenge(w, h, hello, c);
    forall d ensures Active(w'.registry, d) == OpenSessions(w'.phases, d) {
      SessionsUpdate(w.phases, h, Challenged(c), d);
    }
  }

  lemma AdmitCounts(w: World, h: nat, c: SessionChallenge, proof: Message, now: int)
    requires CountsAgree(w) && h < |w.phases| && Counted(w.phases[h]) == None
    ensures CountsAgree(Admit(w, h, c, proof, now))
  {
    var w' := Admit(w, h, c, proof, now);
    forall d ensures Active(w'.registry, d) == OpenSessions(w'.phases, d) {
      SessionsUpdate(w.phases, h, Open(c, proof), d);
    }
  }

  lemma StoreCounts(w: World, h: nat, p: Publication)
    requires CountsAgree(w) && h < |w.phases| && Counted(w.phases[h]) == Some(p.challenge.audience)
    ensures CountsAgree(Store(w, h, p))
  {
    forall d ensures Active(Store(w, h, p).registry, d) == OpenSessions(Store(w, h, p).phases, d) {
      SessionsUpdate(w.phases, h, Acknowledging(p.challenge, p.proof), d);
    }
  }

  lemma ConnectCounts(w: World)
    requires CountsAgree(w)
    ensures CountsAgree(w.(phases := w.phases + [AwaitingHello]))
  {
    forall d ensures OpenSessions(w.phases + [AwaitingHello], d) == OpenSessions(w.phases, d) {
      SessionsAppend(w.phases, AwaitingHello, d);
    }
  }
}
