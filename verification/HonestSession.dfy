/** What an honest device sends in a session, over the encoded stream, passes every check of the receiver. */
module HonestSession {
  import opened Prelude
  import opened Text
  import opened Base64
  import opened Json
  import opened JsonText
  import opened Frames
  import opened Messages
  import opened Privacy
  import opened Snapshots
  import opened Enrollment
  import opened Sessions
  import opened SessionTelemetry
  import opened Receiver
  import opened FrameSizes

  /** What the peer decodes when this document is written to an otherwise empty stream. */
  function Delivered(document: Json): (r: Json)
    requires Sendable(document)
    ensures r.Obj? && WellFormed(r)
  {
    ReadWritten(document, "");
    assert WriteFrame(document).value + "" == WriteFrame(document).value;
    ReadFrame(WriteFrame(document).value).outcome.value
  }

  lemma DeliveredFields(document: Json)
    requires Sendable(document)
    ensures Delivered(document) == Obj(Received(document))
  {
    ReadWritten(document, "");
    assert WriteFrame(document).value + "" == WriteFrame(document).value;
  }

  lemma HelloFields(deviceId: string)
    ensures var fs := HelloDocument(deviceId).fields;
            WellFormed(Obj(fs)) && KeysAre(fs, HELLO_KEYS)
  {
    var fs := HelloDocument(deviceId).fields;
    assert Distinct(fs);
    ListedKeys(fs, HELLO_KEYS);
  }

  lemma HelloLength(deviceId: string)
    requires |deviceId| == 30
    ensures |Canonical(HelloDocument(deviceId))| + 1 <= MAX_FRAME_BYTES
  {
    var a, b := Field("protocol_version", Num(1)), Field("type", Str("agent.hello"));
    var c := Field("device_id", Str(deviceId));
    ScalarLengths("agent.hello");
    ScalarLengths(deviceId);
    AllowancesOfThree(a, b, c);
    ObjectLength([a, b, c]);
  }

  lemma HelloFits(deviceId: string)
    requires IsDeviceId(deviceId)
    ensures Sendable(HelloDocument(deviceId))
  {
    HelloFields(deviceId);
    HelloLength(deviceId);
  }

  lemma AllowancesOfThree(a: Field, b: Field, c: Field)
    ensures Allowances([a, b, c]) == Allowance(a) + Allowance(b) + Allowance(c)
  {
    AllowancesCons(a, [b, c]);
    AllowancesCons(b, [c]);
    AllowancesCons(c, []);
    assert [a, b, c] == [a] + [b, c] && [b, c] == [b] + [c] && [c] == [c] + [];
  }

  lemma HelloAccepted(deviceId: string)
    requires IsDeviceId(deviceId)
    ensures Sendable(HelloDocument(deviceId)) && HelloOf(Delivered(HelloDocument(deviceId))) == Some(deviceId)
  {
    var document := HelloDocument(deviceId);
    HelloFits(deviceId);
    HelloFields(deviceId);
    DeliveredFields(document);
    var gs := Received(document);
    SameKeys(document.fields, gs, HELLO_KEYS);
    FieldArrives(document.fields, gs, 0);
    FieldArrives(document.fields, gs, 1);
    FieldArrives(document.fields, gs, 2);
  }

  /** An honest device that is enrolled, and the challenge of its session. */
  ghost predicate Party(env: Env, id: Identity, c: SessionChallenge)
  {
    && |id.key| == 32 && env.did(id.key) == id.deviceId && IsDeviceId(id.deviceId) && id.key in env.honest
    && id.deviceId in env.devices && env.devices[id.deviceId] == Encode(id.key)
    && c.audience == id.deviceId && c.relayId == env.relayId
  }

  lemma AnswerVerdict(env: Env, id: Identity, c: SessionChallenge, at: int, signature: Bytes, signed: Signatures,
                      now: int)
    requires Party(env, id, c) && |signature| == 64
    requires SignSession(id, c, env.relayId, at).Some?
    requires (id.key, Payload(SignSession(id, c, env.relayId, at).value)) in signed
    requires ValidSession(c, id.deviceId, env.relayId, now)
    requires Sendable(AuthDocument(SignSession(id, c, env.relayId, at).value, Encode(signature)))
    ensures var m := SignSession(id, c, env.relayId, at).value;
            AuthVerdict(env, signed, Delivered(AuthDocument(m, Encode(signature))), c, now) == Some(m)
  {
    var m := SignSession(id, c, env.relayId, at).value;
    var document := AuthDocument(m, Encode(signature));
    HonestAnswerAccepted(env.did, id, c, env.relayId, at, signature, signed, now, "");
    DeliveredFields(document);
    ReadWritten(document, "");
    ReceivedClaims(m, Encode(signature), Received(document));
  }

  /** The events of one session: what the device sends, and its one signature. */
  datatype Exchange = Exchange(
    hello: Json, sessionId: string, nonce: Bytes, issued: int, key: Bytes, proof: Message,
    answer: Json, verified: int, envelope: Json, received: int)

  /** Each of the session's documents passes the check that awaits it: the hello names an enrolled device, the
      answer proves the signature, and the telemetry is filtered. */
  ghost predicate Sound(env: Env, x: Exchange, c: SessionChallenge, snapshot: Json)
  {
    && IsUuid(x.sessionId) && |x.nonce| == 32
    && WellFormed(x.hello) && WellFormed(x.answer) && WellFormed(x.envelope)
    && HelloVerdict(env, x.hello) == Some(c.audience) && c.audience in env.devices
    && c == NewSession(c.audience, env.relayId, x.sessionId, x.nonce, x.issued)
    && Legal(env, NEW_WORLD, HonestSigns(x.key, x.proof))
    && AuthVerdict(env, {(x.key, Payload(x.proof))}, x.answer, c, x.verified) == Some(x.proof)
    && AcceptTelemetry(env.lower, x.envelope, x.sessionId) == Some(snapshot)
  }

  /** More signatures never turn an accepted answer away. */
  lemma VerdictGrows(env: Env, s: Signatures, t: Signatures, document: Json, c: SessionChallenge, now: int)
    requires s <= t && AuthVerdict(env, s, document, c, now).Some?
    ensures AuthVerdict(env, t, document, c, now) == AuthVerdict(env, s, document, c, now)
  {
  }

  /** What an honest device sends in a session, as the receiver decodes it. */
  ghost function HonestExchange(env: Env, id: Identity, c: SessionChallenge, nonce: Bytes, at: int, signature: Bytes,
                                verified: int, snapshot: Json, received: int): Exchange
    requires Sendable(HelloDocument(id.deviceId)) && Sendable(Envelope(c.sessionId, snapshot))
    requires Sendable(AuthDocument(SessionAuth(c, id.deviceId, Encode(id.key), at), Encode(signature)))
  {
    var m := SessionAuth(c, id.deviceId, Encode(id.key), at);
    Exchange(Delivered(HelloDocument(id.deviceId)), c.sessionId, nonce, c.issued, id.key, m,
             Delivered(AuthDocument(m, Encode(signature))), verified, Delivered(Envelope(c.sessionId, snapshot)),
             received)
  }

  /** What an enrolled honest device sends is sound, if its clock, and later the receiver's, find the challenge
      valid; and what the receiver would publish is its whole filtered snapshot. */
  lemma HonestExchangeIsSound(env: Env, id: Identity, sessionId: string, nonce: Bytes, issued: int, at: int,
                              signature: Bytes, verified: int, document: Json, received: int) returns (published: Json)
    requires IsUuid(sessionId) && |nonce| == 32 && |signature| == 64
    requires Party(env, id, NewSession(id.deviceId, env.relayId, sessionId, nonce, issued))
    requires issued - SESSION_CLOCK_SKEW <= at < issued + 60 * SECOND
    requires issued - SESSION_CLOCK_SKEW <= verified < issued + 60 * SECOND
    requires IsName(env.relayId) && IsTime(issued) && IsTime(issued + 60 * SECOND) && IsTime(at)
    requires WellFormed(document) && Sanitize(env.lower, document).Ok?
    ensures var c := NewSession(id.deviceId, env.relayId, sessionId, nonce, issued);
            var snapshot := Sanitize(env.lower, document).value;
            && Sendable(HelloDocument(id.deviceId)) && Sendable(Envelope(sessionId, snapshot))
            && Sendable(AuthDocument(SessionAuth(c, id.deviceId, Encode(id.key), at), Encode(signature)))
            && Same(snapshot, published)
            && Sound(env, HonestExchange(env, id, c, nonce, at, signature, verified, snapshot, received), c, published)
  {
    var c := NewSession(id.deviceId, env.relayId, sessionId, nonce, issued);
    var snapshot := Sanitize(env.lower, document).value;
    HelloAccepted(id.deviceId);
    DeliveredEnvelope(env.lower, document, sessionId);
    HonestAnswerFits(env.relayId, id, sessionId, nonce, issued, at, signature);
    var x := HonestExchange(env, id, c, nonce, at, signature, verified, snapshot, received);
    ChallengeLasts(id.deviceId, env.relayId, sessionId, nonce, issued, at);
    ChallengeLasts(id.deviceId, env.relayId, sessionId, nonce, issued, verified);
    SigningIsLegal(env, NEW_WORLD, id, c, at);
    AnswerVerdict(env, id, c, at, signature, {(x.key, Payload(x.proof))}, verified);
    published := AcceptTelemetry(env.lower, x.envelope, sessionId).value;
    assert HelloVerdict(env, x.hello) == Some(id.deviceId);
  }

  lemma HonestAnswerFits(relayId: string, id: Identity, sessionId: string, nonce: Bytes, issued: int, at: int,
                         signature: Bytes)
    requires IsUuid(sessionId) && |nonce| == 32 && |signature| == 64 && |id.key| == 32 && IsDeviceId(id.deviceId)
    requires IsName(relayId) && IsTime(issued) && IsTime(issued + 60 * SECOND) && IsTime(at)
    ensures var c := NewSession(id.deviceId, relayId, sessionId, nonce, issued);
            Ordinary(c) && Sendable(AuthDocument(SessionAuth(c, id.deviceId, Encode(id.key), at), Encode(signature)))
  {
    EncodeShape(nonce);
    EncodeShape(id.key);
    var c := NewSession(id.deviceId, relayId, sessionId, nonce, issued);
    AnswerFits(SessionAuth(c, id.deviceId, Encode(id.key), at), signature);
  }

  lemma ChallengeLasts(deviceId: string, relayId: string, sessionId: string, nonce: Bytes, issued: int, now: int)
    requires IsUuid(sessionId) && |nonce| == 32 && issued - SESSION_CLOCK_SKEW <= now < issued + 60 * SECOND
    ensures ValidSession(NewSession(deviceId, relayId, sessionId, nonce, issued), deviceId, relayId, now)
  {
    DecodeKeyEncoded(nonce);
  }

  lemma DeliveredEnvelope(lower: Lower, document: Json, sessionId: string)
    requires WellFormed(document) && Sanitize(lower, document).Ok? && IsUuid(sessionId)
    ensures var envelope := Envelope(sessionId, Sanitize(lower, document).value);
            && Sendable(envelope)
            && AcceptTelemetry(lower, Delivered(envelope), sessionId).Some?
            && Same(Sanitize(lower, document).value, AcceptTelemetry(lower, Delivered(envelope), sessionId).value)
  {
    var envelope := Envelope(sessionId, Sanitize(lower, document).value);
    HonestTelemetryAccepted(lower, document, sessionId, "");
    assert WriteFrame(envelope).value + "" == WriteFrame(envelope).value;
  }

  lemma SigningIsLegal(env: Env, w: World, id: Identity, c: SessionChallenge, at: int)
    requires Party(env, id, c) && SignSession(id, c, env.relayId, at).Some?
    ensures Legal(env, w, HonestSigns(id.key, SignSession(id, c, env.relayId, at).value))
  {
    var m := SignSession(id, c, env.relayId, at).value;
    assert Identity(env.did(id.key), id.key) == id;
    assert SignSession(Identity(env.did(id.key), id.key), m.session, env.relayId, m.signedAt) == Some(m);
  }
}
