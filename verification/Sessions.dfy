/**
 Session challenges and their authentication: what a device signs, and which JSON documents the
 receiver takes for a signed answer to the challenge it sent.
 */
module Sessions {
  import opened Prelude
  import opened Text
  import opened Base64
  import opened Json
  import opened JsonText
  import opened CanonicalJson
  import opened Frames
  import opened Messages
  import opened Snapshots
  import opened Enrollment
  import opened RelayConfig

  const MAX_SESSION_LIFETIME := 120 * SECOND
  const SESSION_CLOCK_SKEW := 30 * SECOND

  /** `_validate_session_challenge`. */
  predicate ValidSession(c: SessionChallenge, deviceId: string, relayId: string, now: int)
  {
    && IsUuid(c.sessionId)
    && c.relayId == relayId
    && c.audience == deviceId
    && DecodeKey(c.nonce).Some?
    && c.issued < c.expires <= c.issued + MAX_SESSION_LIFETIME
    && c.issued <= now + SESSION_CLOCK_SKEW
    && now < c.expires
  }

  /** `create_session_challenge` with the receiver's lifetime of one minute. */
  function NewSession(deviceId: string, relayId: string, sessionId: string, nonce: Bytes, now: int): SessionChallenge
  {
    SessionChallenge(sessionId, relayId, Encode(nonce), deviceId, now, now + 60 * SECOND)
  }

  /** `sign_session_challenge`: the message signed, or None when the challenge is refused. */
  function SignSession(id: Identity, c: SessionChallenge, relayId: string, now: int): Option<Message>
  {
    if ValidSession(c, id.deviceId, relayId, now) then Some(SessionAuth(c, id.deviceId, Encode(id.key), now)) else None
  }

  // ---- Documents ----

  /** The dict has exactly these keys. */
  predicate KeysAre(fs: seq<Field>, keys: seq<string>)
  {
    && (forall k | k in keys :: HasKey(fs, k))
    && (forall i | 0 <= i < |fs| :: fs[i].key in keys)
  }

  function Without(fs: seq<Field>, key: string): seq<Field>
  {
    if fs == [] then [] else (if fs[0].key == key then [] else [fs[0]]) + Without(fs[1..], key)
  }

  lemma GetCons(f: Field, fs: seq<Field>, k: string)
    ensures Get([f] + fs, k) == if f.key == k then Some(f.value) else Get(fs, k)
  {
    assert ([f] + fs)[1..] == fs;
  }

  lemma {:induction false} GetWithout(fs: seq<Field>, key: string, k: string)
    ensures Get(Without(fs, key), k) == if k == key then None else Get(fs, k)
  {
    if fs != [] {
      var f, rest := fs[0], fs[1..];
      assert fs == [f] + rest;
      GetWithout(rest, key, k);
      GetCons(f, rest, k);
      GetCons(f, Without(rest, key), k);
      WithoutStep(fs, key);
    }
  }

  lemma WithoutStep(fs: seq<Field>, key: string)
    requires fs != []
    ensures Without(fs, key) == if fs[0].key == key then Without(fs[1..], key) else [fs[0]] + Without(fs[1..], key)
  {
  }

  lemma {:induction false} WithoutMembers(fs: seq<Field>, key: string)
    ensures forall f :: f in Without(fs, key) <==> f in fs && f.key != key
  {
    if fs != [] {
      WithoutMembers(fs[1..], key);
      WithoutStep(fs, key);
    }
  }

  lemma {:induction false} WithoutDistinct(fs: seq<Field>, key: string)
    requires Distinct(fs)
    ensures Distinct(Without(fs, key))
  {
    if fs != [] {
      WithoutDistinct(fs[1..], key);
      WithoutMembers(fs[1..], key);
      WithoutStep(fs, key);
      var rest := Without(fs[1..], key);
      forall i | 0 <= i < |rest| ensures rest[i].key != fs[0].key {
        assert rest[i] in fs[1..];
      }
    }
  }

  lemma WithoutWellFormed(fs: seq<Field>, key: string)
    requires WellFormed(Obj(fs))
    ensures WellFormed(Obj(Without(fs, key)))
  {
    WithoutDistinct(fs, key);
    WithoutMembers(fs, key);
    var rest := Without(fs, key);
    forall i | 0 <= i < |rest| ensures WellFormed(rest[i].value) {
      assert rest[i] in fs;
    }
  }

  const HELLO_KEYS := ["protocol_version", "type", "device_id"]

  function HelloDocument(deviceId: string): Json
  {
    Obj([Field("protocol_version", Num(1)), Field("type", Str("agent.hello")), Field("device_id", Str(deviceId))])
  }

  /** `validate_agent_hello`. */
  function HelloOf(document: Json): Option<string>
  {
    if document.Obj? && KeysAre(document.fields, HELLO_KEYS)
       && Get(document.fields, "protocol_version") == Some(Num(1))
       && Get(document.fields, "type") == Some(Str("agent.hello"))
    then
      match Get(document.fields, "device_id")
      case Some(Str(deviceId)) => if IsDeviceId(deviceId) then Some(deviceId) else None
      case _ => None
    else None
  }

  const READY_KEYS := ["protocol_version", "type", "session_id", "challenge_id", "relay_id", "accepted_at"]

  /** The receiver's word that a session is open. */
  function ReadyDocument(sessionId: string, relayId: string, acceptedAt: int): Json
  {
    Obj([ Field("protocol_version", Num(1)), Field("type", Str("relay.session-ready")),
          Field("session_id", Str(sessionId)), Field("challenge_id", Str(sessionId)),
          Field("relay_id", Str(relayId)), Field("accepted_at", Num(acceptedAt)) ])
  }

  const ACK_KEYS := ["protocol_version", "type", "session_id", "sequence"]

  /** The receiver's word that a session's telemetry is published. */
  function AckDocument(sessionId: string): Json
  {
    Obj([ Field("protocol_version", Num(1)), Field("type", Str("relay.telemetry-ack")),
          Field("session_id", Str(sessionId)), Field("sequence", Num(1)) ])
  }

  function ChallengeDocument(c: SessionChallenge): Json
  {
    Obj(SessionFields(c))
  }

  const AUTH_KEYS :=
    ["protocol_version", "type", "challenge", "device_id", "device_public_key", "signed_at", "signature"]

  function AuthDocument(m: Message, signature: string): Json
  {
    Obj(MessageFields(m) + [Field("signature", Str(signature))])
  }

  /** The fields say, next to a signature, what the message `m` says. */
  predicate Claims(fs: seq<Field>, m: Message)
    requires m.SessionAuth?
  {
    KeysAre(fs, AUTH_KEYS) && Says(fs, m)
  }

  predicate Says(fs: seq<Field>, m: Message)
    requires m.SessionAuth?
  {
    && Get(fs, "protocol_version") == Some(Num(1))
    && Get(fs, "type") == Some(Str("agent.session-auth"))
    && SameOption(Get(fs, "challenge"), Some(Obj(SessionFields(m.session))))
    && Get(fs, "device_id") == Some(Str(m.deviceId))
    && Get(fs, "device_public_key") == Some(Str(m.deviceKey))
    && Get(fs, "signed_at") == Some(Num(m.signedAt))
  }

  /** The message a document claims to be, if its scalar fields have the right types. */
  function ClaimOf(fs: seq<Field>, expected: SessionChallenge): (r: Option<Message>)
    ensures r.Some? ==> r.value.SessionAuth? && r.value.session == expected
  {
    match (Get(fs, "device_id"), Get(fs, "device_public_key"), Get(fs, "signed_at"))
    case (Some(Str(deviceId)), Some(Str(deviceKey)), Some(Num(at))) =>
      Some(SessionAuth(expected, deviceId, deviceKey, at))
    case _ => None
  }

  predicate HasSignature(fs: seq<Field>)
  {
    match Get(fs, "signature")
    case Some(Str(text)) => Decode(text).Some? && |Decode(text).value| == 64
    case _ => false
  }

  function SignedPart(fs: seq<Field>): string
  {
    SESSION_SIGNATURE_DOMAIN + Canonical(Obj(Without(fs, "signature")))
  }

  /** `verify_session_auth`: the document answers exactly this challenge, in time, under a key that names
      its device, and that key has signed the rest of the document. */
  predicate AuthAccepted(did: DeviceIdOf, signed: Signatures, document: Json, expected: SessionChallenge, now: int)
  {
    && document.Obj?
    && ClaimOf(document.fields, expected).Some?
    && var m := ClaimOf(document.fields, expected).value;
       && Claims(document.fields, m)
       && DecodeKey(m.deviceKey).Some?
       && HasSignature(document.fields)
       && did(DecodeKey(m.deviceKey).value) == m.deviceId
       && ValidSession(expected, m.deviceId, expected.relayId, now)
       && expected.issued - SESSION_CLOCK_SKEW <= m.signedAt < expected.expires
       && (DecodeKey(m.deviceKey).value, SignedPart(document.fields)) in signed
  }

  // ---- What the receiver verifies is the signed message ----

  /** Objects that agree on the keys of the second, which are all the keys of the first, are equal. */
  lemma SameListed(fs: seq<Field>, gs: seq<Field>)
    requires Distinct(fs) && Distinct(gs)
    requires forall i | 0 <= i < |fs| :: HasKey(gs, fs[i].key)
    requires forall j | 0 <= j < |gs| :: SameOption(Get(fs, gs[j].key), Some(gs[j].value))
    ensures Same(Obj(fs), Obj(gs))
  {
    forall i | 0 <= i < |fs| ensures Get(gs, fs[i].key).Some? && Same(fs[i].value, Get(gs, fs[i].key).value) {
      assert HasKey(gs, fs[i].key);
      var j :| 0 <= j < |gs| && gs[j].key == fs[i].key;
      GetAt(gs, j);
      GetAt(fs, i);
    }
  }

  lemma AuthKeys(m: Message)
    requires m.SessionAuth?
    ensures |AUTH_KEYS| == 7 && AUTH_KEYS[6] == "signature" && |MessageFields(m)| == 6
    ensures forall j | 0 <= j < 6 :: MessageFields(m)[j].key == AUTH_KEYS[j] && AUTH_KEYS[j] != "signature"
  {
  }

  predicate Carries(fs: seq<Field>, f: Field)
  {
    SameOption(Get(fs, f.key), Some(f.value))
  }

  lemma CarriesScalar(fs: seq<Field>, f: Field)
    requires Get(fs, f.key) == Some(f.value) && (f.value.Num? || f.value.Str?)
    ensures Carries(fs, f)
  {
  }

  lemma AuthFields(m: Message)
    requires m.SessionAuth?
    ensures MessageFields(m) ==
      [ Field("protocol_version", Num(1)), Field("type", Str("agent.session-auth")),
        Field("challenge", Obj(SessionFields(m.session))), Field("device_id", Str(m.deviceId)),
        Field("device_public_key", Str(m.deviceKey)), Field("signed_at", Num(m.signedAt)) ]
  {
  }

  predicate CarriesAll(fs: seq<Field>, gs: seq<Field>)
  {
    forall j | 0 <= j < |gs| :: Carries(fs, gs[j])
  }

  lemma ClaimedFields(fs: seq<Field>, m: Message)
    requires m.SessionAuth? && Says(fs, m)
    ensures CarriesAll(fs, MessageFields(m))
  {
    AuthFields(m);
    var version, kind, challenge := Field("protocol_version", Num(1)), Field("type", Str("agent.session-auth")),
                                    Field("challenge", Obj(SessionFields(m.session)));
    var id, key, at := Field("device_id", Str(m.deviceId)), Field("device_public_key", Str(m.deviceKey)),
                       Field("signed_at", Num(m.signedAt));
    CarriesScalar(fs, version);
    CarriesScalar(fs, kind);
    assert Carries(fs, challenge);
    CarriesScalar(fs, id);
    CarriesScalar(fs, key);
    CarriesScalar(fs, at);
    CarriesSix(fs, version, kind, challenge, id, key, at);
  }

  lemma CarriesSix(fs: seq<Field>, a: Field, b: Field, c: Field, d: Field, e: Field, f: Field)
    requires Carries(fs, a) && Carries(fs, b) && Carries(fs, c) && Carries(fs, d) && Carries(fs, e) && Carries(fs, f)
    ensures CarriesAll(fs, [a, b, c, d, e, f])
  {
  }

  /** What is left without the signature is the message's document. */
  lemma WithoutSignature(fs: seq<Field>, gs: seq<Field>)
    requires Distinct(fs) && Distinct(gs) && KeysAre(fs, AUTH_KEYS) && |gs| == 6
    requires forall j | 0 <= j < 6 :: gs[j].key == AUTH_KEYS[j] && AUTH_KEYS[j] != "signature"
    requires CarriesAll(fs, gs)
    ensures Same(Obj(Without(fs, "signature")), Obj(gs))
  {
    var rest := Without(fs, "signature");
    WithoutMembers(fs, "signature");
    WithoutDistinct(fs, "signature");
    forall i | 0 <= i < |rest| ensures HasKey(gs, rest[i].key) {
      assert rest[i] in rest;
      var j :| 0 <= j < 7 && AUTH_KEYS[j] == rest[i].key;
      assert gs[j].key == rest[i].key;
    }
    forall j | 0 <= j < |gs| ensures SameOption(Get(rest, gs[j].key), Some(gs[j].value)) {
      GetWithout(fs, "signature", gs[j].key);
      assert Carries(fs, gs[j]);
    }
    SameListed(rest, gs);
  }

  /** In whatever order the fields arrive, what is verified is the payload of the message they claim. */
  lemma SignedPartIsPayload(fs: seq<Field>, m: Message)
    requires WellFormed(Obj(fs)) && m.SessionAuth? && Claims(fs, m)
    ensures SignedPart(fs) == Payload(m)
  {
    AuthKeys(m);
    MessageDistinct(m);
    WithoutWellFormed(fs, "signature");
    ClaimedFields(fs, m);
    WithoutSignature(fs, MessageFields(m));
    DocumentWellFormed(m);
    CanonicalIffSame(Obj(Without(fs, "signature")), Document(m));
  }

  /** An accepted authentication means that the key it names signed exactly this session's challenge. */
  lemma AcceptedMeansSigned(did: DeviceIdOf, signed: Signatures, document: Json, expected: SessionChallenge, now: int)
    requires WellFormed(document) && AuthAccepted(did, signed, document, expected, now)
    ensures var m := ClaimOf(document.fields, expected).value;
            && DecodeKey(m.deviceKey).Some?
            && (DecodeKey(m.deviceKey).value, Payload(m)) in signed
            && did(DecodeKey(m.deviceKey).value) == m.deviceId == expected.audience
  {
    SignedPartIsPayload(document.fields, ClaimOf(document.fields, expected).value);
  }

  /** No document is an answer to two challenges. */
  lemma OneChallengePerDocument(did: DeviceIdOf, s: Signatures, t: Signatures, document: Json,
                                c: SessionChallenge, d: SessionChallenge, now: int, later: int)
    requires WellFormed(document)
    requires AuthAccepted(did, s, document, c, now) && AuthAccepted(did, t, document, d, later)
    ensures c == d
  {
    var v := Get(document.fields, "challenge").value;
    GetWellFormed(document.fields, "challenge");
    SessionWellFormed(c);
    SessionWellFormed(d);
    SameIffNormal(v, Obj(SessionFields(c)));
    SameIffNormal(v, Obj(SessionFields(d)));
    SameIffNormal(Obj(SessionFields(c)), Obj(SessionFields(d)));
    SameSessions(c, d);
  }

  // ---- What an honest device signs is accepted ----

  lemma SameKeys(fs: seq<Field>, gs: seq<Field>, keys: seq<string>)
    requires Same(Obj(fs), Obj(gs)) && KeysAre(fs, keys)
    ensures KeysAre(gs, keys)
  {
    forall k | k in keys ensures HasKey(gs, k) {
      var i :| 0 <= i < |fs| && fs[i].key == k;
      assert Get(gs, fs[i].key).Some?;
    }
    forall j | 0 <= j < |gs| ensures gs[j].key in keys {
      assert HasKey(fs, gs[j].key);
    }
  }

  lemma ListedKeys(fs: seq<Field>, keys: seq<string>)
    requires |fs| == |keys| && forall j | 0 <= j < |fs| :: fs[j].key == keys[j]
    ensures KeysAre(fs, keys)
  {
    forall k | k in keys ensures HasKey(fs, k) {
      var j :| 0 <= j < |keys| && keys[j] == k;
      assert fs[j].key == k;
    }
  }

  lemma AuthDocumentFields(m: Message, signature: string)
    requires m.SessionAuth?
    ensures var fs := AuthDocument(m, signature).fields;
            && Distinct(fs) && WellFormed(Obj(fs)) && KeysAre(fs, AUTH_KEYS) && |fs| == 7
            && fs[..6] == MessageFields(m) && fs[6] == Field("signature", Str(signature))
  {
    var fs := AuthDocument(m, signature).fields;
    AuthKeys(m);
    DocumentWellFormed(m);
    assert fs[..6] == MessageFields(m);
    forall j | 0 <= j < 7 ensures fs[j].key == AUTH_KEYS[j] && WellFormed(fs[j].value) {
      assert j < 6 ==> fs[j] == fs[..6][j];
    }
    ListedKeys(fs, AUTH_KEYS);
  }

  /** The received dict has this field. */
  predicate Arrived(gs: seq<Field>, f: Field)
  {
    SameOption(Get(gs, f.key), Some(f.value)) && (f.value.Num? || f.value.Str? ==> Get(gs, f.key) == Some(f.value))
  }

  lemma FieldArrives(fs: seq<Field>, gs: seq<Field>, j: nat)
    requires WellFormed(Obj(fs)) && WellFormed(Obj(gs)) && j < |fs| && Same(Obj(fs), Obj(gs))
    ensures Arrived(gs, fs[j])
  {
    GetAt(fs, j);
    SameGetOption(fs, gs, fs[j].key);
    GetWellFormed(gs, fs[j].key);
    assert WellFormed(fs[j].value);
    SameSymmetric(fs[j].value, Get(gs, fs[j].key).value);
  }

  lemma ArrivedSays(m: Message, gs: seq<Field>)
    requires m.SessionAuth? && forall j | 0 <= j < |MessageFields(m)| :: Arrived(gs, MessageFields(m)[j])
    ensures Says(gs, m)
  {
    var fs := MessageFields(m);
    AuthFields(m);
    assert Arrived(gs, fs[0]) && Arrived(gs, fs[1]) && Arrived(gs, fs[2]);
    assert Arrived(gs, fs[3]) && Arrived(gs, fs[4]) && Arrived(gs, fs[5]);
  }

  /** However its fields arrive, the document still says what was signed. */
  lemma ReceivedClaims(m: Message, signature: string, gs: seq<Field>)
    requires m.SessionAuth? && WellFormed(Obj(gs)) && Same(AuthDocument(m, signature), Obj(gs))
    ensures Claims(gs, m) && Get(gs, "signature") == Some(Str(signature))
  {
    var fs := AuthDocument(m, signature).fields;
    AuthDocumentFields(m, signature);
    SameKeys(fs, gs, AUTH_KEYS);
    forall j | 0 <= j < |MessageFields(m)| ensures Arrived(gs, MessageFields(m)[j]) {
      FieldArrives(fs, gs, j);
      assert fs[j] == fs[..6][j];
    }
    ArrivedSays(m, gs);
    FieldArrives(fs, gs, 6);
  }

  lemma ClaimAccepted(did: DeviceIdOf, signed: Signatures, gs: seq<Field>, m: Message, key: Bytes, now: int)
    requires WellFormed(Obj(gs)) && m.SessionAuth? && Claims(gs, m) && HasSignature(gs)
    requires DecodeKey(m.deviceKey) == Some(key) && did(key) == m.deviceId && (key, Payload(m)) in signed
    requires ValidSession(m.session, m.deviceId, m.session.relayId, now)
    requires m.session.issued - SESSION_CLOCK_SKEW <= m.signedAt < m.session.expires
    ensures AuthAccepted(did, signed, Obj(gs), m.session, now)
  {
    SignedPartIsPayload(gs, m);
    assert ClaimOf(gs, m.session) == Some(m);
  }

  /** The answer of a device that accepted the challenge crosses the stream and is accepted while the
      challenge lasts: the two time checks agree, and so do the two encodings. */
  lemma HonestAnswerAccepted(did: DeviceIdOf, id: Identity, c: SessionChallenge, relayId: string, at: int,
                             signature: Bytes, signed: Signatures, now: int, rest: string)
    requires |id.key| == 32 && did(id.key) == id.deviceId && |signature| == 64
    requires SignSession(id, c, relayId, at).Some? && (id.key, Payload(SignSession(id, c, relayId, at).value)) in signed
    requires ValidSession(c, id.deviceId, relayId, now)
    requires Sendable(AuthDocument(SignSession(id, c, relayId, at).value, Encode(signature)))
    ensures var document := AuthDocument(SignSession(id, c, relayId, at).value, Encode(signature));
            var r := ReadFrame(WriteFrame(document).value + rest);
            r.rest == rest && r.outcome.Ok? && AuthAccepted(did, signed, r.outcome.value, c, now)
  {
    var m := SignSession(id, c, relayId, at).value;
    var document := AuthDocument(m, Encode(signature));
    ReadWritten(document, rest);
    var gs := Received(document);
    ReceivedClaims(m, Encode(signature), gs);
    DecodeKeyEncoded(id.key);
    DecodeEncode(signature);
    ClaimAccepted(did, signed, gs, m, id.key, now);
  }

  /** The fields of an object as they come out of the decoder. */
  function Received(document: Json): (gs: seq<Field>)
    requires document.Obj? && WellFormed(document)
    ensures Obj(gs) == Normal(document) && WellFormed(Obj(gs)) && Same(document, Obj(gs))
  {
    NormalSame(document);
    Normal(document).fields
  }

  lemma SessionWellFormed(c: SessionChallenge)
    ensures WellFormed(Obj(SessionFields(c)))
  {
    SessionDistinct(c);
  }
}
