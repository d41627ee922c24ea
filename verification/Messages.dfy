/**
 The four signed messages of the enrollment and session protocols, their JSON documents and the
 bytes that are signed: a domain separator ending in NUL, then the canonical document. Timestamps
 are whole microseconds; keys, nonces and identifiers are the strings the documents carry.
 */
module Messages {
  import opened Json
  import opened JsonText
  import opened CanonicalJson

  datatype Challenge = Challenge(
    challengeId: string, relayId: string, nonce: string, audience: string, issued: int, expires: int)

  datatype SessionChallenge = SessionChallenge(
    sessionId: string, relayId: string, nonce: string, audience: string, issued: int, expires: int)

  datatype Message =
    | PeerProof(pairingId: string, peerId: string, deviceId: string,
                challengeId: string, relayId: string, nonce: string)
    | Receipt(challengeId: string, relayId: string, pairingId: string, deviceId: string, deviceKey: string,
              peerId: string, peerKey: string, enrolledAt: int)
    | ChallengeResponse(challenge: Challenge, deviceId: string, deviceKey: string, signedAt: int)
    | SessionAuth(session: SessionChallenge, deviceId: string, deviceKey: string, signedAt: int)

  function ChallengeFields(c: Challenge): seq<Field>
  {
    [ Field("schema_version", Num(1)), Field("type", Str("relay.challenge")),
      Field("challenge_id", Str(c.challengeId)), Field("relay_id", Str(c.relayId)),
      Field("nonce", Str(c.nonce)), Field("audience", Str(c.audience)),
      Field("issued_at", Num(c.issued)), Field("expires_at", Num(c.expires)) ]
  }

  function SessionFields(c: SessionChallenge): seq<Field>
  {
    [ Field("protocol_version", Num(1)), Field("type", Str("relay.session-challenge")),
      Field("session_id", Str(c.sessionId)), Field("relay_id", Str(c.relayId)),
      Field("nonce", Str(c.nonce)), Field("audience", Str(c.audience)),
      Field("issued_at", Num(c.issued)), Field("expires_at", Num(c.expires)) ]
  }

  function MessageFields(m: Message): seq<Field>
  {
    match m
    case PeerProof(pairingId, peerId, deviceId, challengeId, relayId, nonce) =>
      [ Field("schema_version", Num(1)), Field("type", Str("peer.enrollment-proof")),
        Field("pairing_id", Str(pairingId)), Field("peer_id", Str(peerId)), Field("device_id", Str(deviceId)),
        Field("challenge_id", Str(challengeId)), Field("relay_id", Str(relayId)), Field("nonce", Str(nonce)) ]
    case Receipt(challengeId, relayId, pairingId, deviceId, deviceKey, peerId, peerKey, enrolledAt) =>
      [ Field("schema_version", Num(1)), Field("type", Str("agent.enrollment-receipt")),
        Field("challenge_id", Str(challengeId)), Field("relay_id", Str(relayId)),
        Field("pairing_id", Str(pairingId)), Field("device_id", Str(deviceId)),
        Field("device_public_key", Str(deviceKey)), Field("peer_id", Str(peerId)),
        Field("peer_public_key", Str(peerKey)), Field("enrolled_at", Num(enrolledAt)) ]
    case ChallengeResponse(challenge, deviceId, deviceKey, signedAt) =>
      [ Field("schema_version", Num(1)), Field("type", Str("agent.challenge-response")),
        Field("challenge", Obj(ChallengeFields(challenge))), Field("device_id", Str(deviceId)),
        Field("device_public_key", Str(deviceKey)), Field("signed_at", Num(signedAt)) ]
    case SessionAuth(session, deviceId, deviceKey, signedAt) =>
      [ Field("protocol_version", Num(1)), Field("type", Str("agent.session-auth")),
        Field("challenge", Obj(SessionFields(session))), Field("device_id", Str(deviceId)),
        Field("device_public_key", Str(deviceKey)), Field("signed_at", Num(signedAt)) ]
  }

  function Document(m: Message): Json { Obj(MessageFields(m)) }

  const CHALLENGE_SIGNATURE_DOMAIN := "PrinterHMI Remote relay challenge response v1" + "\0"
  const PEER_PROOF_DOMAIN := "PrinterHMI Remote peer enrollment proof v1" + "\0"
  const ENROLLMENT_RECEIPT_DOMAIN := "PrinterHMI Remote enrollment receipt v1" + "\0"
  const SESSION_SIGNATURE_DOMAIN := "PrinterHMI Remote relay session authentication v1" + "\0"

  function Domain(m: Message): string
  {
    match m
    case PeerProof(_, _, _, _, _, _) => PEER_PROOF_DOMAIN
    case Receipt(_, _, _, _, _, _, _, _) => ENROLLMENT_RECEIPT_DOMAIN
    case ChallengeResponse(_, _, _, _) => CHALLENGE_SIGNATURE_DOMAIN
    case SessionAuth(_, _, _, _) => SESSION_SIGNATURE_DOMAIN
  }

  /** What is handed to Ed25519. */
  function Payload(m: Message): string
  {
    Domain(m) + Canonical(Document(m))
  }

  predicate IsDomain(d: string)
  {
    d in {CHALLENGE_SIGNATURE_DOMAIN, PEER_PROOF_DOMAIN, ENROLLMENT_RECEIPT_DOMAIN, SESSION_SIGNATURE_DOMAIN}
  }

  lemma DomainShape(d: string)
    requires IsDomain(d)
    ensures d != "" && d[|d| - 1] == '\0' && '\0' !in d[..|d| - 1]
  {
    if d == CHALLENGE_SIGNATURE_DOMAIN { NulEnded("PrinterHMI Remote relay challenge response v1"); }
    else if d == PEER_PROOF_DOMAIN { NulEnded("PrinterHMI Remote peer enrollment proof v1"); }
    else if d == ENROLLMENT_RECEIPT_DOMAIN { NulEnded("PrinterHMI Remote enrollment receipt v1"); }
    else { NulEnded("PrinterHMI Remote relay session authentication v1"); }
  }

  lemma NulEnded(s: string)
    requires '\0' !in s
    ensures var d := s + "\0"; d != "" && d[|d| - 1] == '\0' && '\0' !in d[..|d| - 1]
  {
    assert (s + "\0")[..|s|] == s;
  }

  /** For documents of any shape: one signed byte string has one domain and one document. */
  lemma DomainsSeparate(d1: string, v1: Json, d2: string, v2: Json)
    requires IsDomain(d1) && IsDomain(d2) && WellFormed(v1) && WellFormed(v2)
    requires d1 + Canonical(v1) == d2 + Canonical(v2)
    ensures d1 == d2 && Same(v1, v2)
  {
    DomainShape(d1);
    DomainShape(d2);
    CanonicalPrintable(v1);
    CanonicalPrintable(v2);
    SplitAtNul(d1, Canonical(v1), d2, Canonical(v2));
    CanonicalIffSame(v1, v2);
  }

  lemma ChallengeDistinct(c: Challenge)
    ensures Distinct(ChallengeFields(c))
  {
  }

  lemma SessionDistinct(c: SessionChallenge)
    ensures Distinct(SessionFields(c))
  {
  }

  lemma MessageDistinct(m: Message)
    ensures Distinct(MessageFields(m))
  {
  }

  lemma DocumentWellFormed(m: Message)
    ensures WellFormed(Document(m))
  {
    MessageDistinct(m);
    if m.ChallengeResponse? { ChallengeDistinct(m.challenge); }
    if m.SessionAuth? { SessionDistinct(m.session); }
  }

  lemma DomainDeterminesKind(m: Message, n: Message)
    requires Domain(m) == Domain(n)
    ensures m.PeerProof? == n.PeerProof? && m.Receipt? == n.Receipt?
    ensures m.ChallengeResponse? == n.ChallengeResponse? && m.SessionAuth? == n.SessionAuth?
  {
    assert |CHALLENGE_SIGNATURE_DOMAIN| == 46 && |PEER_PROOF_DOMAIN| == 43;
    assert |ENROLLMENT_RECEIPT_DOMAIN| == 40 && |SESSION_SIGNATURE_DOMAIN| == 50;
  }

  /** Scalars are equal, nested objects are equal as documents. */
  predicate Agree(a: Json, b: Json)
  {
    ((a.Str? || a.Num?) ==> a == b) && (a.Obj? ==> Same(a, b))
  }

  predicate AgreeAll(fs: seq<Field>, gs: seq<Field>)
  {
    |fs| == |gs| && forall i | 0 <= i < |fs| :: Agree(fs[i].value, gs[i].value)
  }

  predicate Aligned(fs: seq<Field>, gs: seq<Field>)
  {
    |fs| == |gs| && forall i | 0 <= i < |fs| :: fs[i].key == gs[i].key
  }

  lemma SameAgree(fs: seq<Field>, gs: seq<Field>)
    requires Distinct(gs) && Aligned(fs, gs) && Same(Obj(fs), Obj(gs))
    ensures AgreeAll(fs, gs)
  {
    SameAligned(fs, gs);
  }

  lemma AlignedMessages(m: Message, n: Message)
    requires m.PeerProof? == n.PeerProof? && m.Receipt? == n.Receipt?
    requires m.ChallengeResponse? == n.ChallengeResponse? && m.SessionAuth? == n.SessionAuth?
    ensures Aligned(MessageFields(m), MessageFields(n))
  {
  }

  /** The signed bytes determine the message: no signature can be read as another message. */
  lemma PayloadInjective(m: Message, n: Message)
    requires Payload(m) == Payload(n)
    ensures m == n
  {
    DocumentWellFormed(m);
    DocumentWellFormed(n);
    DomainsSeparate(Domain(m), Document(m), Domain(n), Document(n));
    DomainDeterminesKind(m, n);
    AlignedMessages(m, n);
    MessageDistinct(n);
    SameAgree(MessageFields(m), MessageFields(n));
    AgreeingMessages(m, n, MessageFields(m), MessageFields(n));
  }

  lemma AgreeingMessages(m: Message, n: Message, fs: seq<Field>, gs: seq<Field>)
    requires fs == MessageFields(m) && gs == MessageFields(n) && AgreeAll(fs, gs)
    requires m.PeerProof? == n.PeerProof? && m.Receipt? == n.Receipt?
    requires m.ChallengeResponse? == n.ChallengeResponse? && m.SessionAuth? == n.SessionAuth?
    ensures m == n
  {
    assert Agree(fs[2].value, gs[2].value) && Agree(fs[3].value, gs[3].value);
    assert Agree(fs[4].value, gs[4].value) && Agree(fs[5].value, gs[5].value);
    if m.PeerProof? || m.Receipt? {
      assert Agree(fs[6].value, gs[6].value) && Agree(fs[7].value, gs[7].value);
    }
    if m.Receipt? {
      assert Agree(fs[8].value, gs[8].value) && Agree(fs[9].value, gs[9].value);
    }
    if m.ChallengeResponse? {
      SameChallenges(m.challenge, n.challenge);
    }
    if m.SessionAuth? {
      SameSessions(m.session, n.session);
    }
  }

  lemma AlignedChallenges(c: Challenge, d: Challenge)
    ensures Aligned(ChallengeFields(c), ChallengeFields(d))
  {
  }

  lemma SameChallenges(c: Challenge, d: Challenge)
    requires Same(Obj(ChallengeFields(c)), Obj(ChallengeFields(d)))
    ensures c == d
  {
    AlignedChallenges(c, d);
    ChallengeDistinct(d);
    SameAgree(ChallengeFields(c), ChallengeFields(d));
    AgreeingChallenges(c, d, ChallengeFields(c), ChallengeFields(d));
  }

  lemma AgreeingChallenges(c: Challenge, d: Challenge, fs: seq<Field>, gs: seq<Field>)
    requires fs == ChallengeFields(c) && gs == ChallengeFields(d) && AgreeAll(fs, gs)
    ensures c == d
  {
    assert Agree(fs[2].value, gs[2].value) && Agree(fs[3].value, gs[3].value) && Agree(fs[4].value, gs[4].value);
    assert Agree(fs[5].value, gs[5].value) && Agree(fs[6].value, gs[6].value) && Agree(fs[7].value, gs[7].value);
  }

  lemma AlignedSessions(c: SessionChallenge, d: SessionChallenge)
    ensures Aligned(SessionFields(c), SessionFields(d))
  {
  }

  lemma SameSessions(c: SessionChallenge, d: SessionChallenge)
    requires Same(Obj(SessionFields(c)), Obj(SessionFields(d)))
    ensures c == d
  {
    AlignedSessions(c, d);
    SessionDistinct(d);
    SameAgree(SessionFields(c), SessionFields(d));
    AgreeingSessions(c, d, SessionFields(c), SessionFields(d));
  }

  lemma AgreeingSessions(c: SessionChallenge, d: SessionChallenge, fs: seq<Field>, gs: seq<Field>)
    requires fs == SessionFields(c) && gs == SessionFields(d) && AgreeAll(fs, gs)
    ensures c == d
  {
    assert Agree(fs[2].value, gs[2].value) && Agree(fs[3].value, gs[3].value) && Agree(fs[4].value, gs[4].value);
    assert Agree(fs[5].value, gs[5].value) && Agree(fs[6].value, gs[6].value) && Agree(fs[7].value, gs[7].value);
  }
}
