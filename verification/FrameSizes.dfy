/**
 The frames of a session fit: identifiers have bounded spellings, and timestamps are those `datetime` can
 represent, so no document of the handshake comes near the frame limit.
 */
module FrameSizes {
  import opened Text
  import opened Base64
  import opened Json
  import opened JsonText
  import opened Frames
  import opened Messages
  import opened Sessions
  import opened SessionTelemetry

  /** The last microsecond of the year 9999. */
  const MAX_TIME := 253_402_300_799_999_999

  /** A point in time that the program's timestamps can carry. */
  predicate IsTime(t: int)
  {
    0 <= t <= MAX_TIME
  }

  function Pow10(k: nat): nat
  {
    if k == 0 then 1 else 10 * Pow10(k - 1)
  }

  lemma {:induction false} NatTextLength(n: nat, k: nat)
    requires k >= 1 && n < Pow10(k)
    ensures |NatText(n)| <= k
  {
    if n >= 10 {
      assert n / 10 < Pow10(k - 1);
      NatTextLength(n / 10, k - 1);
    }
  }

  lemma TimeLength(t: int)
    requires IsTime(t)
    ensures |Canonical(Num(t))| <= 18
  {
    assert Pow10(6) == 1_000_000 && Pow10(12) == 1_000_000_000_000 && Pow10(18) == 1_000_000_000_000_000_000;
    NatTextLength(t, 18);
  }

  predicate Small(f: Field, bound: nat)
  {
    Allowance(f) <= bound
  }

  lemma SmallString(key: string, s: string, bound: nat)
    requires 12 * |key| + 12 * |s| + 6 <= bound
    ensures Small(Field(key, Str(s)), bound)
  {
    ScalarLengths(s);
  }

  lemma SmallTime(key: string, t: int, bound: nat)
    requires IsTime(t) && 12 * |key| + 22 <= bound
    ensures Small(Field(key, Num(t)), bound)
  {
    TimeLength(t);
  }

  predicate AtMost(fs: seq<Field>, bound: nat)
  {
    forall i | 0 <= i < |fs| :: Small(fs[i], bound)
  }

  lemma AtMostFour(a: Field, b: Field, c: Field, d: Field, bound: nat)
    requires Small(a, bound) && Small(b, bound) && Small(c, bound) && Small(d, bound)
    ensures AtMost([a, b, c, d], bound)
  {
  }

  lemma AtMostThree(a: Field, b: Field, c: Field, bound: nat)
    requires Small(a, bound) && Small(b, bound) && Small(c, bound)
    ensures AtMost([a, b, c], bound)
  {
  }

  lemma AtMostBoth(fs: seq<Field>, gs: seq<Field>, bound: nat)
    requires AtMost(fs, bound) && AtMost(gs, bound)
    ensures AtMost(fs + gs, bound)
  {
    forall i | 0 <= i < |fs + gs| ensures Small((fs + gs)[i], bound) {
      assert (fs + gs)[i] == if i < |fs| then fs[i] else gs[i - |fs|];
    }
  }

  function Times(n: nat, bound: nat): nat
  {
    if n == 0 then 0 else bound + Times(n - 1, bound)
  }

  lemma AtMostTail(fs: seq<Field>, bound: nat)
    requires fs != [] && AtMost(fs, bound)
    ensures Allowance(fs[0]) <= bound && AtMost(fs[1..], bound)
  {
    assert Small(fs[0], bound);
    forall i | 0 <= i < |fs[1..]| ensures Small(fs[1..][i], bound) {
      assert Small(fs[i + 1], bound);
    }
  }

  lemma {:induction false} AllowancesAtMost(fs: seq<Field>, bound: nat)
    requires AtMost(fs, bound)
    ensures Allowances(fs) <= Times(|fs|, bound)
  {
    if fs != [] {
      AtMostTail(fs, bound);
      AllowancesAtMost(fs[1..], bound);
    }
  }

  /** Identifiers of a session as the program draws or checks them. */
  predicate Ordinary(c: SessionChallenge)
  {
    && IsUuid(c.sessionId) && IsName(c.relayId) && |c.nonce| == 43 && IsDeviceId(c.audience)
    && IsTime(c.issued) && IsTime(c.expires)
  }

  lemma FewTimes()
    ensures Times(4, 1500) == 6000 && Times(6, 1500) == 9000 && Times(8, 1500) == 12000 && Times(7, 13000) == 91000
  {
    assert Times(4, 1500) == 6000 && Times(6, 1500) == 9000;
    assert Times(4, 13000) == 52000;
  }

  lemma ChallengeFields(c: SessionChallenge)
    requires Ordinary(c)
    ensures AtMost(SessionFields(c), 1500)
  {
    var version, kind := Field("protocol_version", Num(1)), Field("type", Str("relay.session-challenge"));
    var session, relay := Field("session_id", Str(c.sessionId)), Field("relay_id", Str(c.relayId));
    var nonce, audience := Field("nonce", Str(c.nonce)), Field("audience", Str(c.audience));
    var issued, expires := Field("issued_at", Num(c.issued)), Field("expires_at", Num(c.expires));
    SmallTime(version.key, 1, 1500);
    SmallString(kind.key, "relay.session-challenge", 1500);
    SmallString(session.key, c.sessionId, 1500);
    SmallString(relay.key, c.relayId, 1500);
    SmallString(nonce.key, c.nonce, 1500);
    SmallString(audience.key, c.audience, 1500);
    SmallTime(issued.key, c.issued, 1500);
    SmallTime(expires.key, c.expires, 1500);
    AtMostFour(version, kind, session, relay, 1500);
    AtMostFour(nonce, audience, issued, expires, 1500);
    AtMostBoth([version, kind, session, relay], [nonce, audience, issued, expires], 1500);
    SplitSession(c);
  }

  lemma SplitSession(c: SessionChallenge)
    ensures SessionFields(c)
         == [ Field("protocol_version", Num(1)), Field("type", Str("relay.session-challenge")),
              Field("session_id", Str(c.sessionId)), Field("relay_id", Str(c.relayId)) ]
            + [ Field("nonce", Str(c.nonce)), Field("audience", Str(c.audience)),
                Field("issued_at", Num(c.issued)), Field("expires_at", Num(c.expires)) ]
  {
  }

  lemma ChallengeFits(c: SessionChallenge)
    requires Ordinary(c)
    ensures |Canonical(ChallengeDocument(c))| <= 12001 && Sendable(ChallengeDocument(c))
  {
    ChallengeFields(c);
    SmallObject(SessionFields(c), 1500);
    FewTimes();
    SessionWellFormed(c);
  }

  lemma SmallObject(fs: seq<Field>, bound: nat)
    requires fs != [] && AtMost(fs, bound)
    ensures |Canonical(Obj(fs))| <= Times(|fs|, bound) + 1
  {
    AllowancesAtMost(fs, bound);
    ObjectLength(fs);
  }

  lemma AnswerFits(m: Message, signature: Bytes)
    requires m.SessionAuth? && Ordinary(m.session) && IsDeviceId(m.deviceId) && |m.deviceKey| == 43
    requires IsTime(m.signedAt)
    requires |signature| == 64
    ensures Sendable(AuthDocument(m, Encode(signature)))
  {
    var fs := AuthDocument(m, Encode(signature)).fields;
    AuthDocumentFields(m, Encode(signature));
    AnswerFields(m, signature);
    SmallObject(fs, 13000);
    FewTimes();
  }

  lemma AnswerFields(m: Message, signature: Bytes)
    requires m.SessionAuth? && Ordinary(m.session) && IsDeviceId(m.deviceId) && |m.deviceKey| == 43
    requires IsTime(m.signedAt)
    requires |signature| == 64
    ensures AtMost(AuthDocument(m, Encode(signature)).fields, 13000)
  {
    var version, kind := Field("protocol_version", Num(1)), Field("type", Str("agent.session-auth"));
    var challenge, id := Field("challenge", Obj(SessionFields(m.session))), Field("device_id", Str(m.deviceId));
    var key, at := Field("device_public_key", Str(m.deviceKey)), Field("signed_at", Num(m.signedAt));
    var sealed := Field("signature", Str(Encode(signature)));
    EncodeShape(signature);
    SmallTime(version.key, 1, 13000);
    SmallString(kind.key, "agent.session-auth", 13000);
    SmallChallenge(m.session);
    SmallString(id.key, m.deviceId, 13000);
    SmallString(key.key, m.deviceKey, 13000);
    SmallTime(at.key, m.signedAt, 13000);
    SmallString(sealed.key, Encode(signature), 13000);
    AtMostFour(version, kind, challenge, id, 13000);
    AtMostThree(key, at, sealed, 13000);
    AtMostBoth([version, kind, challenge, id], [key, at, sealed], 13000);
    SplitAnswer(m, Encode(signature));
  }

  lemma SplitAnswer(m: Message, signature: string)
    requires m.SessionAuth?
    ensures AuthDocument(m, signature).fields
         == [ Field("protocol_version", Num(1)), Field("type", Str("agent.session-auth")),
              Field("challenge", Obj(SessionFields(m.session))), Field("device_id", Str(m.deviceId)) ]
            + [ Field("device_public_key", Str(m.deviceKey)), Field("signed_at", Num(m.signedAt)),
                Field("signature", Str(signature)) ]
  {
    AuthFields(m);
  }

  lemma SmallChallenge(c: SessionChallenge)
    requires Ordinary(c)
    ensures Small(Field("challenge", Obj(SessionFields(c))), 13000)
  {
    ChallengeFits(c);
  }

  lemma SmallReady(sessionId: string, relayId: string, acceptedAt: int)
    requires IsUuid(sessionId) && IsName(relayId) && IsTime(acceptedAt)
    ensures AtMost(ReadyDocument(sessionId, relayId, acceptedAt).fields, 1500)
  {
    var version, kind := Field("protocol_version", Num(1)), Field("type", Str("relay.session-ready"));
    var session, challenge := Field("session_id", Str(sessionId)), Field("challenge_id", Str(sessionId));
    var relay, accepted := Field("relay_id", Str(relayId)), Field("accepted_at", Num(acceptedAt));
    SmallTime(version.key, 1, 1500);
    SmallString(kind.key, "relay.session-ready", 1500);
    SmallString(session.key, sessionId, 1500);
    SmallString(challenge.key, sessionId, 1500);
    SmallString(relay.key, relayId, 1500);
    SmallTime(accepted.key, acceptedAt, 1500);
    AtMostThree(version, kind, session, 1500);
    AtMostThree(challenge, relay, accepted, 1500);
    AtMostBoth([version, kind, session], [challenge, relay, accepted], 1500);
    SplitReady(sessionId, relayId, acceptedAt);
  }

  lemma SplitReady(sessionId: string, relayId: string, acceptedAt: int)
    ensures ReadyDocument(sessionId, relayId, acceptedAt).fields
         == [ Field("protocol_version", Num(1)), Field("type", Str("relay.session-ready")),
              Field("session_id", Str(sessionId)) ]
            + [ Field("challenge_id", Str(sessionId)), Field("relay_id", Str(relayId)),
                Field("accepted_at", Num(acceptedAt)) ]
  {
  }

  lemma ReadyFits(sessionId: string, relayId: string, acceptedAt: int)
    requires IsUuid(sessionId) && IsName(relayId) && IsTime(acceptedAt)
    ensures Sendable(ReadyDocument(sessionId, relayId, acceptedAt))
  {
    SmallReady(sessionId, relayId, acceptedAt);
    SmallObject(ReadyDocument(sessionId, relayId, acceptedAt).fields, 1500);
    FewTimes();
    ReadyFields(sessionId, relayId, acceptedAt);
  }

  lemma ReadyFields(sessionId: string, relayId: string, acceptedAt: int)
    ensures var document := ReadyDocument(sessionId, relayId, acceptedAt);
            WellFormed(document) && KeysAre(document.fields, READY_KEYS)
  {
    var fs := ReadyDocument(sessionId, relayId, acceptedAt).fields;
    assert Distinct(fs);
    ListedKeys(fs, READY_KEYS);
  }

  lemma AckFits(sessionId: string)
    requires IsUuid(sessionId)
    ensures Sendable(AckDocument(sessionId))
  {
    var version, kind := Field("protocol_version", Num(1)), Field("type", Str("relay.telemetry-ack"));
    var session, sequence := Field("session_id", Str(sessionId)), Field("sequence", Num(1));
    SmallTime(version.key, 1, 1500);
    SmallString(kind.key, "relay.telemetry-ack", 1500);
    SmallString(session.key, sessionId, 1500);
    SmallTime(sequence.key, 1, 1500);
    AtMostFour(version, kind, session, sequence, 1500);
    SmallObject(AckDocument(sessionId).fields, 1500);
    FewTimes();
    AckFields(sessionId);
  }

  lemma AckFields(sessionId: string)
    ensures WellFormed(AckDocument(sessionId)) && KeysAre(AckDocument(sessionId).fields, ACK_KEYS)
  {
    var fs := AckDocument(sessionId).fields;
    assert Distinct(fs);
    ListedKeys(fs, ACK_KEYS);
  }
}
