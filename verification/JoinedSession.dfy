/**
 Both sides of one session: the device's conversation, fed with the frames the receiver writes, and the
 receiver's handler, fed with the frames the device writes.
 */
module JoinedSession {
  import opened Prelude
  import opened Text
  import opened Base64
  import opened Json
  import opened Frames
  import opened Messages
  import opened Privacy
  import opened Snapshots
  import opened Enrollment
  import opened Sessions
  import opened SessionTelemetry
  import opened FrameSizes
  import opened RelayConnector
  import opened Receiver
  import opened HonestSession
  import opened InterleavedSession

  lemma ChallengeUnderstood(c: SessionChallenge)
    requires Ordinary(c)
    ensures Sendable(ChallengeDocument(c)) && SessionOf(Delivered(ChallengeDocument(c))) == Some(c)
  {
    ChallengeFits(c);
    ChallengeArrives(c, "");
    assert WriteFrame(ChallengeDocument(c)).value + "" == WriteFrame(ChallengeDocument(c)).value;
  }

  lemma ReadyArrives(sessionId: string, relayId: string, acceptedAt: int)
    requires IsUuid(sessionId) && IsName(relayId) && IsTime(acceptedAt)
    ensures Sendable(ReadyDocument(sessionId, relayId, acceptedAt))
    ensures ReadyOk(Delivered(ReadyDocument(sessionId, relayId, acceptedAt)), sessionId, relayId)
  {
    var document := ReadyDocument(sessionId, relayId, acceptedAt);
    ReadyFits(sessionId, relayId, acceptedAt);
    ReadyFields(sessionId, relayId, acceptedAt);
    DeliveredFields(document);
    var gs := Received(document);
    SameKeys(document.fields, gs, READY_KEYS);
    FieldArrives(document.fields, gs, 0);
    FieldArrives(document.fields, gs, 1);
    FieldArrives(document.fields, gs, 2);
    FieldArrives(document.fields, gs, 3);
    FieldArrives(document.fields, gs, 4);
  }

  lemma AckArrives(sessionId: string)
    requires IsUuid(sessionId)
    ensures Sendable(AckDocument(sessionId)) && AckOk(Delivered(AckDocument(sessionId)), sessionId)
  {
    var document := AckDocument(sessionId);
    AckFits(sessionId);
    AckFields(sessionId);
    DeliveredFields(document);
    var gs := Received(document);
    SameKeys(document.fields, gs, ACK_KEYS);
    FieldArrives(document.fields, gs, 0);
    FieldArrives(document.fields, gs, 1);
    FieldArrives(document.fields, gs, 2);
    FieldArrives(document.fields, gs, 3);
  }

  ghost predicate AllSendable(frames: seq<Json>)
  {
    forall i | 0 <= i < |frames| :: Sendable(frames[i])
  }

  lemma ThreeSendable(a: Json, b: Json, c: Json)
    requires Sendable(a) && Sendable(b) && Sendable(c)
    ensures AllSendable([a, b, c])
  {
  }

  /** What the device reads from an honest receiver: the three frames its handler writes. */
  ghost function RelayFrom(written: seq<Json>): Relay
    requires |written| == 3 && AllSendable(written)
  {
    Relay(Some(Delivered(written[0])), Some(Delivered(written[1])), Some(Delivered(written[2])))
  }

  function HandlerFrames(c: SessionChallenge, accepted: int): seq<Json>
  {
    [ChallengeDocument(c), ReadyDocument(c.sessionId, c.relayId, accepted), AckDocument(c.sessionId)]
  }

  lemma HandlerFramesFit(c: SessionChallenge, accepted: int)
    requires Ordinary(c) && IsTime(accepted)
    ensures AllSendable(HandlerFrames(c, accepted))
  {
    ChallengeFits(c);
    ReadyFits(c.sessionId, c.relayId, accepted);
    AckFits(c.sessionId);
    ThreeSendable(ChallengeDocument(c), ReadyDocument(c.sessionId, c.relayId, accepted), AckDocument(c.sessionId));
  }

  lemma HonestRelayPasses(c: SessionChallenge, accepted: int)
    requires Ordinary(c) && IsTime(accepted)
    ensures AllSendable(HandlerFrames(c, accepted))
    ensures var relay := RelayFrom(HandlerFrames(c, accepted));
            && SessionOf(relay.challenge.value) == Some(c)
            && ReadyOk(relay.ready.value, c.sessionId, c.relayId)
            && AckOk(relay.ack.value, c.sessionId)
  {
    HandlerFramesFit(c, accepted);
    ChallengeUnderstood(c);
    ReadyArrives(c.sessionId, c.relayId, accepted);
    AckArrives(c.sessionId);
  }

  function DeviceFrames(id: Identity, c: SessionChallenge, at: int, signature: Bytes, snapshot: Json): seq<Json>
  {
    [ HelloDocument(id.deviceId), AuthDocument(SessionAuth(c, id.deviceId, Encode(id.key), at), Encode(signature)),
      Envelope(c.sessionId, snapshot) ]
  }

  lemma DeviceFramesFit(lower: Lower, id: Identity, c: SessionChallenge, at: int, signature: Bytes, document: Json)
    requires Ordinary(c) && |id.key| == 32 && IsDeviceId(id.deviceId) && |signature| == 64 && IsTime(at)
    requires WellFormed(document) && Sanitize(lower, document).Ok?
    ensures var frames := DeviceFrames(id, c, at, signature, Sanitize(lower, document).value);
            Sendable(frames[0]) && Sendable(frames[1]) && Sendable(frames[2]) && AllSendable(frames)
  {
    var m := SessionAuth(c, id.deviceId, Encode(id.key), at);
    HelloFits(id.deviceId);
    EncodeShape(id.key);
    AnswerFits(m, signature);
    EnvelopeSendable(lower, document, c.sessionId);
    ThreeSendable(HelloDocument(id.deviceId), AuthDocument(m, Encode(signature)),
                  Envelope(c.sessionId, Sanitize(lower, document).value));
  }

  /** The device, reading the receiver's frames, sends all three of its own and reports success. */
  lemma ConversationSucceeds(lower: Lower, id: Identity, c: SessionChallenge, at: int, signature: Bytes, document: Json,
                             accepted: int)
    requires Ordinary(c) && IsTime(accepted) && |id.key| == 32 && IsDeviceId(id.deviceId) && |signature| == 64
    requires IsTime(at)
    requires ValidSession(c, id.deviceId, c.relayId, at)
    requires WellFormed(document) && Sanitize(lower, document).Ok?
    ensures AllSendable(HandlerFrames(c, accepted))
    ensures Conversation(lower, id, c.relayId, document, RelayFrom(HandlerFrames(c, accepted)), at, signature)
         == Sent(DeviceFrames(id, c, at, signature, Sanitize(lower, document).value), true)
  {
    var m := SessionAuth(c, id.deviceId, Encode(id.key), at);
    HandlerFramesFit(c, accepted);
    var relay := RelayFrom(HandlerFrames(c, accepted));
    var telemetry := Envelope(c.sessionId, Sanitize(lower, document).value);
    assert Answer(id, c.relayId, relay.challenge, at) == Some(m) by {
      HonestRelayPasses(c, accepted);
      UnderstoodIsAnswered(id, c, relay.challenge, at);
    }
    assert Release(lower, c.relayId, document, relay.ready, m) == Some(telemetry) by {
      HonestRelayPasses(c, accepted);
      ConfirmedIsReleased(lower, c.relayId, document, relay.ready, m);
    }
    assert Acknowledged(relay.ack, m) by { HonestRelayPasses(c, accepted); }
    DeviceFramesFit(lower, id, c, at, signature, document);
    UnrefusedConversation(lower, id, c.relayId, document, relay, at, signature, m, telemetry);
  }

  // ---- The whole session ----

  /** The session of a connection on which a device puts these frames. */
  ghost function ExchangeOf(frames: seq<Json>, c: SessionChallenge, nonce: Bytes, key: Bytes, m: Message,
                            verified: int, received: int): Exchange
    requires |frames| == 3 && AllSendable(frames)
  {
    Exchange(Delivered(frames[0]), c.sessionId, nonce, c.issued, key, m, Delivered(frames[1]), verified,
             Delivered(frames[2]), received)
  }

  lemma FramesAreTheExchange(env: Env, id: Identity, c: SessionChallenge, nonce: Bytes, at: int, signature: Bytes,
                             verified: int, snapshot: Json, received: int)
    requires AllSendable(DeviceFrames(id, c, at, signature, snapshot))
    ensures var frames := DeviceFrames(id, c, at, signature, snapshot);
            var m := SessionAuth(c, id.deviceId, Encode(id.key), at);
            && Sendable(frames[0]) && Sendable(frames[1]) && Sendable(frames[2])
            && ExchangeOf(frames, c, nonce, id.key, m, verified, received)
               == HonestExchange(env, id, c, nonce, at, signature, verified, snapshot, received)
  {
    var frames := DeviceFrames(id, c, at, signature, snapshot);
    assert Sendable(frames[0]) && Sendable(frames[1]) && Sendable(frames[2]);
  }

  /** The device read what the receiver's handler writes, and reports success; and the receiver, reading what the
      device sent, serves it in every interleaving with other connections. */
  ghost predicate Joined(env: Env, w: World, s: Sent, c: SessionChallenge, nonce: Bytes, key: Bytes, m: Message,
                         verified: int, received: int, published: Json)
  {
    && s.success && |s.frames| == 3 && AllSendable(s.frames)
    && var x := ExchangeOf(s.frames, c, nonce, key, m, verified, received);
    && WrittenBy(c, x, 4) == HandlerFrames(c, verified)
    && AlwaysServed(env, w, c, x, published)
    && (FreshSession(w, c.sessionId) ==> CanBeServed(env, w, c, x, published))
  }

  lemma ServedIsJoined(env: Env, w: World, id: Identity, c: SessionChallenge, nonce: Bytes, at: int, signature: Bytes,
                       verified: int, snapshot: Json, received: int, x: Exchange, published: Json)
    requires AllSendable(DeviceFrames(id, c, at, signature, snapshot))
    requires x == ExchangeOf(DeviceFrames(id, c, at, signature, snapshot), c, nonce, id.key,
                             SessionAuth(c, id.deviceId, Encode(id.key), at), verified, received)
    requires AlwaysServed(env, w, c, x, published)
    requires FreshSession(w, c.sessionId) ==> CanBeServed(env, w, c, x, published)
    ensures Joined(env, w, Sent(DeviceFrames(id, c, at, signature, snapshot), true), c, nonce, id.key,
                   SessionAuth(c, id.deviceId, Encode(id.key), at), verified, received, published)
  {
  }

  /** An honest device and an honest receiver, each reading what the other writes: the device reports success,
      and the receiver, whatever other connections do meanwhile, publishes the device's whole filtered snapshot. */
  lemma SessionSucceedsOnBothSides(env: Env, w: World, id: Identity, sessionId: string, nonce: Bytes, issued: int,
                                   at: int, signature: Bytes, verified: int, document: Json, received: int)
    returns (published: Json)
    requires IsUuid(sessionId) && |nonce| == 32 && |signature| == 64
    requires Party(env, id, NewSession(id.deviceId, env.relayId, sessionId, nonce, issued))
    // The device's clock and, later, the receiver's find the challenge valid.
    requires issued - SESSION_CLOCK_SKEW <= at < issued + 60 * SECOND
    requires issued - SESSION_CLOCK_SKEW <= verified < issued + 60 * SECOND
    requires IsName(env.relayId) && IsTime(issued) && IsTime(issued + 60 * SECOND) && IsTime(at) && IsTime(verified)
    requires WellFormed(document) && Sanitize(env.lower, document).Ok?
    ensures Same(Sanitize(env.lower, document).value, published)
    ensures var c := NewSession(id.deviceId, env.relayId, sessionId, nonce, issued);
            && AllSendable(HandlerFrames(c, verified))
            && Joined(env, w,
                      Conversation(env.lower, id, env.relayId, document, RelayFrom(HandlerFrames(c, verified)), at,
                                   signature),
                      c, nonce, id.key, SessionAuth(c, id.deviceId, Encode(id.key), at), verified, received, published)
  {
    var c := NewSession(id.deviceId, env.relayId, sessionId, nonce, issued);
    var snapshot := Sanitize(env.lower, document).value;
    HonestAnswerFits(env.relayId, id, sessionId, nonce, issued, at, signature);
    ChallengeLasts(id.deviceId, env.relayId, sessionId, nonce, issued, at);
    ConversationSucceeds(env.lower, id, c, at, signature, document, verified);
    DeviceFramesFit(env.lower, id, c, at, signature, document);
    published := HonestSessionPublishes(env, w, id, sessionId, nonce, issued, at, signature, verified, document,
                                        received);
    FramesAreTheExchange(env, id, c, nonce, at, signature, verified, snapshot, received);
    ServedIsJoined(env, w, id, c, nonce, at, signature, verified, snapshot, received,
                   HonestExchange(env, id, c, nonce, at, signature, verified, snapshot, received), published);
  }
}
