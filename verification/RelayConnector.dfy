/** The device's side of a session: which challenges it answers, and when it lets telemetry out. */
module RelayConnector {
  import opened Prelude
  import opened Base64
  import opened Json
  import opened Frames
  import opened Messages
  import opened Privacy
  import opened Snapshots
  import opened Enrollment
  import opened Sessions
  import opened SessionTelemetry

  const SESSION_KEYS :=
    ["protocol_version", "type", "session_id", "relay_id", "nonce", "audience", "issued_at", "expires_at"]

  predicate SessionHeader(fs: seq<Field>)
  {
    && KeysAre(fs, SESSION_KEYS)
    && Get(fs, "protocol_version") == Some(Num(1))
    && Get(fs, "type") == Some(Str("relay.session-challenge"))
  }

  /** The challenge a document spells, whatever the order of its fields. */
  function SessionOf(document: Json): Option<SessionChallenge>
  {
    if document.Obj? && SessionHeader(document.fields) then SessionBody(document.fields) else None
  }

  function SessionBody(fs: seq<Field>): Option<SessionChallenge>
  {
    match (Get(fs, "session_id"), Get(fs, "relay_id"), Get(fs, "nonce"), Get(fs, "audience"),
           Get(fs, "issued_at"), Get(fs, "expires_at"))
    case (Some(Str(sessionId)), Some(Str(relayId)), Some(Str(nonce)), Some(Str(audience)), Some(Num(issued)),
          Some(Num(expires))) =>
      Some(SessionChallenge(sessionId, relayId, nonce, audience, issued, expires))
    case _ => None
  }

  lemma SessionFieldsAre(c: SessionChallenge)
    ensures SessionFields(c) ==
      [ Field("protocol_version", Num(1)), Field("type", Str("relay.session-challenge")),
        Field("session_id", Str(c.sessionId)), Field("relay_id", Str(c.relayId)),
        Field("nonce", Str(c.nonce)), Field("audience", Str(c.audience)),
        Field("issued_at", Num(c.issued)), Field("expires_at", Num(c.expires)) ]
    ensures |SESSION_KEYS| == 8 && forall j | 0 <= j < 8 :: SessionFields(c)[j].key == SESSION_KEYS[j]
  {
  }

  predicate HasScalar(fs: seq<Field>, g: Field)
  {
    (g.value.Num? || g.value.Str?) && Get(fs, g.key) == Some(g.value)
  }

  predicate HasScalars(fs: seq<Field>, gs: seq<Field>)
  {
    forall j | 0 <= j < |gs| :: HasScalar(fs, gs[j])
  }

  lemma HasEight(fs: seq<Field>, a: Field, b: Field, c: Field, d: Field, e: Field, f: Field, g: Field, h: Field)
    ensures HasScalars(fs, [a, b, c, d, e, f, g, h])
       <==> && HasScalar(fs, a) && HasScalar(fs, b) && HasScalar(fs, c) && HasScalar(fs, d)
            && HasScalar(fs, e) && HasScalar(fs, f) && HasScalar(fs, g) && HasScalar(fs, h)
  {
    var gs := [a, b, c, d, e, f, g, h];
    if HasScalars(fs, gs) {
      assert HasScalar(fs, gs[0]) && HasScalar(fs, gs[1]) && HasScalar(fs, gs[2]) && HasScalar(fs, gs[3]);
      assert HasScalar(fs, gs[4]) && HasScalar(fs, gs[5]) && HasScalar(fs, gs[6]) && HasScalar(fs, gs[7]);
    }
  }

  predicate Spells(fs: seq<Field>, c: SessionChallenge)
  {
    && Get(fs, "protocol_version") == Some(Num(1))
    && Get(fs, "type") == Some(Str("relay.session-challenge"))
    && SessionBody(fs) == Some(c)
  }

  lemma SpellsIsScalars(fs: seq<Field>, c: SessionChallenge)
    ensures Spells(fs, c) <==> HasScalars(fs, SessionFields(c))
  {
    SessionFieldsAre(c);
    HasEight(fs, Field("protocol_version", Num(1)), Field("type", Str("relay.session-challenge")),
             Field("session_id", Str(c.sessionId)), Field("relay_id", Str(c.relayId)),
             Field("nonce", Str(c.nonce)), Field("audience", Str(c.audience)),
             Field("issued_at", Num(c.issued)), Field("expires_at", Num(c.expires)));
  }

  /** An object with exactly the keys of a list of scalar fields, and their values, equals it. */
  lemma ScalarsAreSame(fs: seq<Field>, gs: seq<Field>, keys: seq<string>)
    requires Distinct(fs) && Distinct(gs) && |gs| == |keys|
    requires forall j | 0 <= j < |gs| :: gs[j].key == keys[j] && (gs[j].value.Num? || gs[j].value.Str?)
    ensures KeysAre(fs, keys) && HasScalars(fs, gs) <==> Same(Obj(fs), Obj(gs))
  {
    if KeysAre(fs, keys) && HasScalars(fs, gs) {
      forall i | 0 <= i < |fs| ensures HasKey(gs, fs[i].key) {
        var j :| 0 <= j < |keys| && keys[j] == fs[i].key;
        assert gs[j].key == fs[i].key;
      }
      forall j | 0 <= j < |gs| ensures SameOption(Get(fs, gs[j].key), Some(gs[j].value)) {
        assert HasScalar(fs, gs[j]);
        CarriesScalar(fs, gs[j]);
      }
      SameListed(fs, gs);
    }
    if Same(Obj(fs), Obj(gs)) {
      SameObjectsHaveScalars(fs, gs, keys);
    }
  }

  lemma SameObjectsHaveScalars(fs: seq<Field>, gs: seq<Field>, keys: seq<string>)
    requires Distinct(fs) && Distinct(gs) && |gs| == |keys| && Same(Obj(fs), Obj(gs))
    requires forall j | 0 <= j < |gs| :: gs[j].key == keys[j] && (gs[j].value.Num? || gs[j].value.Str?)
    ensures KeysAre(fs, keys) && HasScalars(fs, gs)
  {
    forall k | k in keys ensures HasKey(fs, k) {
      var j :| 0 <= j < |keys| && keys[j] == k;
      assert HasKey(fs, gs[j].key);
    }
    forall i | 0 <= i < |fs| ensures fs[i].key in keys {
      assert HasKey(gs, fs[i].key);
    }
    forall j | 0 <= j < |gs| ensures HasScalar(fs, gs[j]) {
      GetAt(gs, j);
      SameGetOption(fs, gs, gs[j].key);
    }
  }

  lemma SpellsIsSession(fs: seq<Field>, c: SessionChallenge)
    ensures SessionOf(Obj(fs)) == Some(c) <==> KeysAre(fs, SESSION_KEYS) && Spells(fs, c)
  {
  }

  lemma SessionScalarsAreSame(fs: seq<Field>, c: SessionChallenge)
    requires Distinct(fs)
    ensures KeysAre(fs, SESSION_KEYS) && HasScalars(fs, SessionFields(c)) <==> Same(Obj(fs), Obj(SessionFields(c)))
  {
    SessionFieldsAre(c);
    SessionDistinct(c);
    ScalarsAreSame(fs, SessionFields(c), SESSION_KEYS);
  }

  /** A document spells a challenge exactly when Python calls it equal to the challenge's dict. */
  lemma SpellsIffSame(document: Json, c: SessionChallenge)
    requires WellFormed(document)
    ensures SessionOf(document) == Some(c) <==> Same(document, Obj(SessionFields(c)))
  {
    if document.Obj? {
      SpellsIsSession(document.fields, c);
      SpellsIsScalars(document.fields, c);
      SessionScalarsAreSame(document.fields, c);
    }
  }

  /** The challenge of the receiver arrives as the challenge it was. */
  lemma ChallengeArrives(c: SessionChallenge, rest: string)
    requires Sendable(Obj(SessionFields(c)))
    ensures var r := ReadFrame(WriteFrame(Obj(SessionFields(c))).value + rest);
            r.rest == rest && r.outcome.Ok? && SessionOf(r.outcome.value) == Some(c)
  {
    ReadWritten(Obj(SessionFields(c)), rest);
    NormalSame(Obj(SessionFields(c)));
    SpellsIffSame(Normal(Obj(SessionFields(c))), c);
  }

  // ---- The conversation ----

  predicate ReadyOk(document: Json, sessionId: string, relayId: string)
  {
    && document.Obj? && KeysAre(document.fields, READY_KEYS)
    && Get(document.fields, "protocol_version") == Some(Num(1))
    && Get(document.fields, "type") == Some(Str("relay.session-ready"))
    && Get(document.fields, "session_id") == Some(Str(sessionId))
    && Get(document.fields, "challenge_id") == Some(Str(sessionId))
    && Get(document.fields, "relay_id") == Some(Str(relayId))
  }

  predicate AckOk(document: Json, sessionId: string)
  {
    && document.Obj? && KeysAre(document.fields, ACK_KEYS)
    && Get(document.fields, "protocol_version") == Some(Num(1))
    && Get(document.fields, "type") == Some(Str("relay.telemetry-ack"))
    && Get(document.fields, "session_id") == Some(Str(sessionId))
    && Get(document.fields, "sequence") == Some(Num(1))
  }

  /** What the relay may do: answer each read with a document, or fail it. */
  datatype Relay = Relay(challenge: Option<Json>, ready: Option<Json>, ack: Option<Json>)

  /** The message the device signs for the challenge it was sent, if it signs at all. */
  function Answer(id: Identity, relayId: string, challenge: Option<Json>, now: int): Option<Message>
  {
    if challenge.Some? && SessionOf(challenge.value).Some?
    then SignSession(id, SessionOf(challenge.value).value, relayId, now)
    else None
  }

  predicate Fits(document: Json)
  {
    WriteFrame(document).Ok?
  }

  /** The telemetry frame, once the relay has confirmed the session of the signed challenge. */
  function Release(lower: Lower, relayId: string, snapshot: Json, ready: Option<Json>, proof: Message): Option<Json>
    requires proof.SessionAuth?
  {
    if ready.Some? && ReadyOk(ready.value, proof.session.sessionId, relayId) then
      match Sanitize(lower, snapshot)
      case Err(_) => None
      case Ok(filtered) => Some(Envelope(proof.session.sessionId, filtered))
    else None
  }

  predicate Acknowledged(ack: Option<Json>, proof: Message)
    requires proof.SessionAuth?
  {
    ack.Some? && AckOk(ack.value, proof.session.sessionId)
  }

  datatype Sent = Sent(frames: seq<Json>, success: bool)

  /** One `send_snapshot`: the frames the device puts on the stream, in order, and whether it reports success. */
  function Conversation(lower: Lower, id: Identity, relayId: string, snapshot: Json, relay: Relay, now: int,
                        signature: Bytes): Sent
  {
    var hello := HelloDocument(id.deviceId);
    var proof := Answer(id, relayId, relay.challenge, now);
    if !Fits(hello) then Sent([], false)
    else if proof == None || !Fits(AuthDocument(proof.value, Encode(signature))) then Sent([hello], false)
    else
      var answer := AuthDocument(proof.value, Encode(signature));
      var telemetry := Release(lower, relayId, snapshot, relay.ready, proof.value);
      if telemetry == None || !Fits(telemetry.value) then Sent([hello, answer], false)
      else Sent([hello, answer, telemetry.value], Acknowledged(relay.ack, proof.value))
  }

  /** A conversation in which nothing is refused. */
  lemma UnrefusedConversation(lower: Lower, id: Identity, relayId: string, snapshot: Json, relay: Relay, now: int,
                              signature: Bytes, m: Message, telemetry: Json)
    requires m.SessionAuth? && Answer(id, relayId, relay.challenge, now) == Some(m)
    requires Fits(HelloDocument(id.deviceId)) && Fits(AuthDocument(m, Encode(signature))) && Fits(telemetry)
    requires Release(lower, relayId, snapshot, relay.ready, m) == Some(telemetry) && Acknowledged(relay.ack, m)
    ensures Conversation(lower, id, relayId, snapshot, relay, now, signature)
         == Sent([HelloDocument(id.deviceId), AuthDocument(m, Encode(signature)), telemetry], true)
  {
  }

  lemma UnderstoodIsAnswered(id: Identity, c: SessionChallenge, challenge: Option<Json>, now: int)
    requires challenge.Some? && SessionOf(challenge.value) == Some(c) && ValidSession(c, id.deviceId, c.relayId, now)
    ensures Answer(id, c.relayId, challenge, now) == Some(SessionAuth(c, id.deviceId, Encode(id.key), now))
  {
  }

  lemma ConfirmedIsReleased(lower: Lower, relayId: string, snapshot: Json, ready: Option<Json>, m: Message)
    requires m.SessionAuth? && ready.Some? && ReadyOk(ready.value, m.session.sessionId, relayId)
    requires Sanitize(lower, snapshot).Ok?
    ensures Release(lower, relayId, snapshot, ready, m)
            == Some(Envelope(m.session.sessionId, Sanitize(lower, snapshot).value))
  {
  }

  /** The program's order of writes and reads. */
  method SendSnapshot(lower: Lower, id: Identity, relayId: string, snapshot: Json, relay: Relay, now: int,
                      signature: Bytes)
    returns (sent: seq<Json>, success: bool)
    ensures Sent(sent, success) == Conversation(lower, id, relayId, snapshot, relay, now, signature)
  {
    sent, success := [], false;
    var hello := HelloDocument(id.deviceId);
    if !Fits(hello) {
      return;
    }
    sent := [hello];
    var proof := Answer(id, relayId, relay.challenge, now);
    if proof == None {
      return;
    }
    var answer := AuthDocument(proof.value, Encode(signature));
    if !Fits(answer) {
      return;
    }
    sent := [hello, answer];
    var telemetry := Release(lower, relayId, snapshot, relay.ready, proof.value);
    if telemetry == None || !Fits(telemetry.value) {
      return;
    }
    sent := [hello, answer, telemetry.value];
    success := Acknowledged(relay.ack, proof.value);
  }

  lemma ReleasedIsFiltered(lower: Lower, relayId: string, snapshot: Json, ready: Option<Json>, proof: Message)
    requires proof.SessionAuth?
    ensures Release(lower, relayId, snapshot, ready, proof).Some? ==>
              && ready.Some? && ReadyOk(ready.value, proof.session.sessionId, relayId) && Sanitize(lower, snapshot).Ok?
              && Release(lower, relayId, snapshot, ready, proof).value
                 == Envelope(proof.session.sessionId, Sanitize(lower, snapshot).value)
  {
  }

  lemma AnswerIsValid(id: Identity, relayId: string, challenge: Option<Json>, now: int)
    ensures Answer(id, relayId, challenge, now).Some? ==>
              && challenge.Some? && Answer(id, relayId, challenge, now).value.SessionAuth?
              && SessionOf(challenge.value) == Some(Answer(id, relayId, challenge, now).value.session)
              && ValidSession(Answer(id, relayId, challenge, now).value.session, id.deviceId, relayId, now)
  {
  }

  lemma ThirdFrame(lower: Lower, id: Identity, relayId: string, snapshot: Json, relay: Relay, now: int,
                   signature: Bytes)
    ensures var s := Conversation(lower, id, relayId, snapshot, relay, now, signature);
            var proof := Answer(id, relayId, relay.challenge, now);
            && |s.frames| <= 3 && (s.success ==> |s.frames| == 3)
            && (|s.frames| == 3 ==>
                  && proof.Some? && Release(lower, relayId, snapshot, relay.ready, proof.value) == Some(s.frames[2])
                  && s.success == Acknowledged(relay.ack, proof.value))
  {
  }

  /** Telemetry leaves the device only as the third frame, filtered, under a session whose challenge was valid
      for this device and relay and which the relay has confirmed; and success means it was acknowledged. */
  lemma TelemetryIsGuarded(lower: Lower, id: Identity, relayId: string, snapshot: Json, relay: Relay, now: int,
                           signature: Bytes)
    requires |Conversation(lower, id, relayId, snapshot, relay, now, signature).frames| >= 3
             || Conversation(lower, id, relayId, snapshot, relay, now, signature).success
    ensures var s := Conversation(lower, id, relayId, snapshot, relay, now, signature);
            && |s.frames| == 3 && relay.challenge.Some? && SessionOf(relay.challenge.value).Some?
            && var c := SessionOf(relay.challenge.value).value;
               && ValidSession(c, id.deviceId, relayId, now)
               && relay.ready.Some? && ReadyOk(relay.ready.value, c.sessionId, relayId)
               && Sanitize(lower, snapshot).Ok? && s.frames[2] == Envelope(c.sessionId, Sanitize(lower, snapshot).value)
               && (s.success <==> relay.ack.Some? && AckOk(relay.ack.value, c.sessionId))
  {
    ThirdFrame(lower, id, relayId, snapshot, relay, now, signature);
    AnswerIsValid(id, relayId, relay.challenge, now);
    ReleasedIsFiltered(lower, relayId, snapshot, relay.ready, Answer(id, relayId, relay.challenge, now).value);
  }

  /** A device never refuses its own envelope for its size: every filtered snapshot fits. */
  lemma TelemetryAlwaysFits(lower: Lower, id: Identity, relayId: string, challenge: Option<Json>, now: int,
                            snapshot: Json)
    requires WellFormed(snapshot) && Sanitize(lower, snapshot).Ok? && Answer(id, relayId, challenge, now).Some?
    ensures Fits(Envelope(Answer(id, relayId, challenge, now).value.session.sessionId, Sanitize(lower, snapshot).value))
  {
    EnvelopeSendable(lower, snapshot, Answer(id, relayId, challenge, now).value.session.sessionId);
  }
}
