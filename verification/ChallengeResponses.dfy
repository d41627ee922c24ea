/** A device's signed answer to an enrollment challenge, and its verification by anyone who has the key. */
module ChallengeResponses {
  import opened Prelude
  import opened Base64
  import opened Messages
  import opened Enrollment
  import opened RelayConfig

  /** `verify_challenge_response`. */
  predicate ResponseVerifies(did: DeviceIdOf, signed: Signatures, m: Message, now: int)
  {
    && m.ChallengeResponse?
    && DecodeKey(m.deviceKey).Some?
    && did(DecodeKey(m.deviceKey).value) == m.deviceId
    && ValidChallenge(m.challenge, m.deviceId, now)
    && m.challenge.issued - CHALLENGE_CLOCK_SKEW <= m.signedAt < m.challenge.expires
    && (DecodeKey(m.deviceKey).value, Payload(m)) in signed
  }

  /** What a device signed verifies exactly as long as the challenge itself is valid: the device's own check
      at signing time already implies the verifier's check of that time. */
  lemma SignedResponseVerifiesIff(did: DeviceIdOf, id: Identity, c: Challenge, at: int, signed: Signatures, now: int)
    requires |id.key| == 32 && did(id.key) == id.deviceId && SignChallenge(id, c, at).Ok?
    requires (id.key, Payload(SignChallenge(id, c, at).value)) in signed
    ensures ResponseVerifies(did, signed, SignChallenge(id, c, at).value, now) <==> ValidChallenge(c, id.deviceId, now)
  {
    DecodeKeyEncoded(id.key);
  }

  /** If the key belongs to a device that has signed only `log`, then what verifies is one of its responses. */
  lemma VerifiedResponseWasSigned(did: DeviceIdOf, signed: Signatures, m: Message, now: int, key: Bytes,
                                  log: set<Message>)
    requires ResponseVerifies(did, signed, m, now) && DecodeKey(m.deviceKey) == Some(key)
    requires forall p | (key, p) in signed :: exists n :: n in log && p == Payload(n)
    ensures m in log
  {
    var n :| n in log && Payload(m) == Payload(n);
    PayloadInjective(m, n);
  }
}
