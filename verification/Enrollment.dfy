/**
 The device-side enrollment store: what each operation does to the durable state file. Time is in
 whole microseconds. A pairing's salted digest is idealised to the code itself, and Ed25519 to the
 set of (key, payload) pairs that the holders of the keys have signed.
 */
module Enrollment {
  import opened Prelude
  import opened Text
  import opened Base64
  import opened Messages

  const SECOND := 1_000_000
  const PAIRING_ALPHABET := "23456789ABCDEFGHJKLMNPQRSTUVWXYZ"
  const PAIRING_CODE_LENGTH := 10
  const MIN_PAIRING_TTL := 60
  const MAX_PAIRING_TTL := 1800
  const PAIRING_ATTEMPTS := 5
  const MAX_CHALLENGE_LIFETIME := 300 * SECOND
  const CHALLENGE_CLOCK_SKEW := 30 * SECOND

  type Signatures = set<(Bytes, string)>

  datatype Pairing = Pairing(expires: int, code: string, attempts: int)
  datatype Peer = Peer(peerId: string, key: Bytes, pairedAt: int, revokedAt: Option<int>)
  datatype Used = Used(relayId: string, expires: int, usedAt: int)
  datatype State = State(pairings: map<string, Pairing>, peers: map<string, Peer>, used: map<string, Used>)
  datatype Identity = Identity(deviceId: string, key: Bytes)

  datatype Request = Request(
    challenge: Challenge, pairingId: string, code: string, peerId: string, peerKey: string)

  datatype Refusal =
    | BadTtl | BadRequest | BadChallenge | ChallengeUsed | BadProof | BadPairing | PeerEnrolled | NoPeer | Unconfirmed

  /** The state file after an operation, whether the operation wrote it, and what the caller gets. */
  datatype Outcome<+T> = Outcome(state: State, wrote: bool, result: Result<T, Refusal>)

  const EMPTY_STATE := State(map[], map[], map[])

  // ---- Checks that need no state ----

  function Strip(code: string): string
  {
    if code == "" then ""
    else (if code[0] == '-' || code[0] == ' ' then "" else [code[0]]) + Strip(code[1..])
  }

  lemma {:induction false} StripClean(code: string)
    requires '-' !in code && ' ' !in code
    ensures Strip(code) == code
  {
    if code != "" {
      StripClean(code[1..]);
      assert code == [code[0]] + code[1..];
    }
  }

  /** The code a caller typed, or None when it is malformed; `upper` stands for `str.upper`. */
  function NormalizeCode(upper: string -> string, code: string): Option<string>
  {
    var normalized := upper(Strip(code));
    if |normalized| == PAIRING_CODE_LENGTH && forall c | c in normalized :: c in PAIRING_ALPHABET
    then Some(normalized)
    else None
  }

  function DecodeKey(text: string): Option<Bytes>
  {
    match Decode(text)
    case Some(key) => if |key| == 32 then Some(key) else None
    case None => None
  }

  lemma DecodeKeyEncoded(key: Bytes)
    requires |key| == 32
    ensures DecodeKey(Encode(key)) == Some(key)
  {
    DecodeEncode(key);
  }

  /** `_validate_relay_challenge`: shape, audience, lifetime, and the device's clock. */
  predicate ValidChallenge(c: Challenge, deviceId: string, now: int)
  {
    && IsUuid(c.challengeId)
    && IsName(c.relayId)
    && DecodeKey(c.nonce).Some?
    && c.audience == deviceId
    && c.issued < c.expires <= c.issued + MAX_CHALLENGE_LIFETIME
    && c.issued <= now + CHALLENGE_CLOCK_SKEW
    && now < c.expires
  }

  function ProofOf(request: Request, deviceId: string): Message
  {
    PeerProof(request.pairingId, request.peerId, deviceId,
              request.challenge.challengeId, request.challenge.relayId, request.challenge.nonce)
  }

  predicate ValidProof(request: Request, deviceId: string, signed: Signatures)
    requires DecodeKey(request.peerKey).Some?
  {
    (DecodeKey(request.peerKey).value, Payload(ProofOf(request, deviceId))) in signed
  }

  // ---- State changes ----

  function PrunePairings(s: State, now: int): State
  {
    s.(pairings := map p | p in s.pairings && s.pairings[p].expires > now :: s.pairings[p])
  }

  function PruneUsed(s: State, now: int): State
  {
    s.(used := map c | c in s.used && s.used[c].expires > now :: s.used[c])
  }

  predicate ActivePeer(s: State, peerId: string)
  {
    peerId in s.peers && s.peers[peerId].revokedAt == None
  }

  function Create(s: State, now: int, ttl: int, pairingId: string, code: string): Outcome<int>
  {
    if !(MIN_PAIRING_TTL <= ttl <= MAX_PAIRING_TTL) then Outcome(s, false, Err(BadTtl))
    else
      var pruned := PrunePairings(s, now);
      var expires := now + ttl * SECOND;
      var offer := Pairing(expires, code, PAIRING_ATTEMPTS);
      Outcome(pruned.(pairings := pruned.pairings[pairingId := offer]), true, Ok(expires))
  }

  /** `_consume_pairing_locked` on the loaded state: every refusal is written back by it. */
  function Consume(s: State, pairingId: string, code: Option<string>, peerId: string, key: Bytes, now: int)
    : (State, Result<Peer, Refusal>)
  {
    var without := s.(pairings := s.pairings - {pairingId});
    if pairingId !in s.pairings || s.pairings[pairingId].expires <= now then (without, Err(BadPairing))
    else
      var pairing := s.pairings[pairingId];
      if code != Some(pairing.code) then
        var left := pairing.attempts - 1;
        if left <= 0 then (without, Err(BadPairing))
        else (s.(pairings := s.pairings[pairingId := pairing.(attempts := left)]), Err(BadPairing))
      else if ActivePeer(s, peerId) then (without, Err(PeerEnrolled))
      else
        var peer := Peer(peerId, key, now, None);
        (without.(peers := s.peers[peerId := peer]), Ok(peer))
  }

  function ConsumePairing(upper: string -> string, s: State, now: int, pairingId: string, code: string,
                          peerId: string, peerKey: string)
    : Outcome<Peer>
  {
    if !IsUuid(pairingId) || !IsName(peerId) || DecodeKey(peerKey) == None then Outcome(s, false, Err(BadRequest))
    else
      var (after, result) := Consume(s, pairingId, NormalizeCode(upper, code), peerId, DecodeKey(peerKey).value, now);
      Outcome(after, true, result)
  }

  function ReceiptFor(id: Identity, request: Request, peer: Peer, now: int): Message
  {
    Receipt(request.challenge.challengeId, request.challenge.relayId, request.pairingId,
            id.deviceId, Encode(id.key), request.peerId, Encode(peer.key), now)
  }

  function CompleteEnrollment(upper: string -> string, id: Identity, s: State, now: int, request: Request,
                              signed: Signatures)
    : Outcome<Message>
  {
    var c := request.challenge;
    if !IsUuid(request.pairingId) || !IsName(request.peerId) || DecodeKey(request.peerKey) == None then
      Outcome(s, false, Err(BadRequest))
    else if !ValidChallenge(c, id.deviceId, now) then Outcome(s, false, Err(BadChallenge))
    else
      var pruned := PruneUsed(s, now);
      if c.challengeId in pruned.used then Outcome(s, false, Err(ChallengeUsed))
      else if !ValidProof(request, id.deviceId, signed) then Outcome(s, false, Err(BadProof))
      else
        var (after, result) := Consume(pruned, request.pairingId, NormalizeCode(upper, request.code),
                                       request.peerId, DecodeKey(request.peerKey).value, now);
        match result
        case Err(refusal) => Outcome(after, true, Err(refusal))
        case Ok(peer) =>
          Outcome(after.(used := after.used[c.challengeId := Used(c.relayId, c.expires, now)]), true,
                  Ok(ReceiptFor(id, request, peer, now)))
  }

  function Revoke(s: State, now: int, peerId: string): Outcome<Peer>
  {
    if !ActivePeer(s, peerId) then Outcome(s, false, Err(NoPeer))
    else
      var revoked := s.peers[peerId].(revokedAt := Some(now));
      Outcome(s.(peers := s.peers[peerId := revoked]), true, Ok(revoked))
  }

  /** The device's signature over a relay challenge; it changes nothing. */
  function SignChallenge(id: Identity, c: Challenge, now: int): Result<Message, Refusal>
  {
    if ValidChallenge(c, id.deviceId, now) then Ok(ChallengeResponse(c, id.deviceId, Encode(id.key), now))
    else Err(BadChallenge)
  }

  // ---- Completion is all or nothing ----

  /** The three marks an enrollment leaves in the state file. */
  predicate Enrolled(s: State, request: Request, peer: Peer, now: int)
  {
    && request.pairingId !in s.pairings
    && request.peerId in s.peers && s.peers[request.peerId] == peer
    && request.challenge.challengeId in s.used
    && s.used[request.challenge.challengeId] == Used(request.challenge.relayId, request.challenge.expires, now)
  }

  /** Before an enrollment the pairing is still offered, no active peer holds the name, and the
      challenge is unused or its use has expired. */
  predicate Unenrolled(s: State, request: Request, now: int)
  {
    && request.pairingId in s.pairings && now < s.pairings[request.pairingId].expires
    && !ActivePeer(s, request.peerId)
    && (request.challenge.challengeId in s.used ==> s.used[request.challenge.challengeId].expires <= now)
  }

  /** A completion moves the file in one write from none of the three marks to all of them, with nothing
      else touched but expired uses; so a crash at any point leaves one or the other. */
  lemma CompletionIsAtomic(upper: string -> string, id: Identity, s: State, now: int, request: Request,
                           signed: Signatures)
    requires CompleteEnrollment(upper, id, s, now, request, signed).result.Ok?
    ensures var after := CompleteEnrollment(upper, id, s, now, request, signed).state;
            && Unenrolled(s, request, now)
            && Enrolled(after, request, Peer(request.peerId, DecodeKey(request.peerKey).value, now, None), now)
            && after.pairings == s.pairings - {request.pairingId}
            && after.peers.Keys == s.peers.Keys + {request.peerId}
            && (forall q | q in s.peers && q != request.peerId :: after.peers[q] == s.peers[q])
            && (forall x | x in s.used && x !in after.used :: s.used[x].expires <= now)
            && (forall x | x in after.used && x != request.challenge.challengeId ::
                x in s.used && after.used[x] == s.used[x])
  {
  }

  /** A refused code, name or pairing only removes or charges the pairing it names. */
  lemma RefusedConsume(s: State, pairingId: string, code: Option<string>, peerId: string, key: Bytes, now: int)
    requires Consume(s, pairingId, code, peerId, key, now).1.Err?
    ensures var (after, result) := Consume(s, pairingId, code, peerId, key, now);
            && after.peers == s.peers && after.used == s.used
            && after.pairings.Keys <= s.pairings.Keys
            && (forall p | p in after.pairings && p != pairingId :: after.pairings[p] == s.pairings[p])
            && result.error in {BadPairing, PeerEnrolled}
  {
  }

  /** A refusal never enrolls: no peer appears or changes, no challenge is newly used, no pairing is
      offered; and a replay, a bad challenge or a bad proof does not touch the file at all. */
  lemma RefusalEnrollsNobody(upper: string -> string, id: Identity, s: State, now: int, request: Request,
                             signed: Signatures)
    requires CompleteEnrollment(upper, id, s, now, request, signed).result.Err?
    ensures var r := CompleteEnrollment(upper, id, s, now, request, signed);
            && r.state.peers == s.peers
            && r.state.pairings.Keys <= s.pairings.Keys
            && (forall p | p in r.state.pairings && p != request.pairingId :: r.state.pairings[p] == s.pairings[p])
            && (forall x | x in r.state.used :: x in s.used && r.state.used[x] == s.used[x])
            && (r.result.error in {BadRequest, BadChallenge, ChallengeUsed, BadProof} <==> !r.wrote)
            && (!r.wrote ==> r.state == s)
  {
    if CompleteEnrollment(upper, id, s, now, request, signed).wrote {
      RefusedConsume(PruneUsed(s, now), request.pairingId, NormalizeCode(upper, request.code), request.peerId,
                     DecodeKey(request.peerKey).value, now);
    }
  }

  /** No peer was written, no challenge newly used and no pairing offered. */
  predicate NothingEnrolled(s: State, s': State)
  {
    && s'.peers == s.peers && s'.pairings.Keys <= s.pairings.Keys
    && forall x | x in s'.used :: x in s.used && s'.used[x] == s.used[x]
  }

  /** Of the contents the file has had, those from `n` on were written by a completion: one that shows the whole
      enrollment after one that showed nothing of it, or none that shows any of it. */
  predicate AllOrNothing(contents: seq<State>, n: nat, request: Request, now: int, enrolled: bool)
    requires 0 < n <= |contents|
  {
    if enrolled then
      && |contents| == n + 1 && Unenrolled(contents[n - 1], request, now) && DecodeKey(request.peerKey).Some?
      && Enrolled(contents[n], request, Peer(request.peerId, DecodeKey(request.peerKey).value, now, None), now)
    else forall i | n <= i < |contents| :: NothingEnrolled(contents[n - 1], contents[i])
  }

  /** A call that writes its outcome at most once, after `before`, leaves all or nothing. */
  lemma OutcomeAllOrNothing(upper: string -> string, id: Identity, s: State, before: seq<State>, after: seq<State>,
                            now: int, request: Request, signed: Signatures)
    requires before != [] && before[|before| - 1] == s
    requires var o := CompleteEnrollment(upper, id, s, now, request, signed);
             after == before + if o.wrote then [o.state] else []
    ensures |before| <= |after| <= |before| + 1 && after[..|before|] == before
    ensures AllOrNothing(after, |before|, request, now,
                         CompleteEnrollment(upper, id, s, now, request, signed).result.Ok?)
  {
    if CompleteEnrollment(upper, id, s, now, request, signed).result.Ok? {
      CompletionIsAtomic(upper, id, s, now, request, signed);
    } else {
      RefusalEnrollsNobody(upper, id, s, now, request, signed);
    }
  }
}
