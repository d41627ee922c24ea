/** When a challenge id is accepted again: the exact rule is in EnrollmentTheorems; here are the runs. */
module ChallengeReuse {
  import opened Prelude
  import opened Text
  import opened Base64
  import opened Messages
  import opened Enrollment
  import opened EnrollmentHistory
  import opened EnrollmentRuns
  import opened EnrollmentTheorems

  lemma OfferIsMade(w: World, now: int, id: string, code: string)
    requires Inv(w) && now >= w.clock
    ensures var w' := NextCreate(w, now, 60, id, code);
            && w'.identity == w.identity && w'.state.peers == w.state.peers
            && w'.hist.completions == w.hist.completions && w'.clock == now
            && (id !in w.hist.ledger.born ==> OnOffer(w'.hist.ledger, id, now))
            && id in w'.hist.ledger.born && w'.hist.ledger.born[id].code == code
            && w'.hist.ledger.born.Keys == w.hist.ledger.born.Keys + {id}
  {
  }

  /** One more pairing, and one more completion, of this request under the current identity. */
  ghost predicate CompletesOne(w: World, w': World, r: Request)
  {
    && Inv(w') && w'.clock == r.challenge.issued && w'.identity == w.identity
    && w'.hist.ledger.born.Keys == w.hist.ledger.born.Keys + {r.pairingId}
    && |w'.hist.completions| == |w.hist.completions| + 1
    && w'.hist.completions[..|w.hist.completions|] == w.hist.completions
    && w'.hist.completions[|w.hist.completions|].challenge == r.challenge
    && w'.hist.completions[|w.hist.completions|].identity == w.identity
    && w'.state.peers.Keys <= w.state.peers.Keys + {r.peerId}
  }

  /** One pairing offered and one request completed with it at the same moment. */
  lemma OfferAndComplete(upper: string -> string, w: World, r: Request, signed: Signatures)
    requires Inv(w) && r.challenge.issued >= w.clock && r.pairingId !in w.hist.ledger.born
    requires WellFormedRequest(r) && ValidChallenge(r.challenge, w.identity.deviceId, r.challenge.issued)
    requires ValidProof(r, w.identity.deviceId, signed) && NormalizeCode(upper, r.code) == Some(r.code)
    requires IdFree(w, r.challenge.challengeId, r.challenge.issued) && !ActivePeer(w.state, r.peerId)
    ensures var now := r.challenge.issued;
            CompletesOne(w, NextComplete(upper, NextCreate(w, now, 60, r.pairingId, r.code), now, r, signed), r)
  {
    var now := r.challenge.issued;
    var e := Event(now, CreatePairing(60, r.pairingId, r.code));
    var w1 := NextCreate(w, now, 60, r.pairingId, r.code);
    OfferIsMade(w, now, r.pairingId, r.code);
    StepKeepsInv(upper, w, e);
    CompletionIsExact(upper, w1, now, r, signed);
    assert PairingInv(w1.hist.ledger, w1.state.pairings, w1.clock, r.pairingId);
    CompleteUsed(upper, w1, now, r, signed);
    StepKeepsInv(upper, w1, Event(now, Complete(r, signed)));
  }

  /** A second request under the first one's challenge id, issued when that challenge has expired. */
  ghost predicate Reuses(r: Request, r': Request)
  {
    && r'.challenge.challengeId == r.challenge.challengeId && r.challenge.expires <= r'.challenge.issued
    && r'.pairingId != r.pairingId && r'.peerId != r.peerId
  }

  ghost predicate Acceptable(upper: string -> string, id: Identity, r: Request)
  {
    && WellFormedRequest(r) && ValidChallenge(r.challenge, id.deviceId, r.challenge.issued)
    && NormalizeCode(upper, r.code) == Some(r.code)
  }

  function Proof(id: Identity, r: Request): Signatures
    requires DecodeKey(r.peerKey).Some?
  {
    {(DecodeKey(r.peerKey).value, Payload(ProofOf(r, id.deviceId)))}
  }

  function OfferThenComplete(id: Identity, r: Request): seq<Event>
    requires DecodeKey(r.peerKey).Some?
  {
    [ Event(r.challenge.issued, CreatePairing(60, r.pairingId, r.code)),
      Event(r.challenge.issued, Complete(r, Proof(id, r))) ]
  }

  function AfterBoth(upper: string -> string, w: World, id: Identity, r: Request): World
    requires DecodeKey(r.peerKey).Some?
  {
    NextComplete(upper, NextCreate(w, r.challenge.issued, 60, r.pairingId, r.code), r.challenge.issued, r, Proof(id, r))
  }

  lemma RunOfferThenComplete(upper: string -> string, w: World, id: Identity, r: Request, rest: seq<Event>)
    requires DecodeKey(r.peerKey).Some? && r.challenge.issued >= w.clock && r.pairingId !in w.hist.ledger.born
    ensures var w2 := AfterBoth(upper, w, id, r);
            && Run(upper, w, OfferThenComplete(id, r) + rest) == Run(upper, w2, rest)
            && (LegalRun(upper, w, OfferThenComplete(id, r) + rest) <==> LegalRun(upper, w2, rest))
  {
    var es := OfferThenComplete(id, r);
    assert (es + rest)[1..] == [es[1]] + rest;
    assert ([es[1]] + rest)[1..] == rest;
  }

  function ReuseEvents(id: Identity, r: Request, r': Request): seq<Event>
    requires DecodeKey(r.peerKey).Some? && DecodeKey(r'.peerKey).Some?
  {
    OfferThenComplete(id, r) + (OfferThenComplete(id, r') + [])
  }

  /** The protocol notes say a successful challenge id cannot complete twice. In every store it can, once
      the first challenge has expired and a later challenge repeats its id. */
  lemma ChallengeIdCompletesTwice(upper: string -> string, id: Identity, r: Request, r': Request)
    requires |id.key| == 32 && Acceptable(upper, id, r) && Acceptable(upper, id, r') && Reuses(r, r')
    ensures var w0, events := Initial(id, r.challenge.issued), ReuseEvents(id, r, r');
            && LegalRun(upper, w0, events)
            && var cs := Run(upper, w0, events).hist.completions;
               |cs| == 2 && SameId(cs[0], cs[1]) && cs[0].challenge == r.challenge
  {
    var w0 := Initial(id, r.challenge.issued);
    InitialInv(id, r.challenge.issued);
    var w2 := AfterBoth(upper, w0, id, r);
    FirstCompletion(upper, w0, id, r);
    RunOfferThenComplete(upper, w0, id, r, OfferThenComplete(id, r') + []);
    SecondCompletion(upper, w2, id, r, r');
    RunOfferThenComplete(upper, w2, id, r', []);
  }

  lemma FirstCompletion(upper: string -> string, w: World, id: Identity, r: Request)
    requires Inv(w) && Acceptable(upper, id, r) && w.clock == r.challenge.issued && w.identity == id
    requires w.hist.ledger.born == map[] && w.state.peers == map[] && w.state.used == map[] && w.hist.completions == []
    ensures var w2 := AfterBoth(upper, w, id, r);
            && Inv(w2) && w2.clock == r.challenge.issued && w2.identity == id
            && w2.hist.ledger.born.Keys == {r.pairingId} && w2.state.peers.Keys <= {r.peerId}
            && |w2.hist.completions| == 1
            && w2.hist.completions[0].challenge == r.challenge && w2.hist.completions[0].identity == id
  {
    OfferAndComplete(upper, w, r, Proof(id, r));
    FirstOfOne(w, AfterBoth(upper, w, id, r), r);
  }

  lemma FirstOfOne(w: World, w': World, r: Request)
    requires CompletesOne(w, w', r) && w.hist.completions == []
    requires w.hist.ledger.born == map[] && w.state.peers == map[]
    ensures Inv(w') && w'.clock == r.challenge.issued && w'.identity == w.identity
    ensures w'.hist.ledger.born.Keys == {r.pairingId} && w'.state.peers.Keys <= {r.peerId}
    ensures |w'.hist.completions| == 1 && w'.hist.completions[0].challenge == r.challenge
    ensures w'.hist.completions[0].identity == w.identity
  {
  }

  lemma SecondCompletion(upper: string -> string, w: World, id: Identity, r: Request, r': Request)
    requires Inv(w) && w.clock == r.challenge.issued && w.identity == id
    requires Acceptable(upper, id, r) && Acceptable(upper, id, r') && Reuses(r, r')
    requires w.hist.ledger.born.Keys == {r.pairingId} && w.state.peers.Keys <= {r.peerId}
    requires |w.hist.completions| == 1 && w.hist.completions[0].challenge == r.challenge
    requires w.hist.completions[0].identity == id
    ensures r'.challenge.issued >= w.clock && r'.pairingId !in w.hist.ledger.born
    ensures var w2 := AfterBoth(upper, w, id, r');
            && |w2.hist.completions| == 2 && SameId(w2.hist.completions[0], w2.hist.completions[1])
  {
    OfferAndComplete(upper, w, r', Proof(id, r'));
    var w2 := AfterBoth(upper, w, id, r');
    assert w2.hist.completions[0] == w2.hist.completions[..1][0];
  }

  // ---- A concrete pair of requests ----

  /** Thirty-two equal bytes: a key or a nonce. */
  function Fill(n: nat, b: Byte): (bs: Bytes)
    ensures |bs| == n && forall i | 0 <= i < n :: bs[i] == b
  {
    seq(n, i => b)
  }

  const SAMPLE_CODE := "2222222222"

  /** A request for a device, under a challenge that lasts ten seconds. */
  function Sample(deviceId: string, issued: int, challengeId: string, nonce: Byte, pairingId: string, peerId: string,
                  peer: Byte): Request
  {
    Request(Challenge(challengeId, "relay", Encode(Fill(32, nonce)), deviceId, issued, issued + 10 * SECOND),
            pairingId, SAMPLE_CODE, peerId, Encode(Fill(32, peer)))
  }

  const SAMPLE_ID := "00000000-0000-4000-8000-000000000000"
  const FIRST_PAIRING := "00000000-0000-4000-8000-000000000001"
  const SECOND_PAIRING := "00000000-0000-4000-8000-000000000002"

  lemma SampleAcceptable(upper: string -> string, id: Identity, issued: int, challengeId: string, nonce: Byte,
                         pairingId: string, peerId: string, peer: Byte)
    requires upper(SAMPLE_CODE) == SAMPLE_CODE && IsUuid(challengeId) && IsUuid(pairingId) && IsName(peerId)
    ensures Acceptable(upper, id, Sample(id.deviceId, issued, challengeId, nonce, pairingId, peerId, peer))
  {
    SampleChallengeValid(id.deviceId, issued, challengeId, nonce);
    DecodeKeyEncoded(Fill(32, peer));
    SampleCode(upper);
  }

  lemma SampleChallengeValid(deviceId: string, issued: int, challengeId: string, nonce: Byte)
    requires IsUuid(challengeId)
    ensures ValidChallenge(Challenge(challengeId, "relay", Encode(Fill(32, nonce)), deviceId, issued,
                                     issued + 10 * SECOND),
                           deviceId, issued)
  {
    DecodeKeyEncoded(Fill(32, nonce));
    assert IsName("relay");
  }

  /** A device with the key of thirty-two ones enrolls peer "a" and, ten seconds later, peer "b", each with its own
      key and nonce, under one challenge id. */
  lemma SampleRequestsReuse(did: Bytes -> string, upper: string -> string)
    requires IsDeviceId(did(Fill(32, 1))) && upper(SAMPLE_CODE) == SAMPLE_CODE
    ensures var id := Identity(did(Fill(32, 1)), Fill(32, 1));
            var r := Sample(id.deviceId, 0, SAMPLE_ID, 2, FIRST_PAIRING, "a", 3);
            var r' := Sample(id.deviceId, 10 * SECOND, SAMPLE_ID, 4, SECOND_PAIRING, "b", 5);
            && Acceptable(upper, id, r) && Acceptable(upper, id, r')
            && var w0, events := Initial(id, 0), ReuseEvents(id, r, r');
               && LegalRun(upper, w0, events)
               && var cs := Run(upper, w0, events).hist.completions;
                  && |cs| == 2 && cs[0].challenge.challengeId == cs[1].challenge.challengeId == SAMPLE_ID
                  && cs[0].identity == cs[1].identity
  {
    var id := Identity(did(Fill(32, 1)), Fill(32, 1));
    SampleIds();
    SampleAcceptable(upper, id, 0, SAMPLE_ID, 2, FIRST_PAIRING, "a", 3);
    SampleAcceptable(upper, id, 10 * SECOND, SAMPLE_ID, 4, SECOND_PAIRING, "b", 5);
    ChallengeIdCompletesTwice(upper, id, Sample(id.deviceId, 0, SAMPLE_ID, 2, FIRST_PAIRING, "a", 3),
                              Sample(id.deviceId, 10 * SECOND, SAMPLE_ID, 4, SECOND_PAIRING, "b", 5));
  }

  /** A UUID of zeros but for its last digit is well formed. */
  lemma ZeroUuid(s: string, last: char)
    requires s == "00000000-0000-4000-8000-00000000000" + [last] && IsDigit(last)
    ensures IsUuid(s)
  {
    forall i | 0 <= i < 36 ensures if i in {8, 13, 18, 23} then s[i] == '-' else IsLowerHex(s[i]) {}
  }

  lemma SampleIds()
    ensures IsUuid(SAMPLE_ID) && IsUuid(FIRST_PAIRING) && IsUuid(SECOND_PAIRING) && FIRST_PAIRING != SECOND_PAIRING
    ensures IsName("a") && IsName("b")
  {
    var zeros := "00000000-0000-4000-8000-00000000000";
    assert SAMPLE_ID == zeros + ['0'] && FIRST_PAIRING == zeros + ['1'] && SECOND_PAIRING == zeros + ['2'];
    ZeroUuid(SAMPLE_ID, '0');
    ZeroUuid(FIRST_PAIRING, '1');
    ZeroUuid(SECOND_PAIRING, '2');
    assert FIRST_PAIRING[35] != SECOND_PAIRING[35];
  }

  lemma SampleCode(upper: string -> string)
    requires upper(SAMPLE_CODE) == SAMPLE_CODE
    ensures NormalizeCode(upper, SAMPLE_CODE) == Some(SAMPLE_CODE)
  {
    StripClean(SAMPLE_CODE);
  }
}
