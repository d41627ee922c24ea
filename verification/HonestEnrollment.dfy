/**
 One undisturbed enrollment, from the pairing code shown on the device to the device in the relay's
 allowlist: every document either side produces is one the other side accepts.
 */
module HonestEnrollment {
  import opened Prelude
  import opened Text
  import opened Sorting
  import opened Base64
  import opened Messages
  import opened Enrollment
  import opened RelayConfig

  /** The code as it is shown: two groups of five. */
  function Shown(code: string): string
    requires |code| == 10
  {
    code[..5] + "-" + code[5..]
  }

  predicate IsCode(code: string)
  {
    |code| == 10 && forall c | c in code :: c in PAIRING_ALPHABET
  }

  lemma StripCons(c: char, rest: string)
    ensures Strip([c] + rest) == (if c == '-' || c == ' ' then "" else [c]) + Strip(rest)
  {
    assert ([c] + rest)[1..] == rest;
  }

  lemma {:induction false} StripConcat(a: string, b: string)
    ensures Strip(a + b) == Strip(a) + Strip(b)
  {
    if a == "" {
      assert a + b == b;
    } else {
      StripConcat(a[1..], b);
      StripCons(a[0], a[1..]);
      StripCons(a[0], a[1..] + b);
      assert a == [a[0]] + a[1..] && a + b == [a[0]] + (a[1..] + b);
    }
  }

  lemma StripJoined(head: string, tail: string)
    requires Strip(head) == head && Strip(tail) == tail
    ensures Strip(head + (['-'] + tail)) == head + tail
  {
    StripCons('-', tail);
    StripConcat(head, ['-'] + tail);
  }

  lemma StripShown(code: string)
    requires |code| == 10 && '-' !in code && ' ' !in code
    ensures Strip(Shown(code)) == code
  {
    var head, tail := code[..5], code[5..];
    StripClean(head);
    StripClean(tail);
    StripJoined(head, tail);
    assert Shown(code) == head + (['-'] + tail);
    assert code == head + tail;
  }

  lemma ShownIsOfferCode(code: string)
    requires IsCode(code)
    ensures IsOfferCode(Shown(code))
  {
    var shown := Shown(code);
    forall i | 0 <= i < 11 && i != 5 ensures shown[i] in PAIRING_ALPHABET {
      assert shown[i] == if i < 5 then code[i] else code[i - 1];
    }
  }

  lemma CodeIsPlain(code: string)
    requires IsCode(code)
    ensures '-' !in code && ' ' !in code
  {
    AlphabetIsPlain();
  }

  /** Typing the code as it is shown gives the code. */
  lemma ShownCodeIsRead(upper: string -> string, code: string)
    requires IsCode(code) && upper(code) == code
    ensures IsOfferCode(Shown(code)) && NormalizeCode(upper, Shown(code)) == Some(code)
  {
    CodeIsPlain(code);
    ShownIsOfferCode(code);
    StripShown(code);
  }

  lemma AlphabetIsPlain()
    ensures '-' !in PAIRING_ALPHABET && ' ' !in PAIRING_ALPHABET
  {
  }

  /** A device and a relay that do not know each other yet. */
  ghost predicate Strangers(did: DeviceIdOf, id: Identity, s: State, d: Disk, relayKey: Bytes)
  {
    && |id.key| == 32 && did(id.key) == id.deviceId && IsDeviceId(id.deviceId)
    && Loads(did, d) && |relayKey| == 32 && d.state.peerKey == Encode(relayKey)
    && !HasDevice(d.config.devices, id.deviceId) && |d.config.devices| < MAX_DEVICES
    && !ActivePeer(s, d.state.peerId)
  }

  function OfferOf(id: Identity, pairingId: string, code: string, expires: int): Offer
    requires |code| == 10
  {
    Offer(pairingId, id.deviceId, Encode(id.key), Shown(code), expires)
  }

  lemma OfferIsValid(did: DeviceIdOf, upper: string -> string, id: Identity, pairingId: string, code: string,
                     expires: int)
    requires |id.key| == 32 && did(id.key) == id.deviceId && IsDeviceId(id.deviceId) && IsUuid(pairingId)
    requires IsCode(code) && upper(code) == code
    ensures ValidOffer(did, OfferOf(id, pairingId, code, expires))
  {
    ShownCodeIsRead(upper, code);
    EncodedKeyText(id.key);
    DecodeKeyEncoded(id.key);
  }

  /** A request whose challenge times were rewritten on the way: the peer's proof does not cover them. */
  function Carried(request: Request, issued: int, expires: int): Request
  {
    request.(challenge := request.challenge.(issued := issued, expires := expires))
  }

  /** The device accepts the relay's request for its own offer, with whatever valid times it arrives. */
  lemma RequestIsAccepted(upper: string -> string, id: Identity, s: State, d: Disk, relayKey: Bytes, offer: Offer,
                          code: string,
                          challengeId: string, nonce: Bytes, asked: int, issued: int, expires: int, now: int,
                          signed: Signatures)
    requires |relayKey| == 32 && d.state.peerKey == Encode(relayKey) && IsName(d.state.peerId)
    requires IsName(d.state.relayId)
    requires IsCode(code) && upper(code) == code && offer.code == Shown(code) && offer.deviceId == id.deviceId
    requires IsUuid(offer.pairingId) && IsUuid(challengeId) && |nonce| == 32 && challengeId !in s.used
    requires offer.pairingId in s.pairings && s.pairings[offer.pairingId].code == code
    requires now < s.pairings[offer.pairingId].expires
    requires !ActivePeer(s, d.state.peerId)
    requires issued < expires <= issued + MAX_CHALLENGE_LIFETIME && issued <= now + CHALLENGE_CLOCK_SKEW
    requires now < expires
    requires (relayKey, Payload(ProofOf(RequestFor(d, offer, challengeId, Encode(nonce), asked),
                                        id.deviceId))) in signed
    ensures var request := Carried(RequestFor(d, offer, challengeId, Encode(nonce), asked), issued, expires);
            var o := CompleteEnrollment(upper, id, s, now, request, signed);
            && o.wrote && o.result == Ok(ReceiptFor(id, request, Peer(d.state.peerId, relayKey, now, None), now))
            && o.state.peers == s.peers[d.state.peerId := Peer(d.state.peerId, relayKey, now, None)]
            && offer.pairingId !in o.state.pairings && challengeId in o.state.used
  {
    ShownCodeIsRead(upper, code);
    DecodeKeyEncoded(relayKey);
    DecodeKeyEncoded(nonce);
    var request := Carried(RequestFor(d, offer, challengeId, Encode(nonce), asked), issued, expires);
    assert ValidChallenge(request.challenge, id.deviceId, now);
    assert ValidProof(request, id.deviceId, signed);
  }

  lemma EnrolledListLoads(did: DeviceIdOf, c: Config, device: Device)
    requires LoaderAccepts(did, c) && DeviceOk(did, device) && !HasDevice(c.devices, device.deviceId)
    requires |c.devices| < MAX_DEVICES
    ensures LoaderAccepts(did, Enroll(c, device)) && device in Enroll(c, device).devices
  {
    var all := c.devices + [device];
    assert DistinctBy(IdOf, all) by {
      forall i, j | 0 <= i < j < |all| ensures IdOf(all[i]) != IdOf(all[j]) {
        assert all[i] == c.devices[i];
        if j < |c.devices| { assert c.devices[i].deviceId != c.devices[j].deviceId; }
      }
    }
    SortMembers(IdOf, all);
    SortAscending(IdOf, all);
    var sorted := SortBy(IdOf, all);
    AscendingDistinct(IdOf, sorted);
    forall i | 0 <= i < |sorted| ensures DeviceOk(did, sorted[i]) { assert sorted[i] in all; }
    forall i, j | 0 <= i < j < |sorted| ensures sorted[i].deviceId != sorted[j].deviceId {
      assert IdOf(sorted[i]) != IdOf(sorted[j]);
    }
    assert all[|c.devices|] == device;
    assert sorted != [];
  }

  /** The relay accepts the device's receipt for its own request. */
  lemma ReceiptIsAccepted(did: DeviceIdOf, id: Identity, d: Disk, relayKey: Bytes, offer: Offer, challengeId: string,
                          nonce: string, asked: int, at: int, signed: Signatures)
    requires |id.key| == 32 && did(id.key) == id.deviceId && IsDeviceId(id.deviceId)
    requires Loads(did, d) && d.state.peerKey == Encode(relayKey)
    requires !HasDevice(d.config.devices, id.deviceId) && |d.config.devices| < MAX_DEVICES
    requires offer.deviceId == id.deviceId && offer.deviceKey == Encode(id.key)
    requires ValidOffer(did, offer) && asked < offer.expires
    requires var request := RequestFor(d, offer, challengeId, nonce, asked);
             (id.key, Payload(ReceiptFor(id, request, Peer(d.state.peerId, relayKey, at, None), at))) in signed
    ensures var asking := CreateRequest(did, d, offer, true, challengeId, nonce, asked);
            && asking.result == Ok(RequestFor(d, offer, challengeId, nonce, asked)) && |asking.writes| == 1
            && var receipt := ReceiptFor(id, asking.result.value, Peer(d.state.peerId, relayKey, at, None), at);
               var e := Import(did, asking.writes[0], receipt, signed);
               && e.result == Ok(false) && |e.writes| == 2
               && Device(id.deviceId, Encode(id.key)) in e.writes[1].config.devices
               && challengeId !in e.writes[1].state.pending && Loads(did, e.writes[1])
  {
    var d1 := CreateRequest(did, d, offer, true, challengeId, nonce, asked).writes[0];
    var device := Device(id.deviceId, Encode(id.key));
    DecodeKeyEncoded(id.key);
    EncodedKeyText(id.key);
    EnrolledListLoads(did, d.config, device);
    assert device !in d.config.devices;
    assert Loads(did, d1);
    assert Save(did, d1, Enroll(d1.config, device)).Some?;
  }

  /** The device answers this request, and the relay, left with `asked` when it made the request, imports the answer:
      the device lists the relay as an active peer under the relay's key, and the relay's allowlist holds the device
      under the device's key. */
  ghost predicate EndsEnrolled(did: DeviceIdOf, upper: string -> string, id: Identity, s: State, request: Request,
                               asked: Disk, relayKey: Bytes, now: int, proofs: Signatures, receipts: Signatures)
  {
    var completing, peerId := CompleteEnrollment(upper, id, s, now, request, proofs), asked.state.peerId;
    && completing.result.Ok?
    && peerId in completing.state.peers && completing.state.peers[peerId] == Peer(peerId, relayKey, now, None)
    && var importing := Import(did, asked, completing.result.value, receipts);
       && importing.result == Ok(false) && |importing.writes| == 2
       && Device(id.deviceId, Encode(id.key)) in importing.writes[1].config.devices
       && request.challenge.challengeId !in importing.writes[1].state.pending && Loads(did, importing.writes[1])
  }

  /** From strangers to enrolled, with whatever valid times the request arrives. */
  lemma EnrollmentSucceeds(
      did: DeviceIdOf, upper: string -> string, id: Identity, s: State, d: Disk, relayKey: Bytes,
      pairingId: string, code: string, ttl: int, offered: int, challengeId: string, nonce: Bytes, asked: int,
      issued: int, expires: int, now: int, proofs: Signatures, receipts: Signatures)
    requires Strangers(did, id, s, d, relayKey)
    requires IsUuid(pairingId) && IsUuid(challengeId) && |nonce| == 32 && challengeId !in s.used
    requires IsCode(code) && upper(code) == code && MIN_PAIRING_TTL <= ttl <= MAX_PAIRING_TTL
    // The relay asks and the device answers before the offer expires; the challenge is valid on the device's clock.
    requires asked < offered + ttl * SECOND && now < offered + ttl * SECOND
    requires issued < expires <= issued + MAX_CHALLENGE_LIFETIME && issued <= now + CHALLENGE_CLOCK_SKEW
    requires now < expires
    // The relay signed its proof, and the device its receipt.
    requires var offer := OfferOf(id, pairingId, code, offered + ttl * SECOND);
             var request := RequestFor(d, offer, challengeId, Encode(nonce), asked);
             && (relayKey, Payload(ProofOf(request, id.deviceId))) in proofs
             && (id.key, Payload(ReceiptFor(id, request, Peer(d.state.peerId, relayKey, now, None), now))) in receipts
    ensures var offering := Create(s, offered, ttl, pairingId, code);
            && offering.result == Ok(offered + ttl * SECOND)
            && var offer := OfferOf(id, pairingId, code, offering.result.value);
               var asking := CreateRequest(did, d, offer, true, challengeId, Encode(nonce), asked);
               && asking.result == Ok(RequestFor(d, offer, challengeId, Encode(nonce), asked)) && |asking.writes| == 1
               && EndsEnrolled(did, upper, id, offering.state, Carried(asking.result.value, issued, expires),
                               asking.writes[0], relayKey, now, proofs, receipts)
  {
    var offer := OfferOf(id, pairingId, code, offered + ttl * SECOND);
    OfferIsValid(did, upper, id, pairingId, code, offered + ttl * SECOND);
    RequestIsAccepted(upper, id, Create(s, offered, ttl, pairingId, code).state, d, relayKey, offer, code,
                      challengeId, nonce, asked, issued, expires, now, proofs);
    ReceiptIsAccepted(did, id, d, relayKey, offer, challengeId, Encode(nonce), asked, now, receipts);
  }

  /** The relay's own times are among them. */
  lemma CarriedUnchanged(d: Disk, offer: Offer, challengeId: string, nonce: string, asked: int)
    ensures var request := RequestFor(d, offer, challengeId, nonce, asked);
            Carried(request, asked, asked + CHALLENGE_TTL) == request
  {
  }

  /** Undisturbed: the device receives the request as the relay made it, while its challenge lasts. */
  lemma UndisturbedEnrollment(
      did: DeviceIdOf, upper: string -> string, id: Identity, s: State, d: Disk, relayKey: Bytes,
      pairingId: string, code: string, ttl: int, offered: int, challengeId: string, nonce: Bytes, asked: int, now: int,
      proofs: Signatures, receipts: Signatures)
    requires Strangers(did, id, s, d, relayKey)
    requires IsUuid(pairingId) && IsUuid(challengeId) && |nonce| == 32 && challengeId !in s.used
    requires IsCode(code) && upper(code) == code && MIN_PAIRING_TTL <= ttl <= MAX_PAIRING_TTL
    requires asked < offered + ttl * SECOND && now < offered + ttl * SECOND
    requires asked - CHALLENGE_CLOCK_SKEW <= now < asked + CHALLENGE_TTL
    requires var offer := OfferOf(id, pairingId, code, offered + ttl * SECOND);
             var request := RequestFor(d, offer, challengeId, Encode(nonce), asked);
             && (relayKey, Payload(ProofOf(request, id.deviceId))) in proofs
             && (id.key, Payload(ReceiptFor(id, request, Peer(d.state.peerId, relayKey, now, None), now))) in receipts
    ensures var offering := Create(s, offered, ttl, pairingId, code);
            && offering.result == Ok(offered + ttl * SECOND)
            && var offer := OfferOf(id, pairingId, code, offering.result.value);
               var asking := CreateRequest(did, d, offer, true, challengeId, Encode(nonce), asked);
               && asking.result.Ok? && |asking.writes| == 1
               && EndsEnrolled(did, upper, id, offering.state, asking.result.value, asking.writes[0], relayKey, now,
                               proofs, receipts)
  {
    EnrollmentSucceeds(did, upper, id, s, d, relayKey, pairingId, code, ttl, offered, challengeId, nonce, asked,
                       asked, asked + CHALLENGE_TTL, now, proofs, receipts);
    CarriedUnchanged(d, OfferOf(id, pairingId, code, offered + ttl * SECOND), challengeId, Encode(nonce), asked);
  }
}
