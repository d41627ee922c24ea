/**
 The enrollment store as the program runs it: each call loads the state file, works on the loaded
 dicts in place, and writes the file back at most once.
 */
module EnrollmentStores {
  import opened Prelude
  import opened Text
  import opened Base64
  import opened Messages
  import opened Enrollment

  /** The state file as loaded into memory. */
  class LoadedState {
    var pairings: map<string, Pairing>
    var peers: map<string, Peer>
    var used: map<string, Used>

    constructor (s: State)
      ensures View() == s
    {
      pairings, peers, used := s.pairings, s.peers, s.used;
    }

    function View(): State
      reads this
    {
      State(pairings, peers, used)
    }

    method PruneExpired(now: int)
      modifies this
      ensures View() == PrunePairings(old(View()), now)
    {
      var expired := set p | p in pairings && pairings[p].expires <= now;
      ghost var before := pairings;
      while expired != {}
        invariant forall p | p in expired :: p in before && before[p].expires <= now
        invariant pairings.Keys <= before.Keys
        invariant forall p | p in pairings :: pairings[p] == before[p]
        invariant forall p | p in before && before[p].expires > now :: p in pairings
        invariant forall p | p in pairings && p !in expired :: before[p].expires > now
        invariant peers == old(peers) && used == old(used)
        decreases expired
      {
        var p :| p in expired;
        expired := expired - {p};
        pairings := pairings - {p};
      }
      assert pairings == PrunePairings(old(View()), now).pairings;
    }

    method PruneUsedChallenges(now: int)
      modifies this
      ensures View() == PruneUsed(old(View()), now)
    {
      var expired := set c | c in used && used[c].expires <= now;
      ghost var before := used;
      while expired != {}
        invariant forall c | c in expired :: c in before && before[c].expires <= now
        invariant used.Keys <= before.Keys
        invariant forall c | c in used :: used[c] == before[c]
        invariant forall c | c in before && before[c].expires > now :: c in used
        invariant forall c | c in used && c !in expired :: before[c].expires > now
        invariant peers == old(peers) && pairings == old(pairings)
        decreases expired
      {
        var c :| c in expired;
        expired := expired - {c};
        used := used - {c};
      }
      assert used == PruneUsed(old(View()), now).used;
    }
  }

  class EnrollmentStore {
    const upper: string -> string
    var identity: Identity
    var disk: State
    /** Every content the state file has had, the present one last: what a crash can leave behind. */
    ghost var durable: seq<State>

    ghost predicate Valid()
      reads this
    {
      durable != [] && durable[|durable| - 1] == disk
    }

    constructor (upper: string -> string, identity: Identity)
      ensures Valid() && this.upper == upper && this.identity == identity
      ensures disk == EMPTY_STATE && durable == [EMPTY_STATE]
    {
      this.upper := upper;
      this.identity := identity;
      disk := EMPTY_STATE;
      durable := [EMPTY_STATE];
    }

    method WriteState(s: LoadedState)
      modifies this`disk, this`durable
      ensures Valid() && disk == s.View() && durable == old(durable) + [disk]
    {
      disk := s.View();
      durable := durable + [disk];
    }

    method CreatePairing(now: int, ttl: int, pairingId: string, code: string) returns (r: Result<int, Refusal>)
      requires Valid()
      modifies this`disk, this`durable
      ensures Valid()
      ensures var o := Create(old(disk), now, ttl, pairingId, code);
              r == o.result && disk == o.state && durable == old(durable) + if o.wrote then [disk] else []
    {
      if !(MIN_PAIRING_TTL <= ttl <= MAX_PAIRING_TTL) {
        return Err(BadTtl);
      }
      var s := new LoadedState(disk);
      s.PruneExpired(now);
      var expires := now + ttl * SECOND;
      s.pairings := s.pairings[pairingId := Pairing(expires, code, PAIRING_ATTEMPTS)];
      WriteState(s);
      return Ok(expires);
    }

    /** The consume step on a loaded state. It writes every refusal back, and a success only if asked to. */
    method ConsumePairingLocked(s: LoadedState, pairingId: string, code: Option<string>, peerId: string, key: Bytes,
                                now: int, persistSuccess: bool)
      returns (r: Result<Peer, Refusal>)
      requires Valid()
      modifies s, this`disk, this`durable
      ensures Valid()
      ensures s.View() == Consume(old(s.View()), pairingId, code, peerId, key, now).0
      ensures r == Consume(old(s.View()), pairingId, code, peerId, key, now).1
      ensures if r.Err? || persistSuccess then disk == s.View() && durable == old(durable) + [disk]
              else disk == old(disk) && durable == old(durable)
    {
      if pairingId !in s.pairings || s.pairings[pairingId].expires <= now {
        s.pairings := s.pairings - {pairingId};
        WriteState(s);
        return Err(BadPairing);
      }
      var pairing := s.pairings[pairingId];
      if code != Some(pairing.code) {
        var left := pairing.attempts - 1;
        s.pairings := s.pairings[pairingId := pairing.(attempts := left)];
        if left <= 0 {
          s.pairings := s.pairings - {pairingId};
          assert s.pairings == old(s.pairings) - {pairingId};
        }
        WriteState(s);
        return Err(BadPairing);
      }
      if peerId in s.peers && s.peers[peerId].revokedAt == None {
        s.pairings := s.pairings - {pairingId};
        WriteState(s);
        return Err(PeerEnrolled);
      }
      s.pairings := s.pairings - {pairingId};
      var peer := Peer(peerId, key, now, None);
      s.peers := s.peers[peerId := peer];
      if persistSuccess {
        WriteState(s);
      }
      return Ok(peer);
    }

    method ConsumeOffer(now: int, pairingId: string, code: string, peerId: string, peerKey: string)
      returns (r: Result<Peer, Refusal>)
      requires Valid()
      modifies this`disk, this`durable
      ensures Valid()
      ensures var o := ConsumePairing(upper, old(disk), now, pairingId, code, peerId, peerKey);
              r == o.result && disk == o.state && durable == old(durable) + if o.wrote then [disk] else []
    {
      if !IsUuid(pairingId) || !IsName(peerId) {
        return Err(BadRequest);
      }
      var key := DecodeKey(peerKey);
      if key == None {
        return Err(BadRequest);
      }
      var s := new LoadedState(disk);
      r := ConsumePairingLocked(s, pairingId, NormalizeCode(upper, code), peerId, key.value, now, true);
    }

    /** What a completion does while it holds the lock. The single write comes after the challenge is marked used. */
    method CompleteLocked(now: int, request: Request, key: Bytes, signed: Signatures)
      returns (r: Result<Message, Refusal>)
      requires Valid() && IsUuid(request.pairingId) && IsName(request.peerId) && DecodeKey(request.peerKey) == Some(key)
      modifies this`disk, this`durable
      ensures Valid()
      ensures var o := CompleteEnrollment(upper, identity, old(disk), now, request, signed);
              r == o.result && disk == o.state && durable == old(durable) + if o.wrote then [disk] else []
    {
      var challenge := request.challenge;
      if !ValidChallenge(challenge, identity.deviceId, now) {
        return Err(BadChallenge);
      }
      var s := new LoadedState(disk);
      s.PruneUsedChallenges(now);
      if challenge.challengeId in s.used {
        return Err(ChallengeUsed);
      }
      if !ValidProof(request, identity.deviceId, signed) {
        return Err(BadProof);
      }
      var peer := ConsumePairingLocked(s, request.pairingId, NormalizeCode(upper, request.code), request.peerId,
                                       key, now, false);
      if peer.Err? {
        return Err(peer.error);
      }
      s.used := s.used[challenge.challengeId := Used(challenge.relayId, challenge.expires, now)];
      WriteState(s);
      return Ok(ReceiptFor(identity, request, peer.value, now));
    }

    /** The enrollment is visible on file all at once. Every content the file has from the start of the call on, at
        most two, shows none of the enrollment's marks or all of them, so a crash at any point leaves one or the
        other. */
    method CompleteRelayEnrollment(now: int, request: Request, signed: Signatures) returns (r: Result<Message, Refusal>)
      requires Valid()
      modifies this`disk, this`durable
      ensures Valid()
      ensures |old(durable)| <= |durable| <= |old(durable)| + 1 && durable[..|old(durable)|] == old(durable)
      ensures AllOrNothing(durable, |old(durable)|, request, now, r.Ok?)
      ensures var o := CompleteEnrollment(upper, identity, old(disk), now, request, signed);
              r == o.result && disk == o.state && durable == old(durable) + if o.wrote then [disk] else []
    {
      var key := DecodeKey(request.peerKey);
      if !IsUuid(request.pairingId) || !IsName(request.peerId) || key == None {
        r := Err(BadRequest);
        assert CompleteEnrollment(upper, identity, disk, now, request, signed) == Outcome(disk, false, r);
      } else {
        r := CompleteLocked(now, request, key.value, signed);
      }
      OutcomeAllOrNothing(upper, identity, old(disk), old(durable), durable, now, request, signed);
    }

    method Revoke(now: int, peerId: string) returns (r: Result<Peer, Refusal>)
      requires Valid()
      modifies this`disk, this`durable
      ensures Valid()
      ensures var o := Enrollment.Revoke(old(disk), now, peerId);
              r == o.result && disk == o.state && durable == old(durable) + if o.wrote then [disk] else []
    {
      var s := new LoadedState(disk);
      if peerId !in s.peers || s.peers[peerId].revokedAt != None {
        return Err(NoPeer);
      }
      s.peers := s.peers[peerId := s.peers[peerId].(revokedAt := Some(now))];
      WriteState(s);
      return Ok(s.peers[peerId]);
    }

    /** A new identity and an empty state file. */
    method RotateIdentity(confirmed: bool, next: Identity) returns (r: Result<Identity, Refusal>)
      requires Valid()
      modifies this
      ensures Valid()
      ensures confirmed ==>
              r == Ok(next) && identity == next && disk == EMPTY_STATE && durable == old(durable) + [EMPTY_STATE]
      ensures !confirmed ==>
              r == Err(Unconfirmed) && identity == old(identity) && disk == old(disk) && durable == old(durable)
    {
      if !confirmed {
        return Err(Unconfirmed);
      }
      var s := new LoadedState(disk);
      identity := next;
      s.pairings, s.peers, s.used := map[], map[], map[];
      WriteState(s);
      return Ok(identity);
    }
  }
}
