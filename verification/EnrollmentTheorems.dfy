/** What the runs of an enrollment store guarantee about pairings and peers. */
module EnrollmentTheorems {
  import opened Prelude
  import opened Text
  import opened Base64
  import opened Enrollment
  import opened EnrollmentHistory
  import opened EnrollmentRuns

  // ---- Single use ----

  /** Once a pairing has succeeded, been exhausted, expired, been burned or cleared, it stays so for the
      rest of every run: in particular it never succeeds again. */
  lemma {:induction false} RunFatesAreFinal(upper: string -> string, w: World, events: seq<Event>, p: string)
    requires Inv(w) && LegalRun(upper, w, events)
    ensures FinalFate(w.hist.ledger, Run(upper, w, events).hist.ledger, p)
    decreases |events|
  {
    assert PairingInv(w.hist.ledger, w.state.pairings, w.clock, p);
    if events != [] {
      var w' := Next(upper, w, events[0]);
      FatesAreFinal(upper, w, events[0], p);
      StepKeepsInv(upper, w, events[0]);
      RunFatesAreFinal(upper, w', events[1..], p);
    }
  }

  datatype Attempt = Attempt(pairingId: string, code: Option<string>, peerId: string)

  /** The pairing, normalized code and peer name of a call that got past every check that leaves the
      file alone, so that it reaches the consume step. */
  ghost predicate Reaches(upper: string -> string, w: World, e: Event, a: Attempt)
  {
    match e.op
    case ConsumeCode(id, code, peerId, peerKey) =>
      a == Attempt(id, NormalizeCode(upper, code), peerId) &&
      ConsumePairing(upper, w.state, e.now, id, code, peerId, peerKey).wrote
    case Complete(r, signed) =>
      a == Attempt(r.pairingId, NormalizeCode(upper, r.code), r.peerId) &&
      CompleteEnrollment(upper, w.identity, w.state, e.now, r, signed).wrote
    case _ => false
  }

  /** The named pairing is live and still in time. */
  ghost predicate OnOffer(l: Ledger, id: string, now: int)
  {
    id in l.fates && l.fates[id] == Live && id in l.born && id in l.failures && now < l.born[id].expires
  }

  ghost predicate RightCode(l: Ledger, a: Attempt)
  {
    a.pairingId in l.born && a.code == Some(l.born[a.pairingId].code)
  }

  /** One more failure on the account; the fifth ends the pairing. */
  ghost predicate Charged(l: Ledger, l': Ledger, id: string)
  {
    && id in l.failures && id in l'.failures && id in l'.fates
    && l'.failures[id] == l.failures[id] + 1
    && l'.fates[id] == (if l.failures[id] == PAIRING_ATTEMPTS - 1 then Exhausted else Live)
  }

  /** A live pairing is charged for every wrong or malformed code that reaches it in time, stays on offer
      while fewer than five were charged, and is gone with the fifth. */
  lemma WrongCodeIsCharged(upper: string -> string, w: World, e: Event, a: Attempt)
    requires Inv(w) && Legal(w, e) && Reaches(upper, w, e, a)
    requires OnOffer(w.hist.ledger, a.pairingId, e.now) && !RightCode(w.hist.ledger, a)
    ensures var w' := Next(upper, w, e);
            && Charged(w.hist.ledger, w'.hist.ledger, a.pairingId)
            && w'.hist.wins == w.hist.wins && w'.state.peers == w.state.peers
            && (a.pairingId in w'.state.pairings <==> w'.hist.ledger.fates[a.pairingId] == Live)
  {
    assert PairingInv(w.hist.ledger, w.state.pairings, w.clock, a.pairingId);
    if e.op.ConsumeCode? {
      WrongCodeCharges(w.hist.ledger, w.clock, w.state, a, DecodeKey(e.op.peerKey).value, e.now);
    } else {
      ChargeIgnoresUsed(w.hist.ledger, w.state, a.pairingId, a.code, a.peerId, e.now);
      WrongCodeCharges(w.hist.ledger, w.clock, PruneUsed(w.state, e.now), a, DecodeKey(e.op.request.peerKey).value,
                       e.now);
    }
  }

  /** The consume step, shared by both entry points. */
  lemma WrongCodeCharges(l: Ledger, clock: int, s: State, a: Attempt, key: Bytes, now: int)
    requires PairingInv(l, s.pairings, clock, a.pairingId) && OnOffer(l, a.pairingId, now) && !RightCode(l, a)
    ensures var (after, result) := Consume(s, a.pairingId, a.code, a.peerId, key, now);
            var l' := Charge(l, s, a.pairingId, a.code, a.peerId, now);
            && Charged(l, l', a.pairingId) && result.Err? && after.peers == s.peers
            && (a.pairingId in after.pairings <==> l'.fates[a.pairingId] == Live)
  {
  }

  /** The peer record a success writes. */
  ghost predicate Enrolls(w: World, w': World, a: Attempt)
  {
    var n := |w.hist.wins|;
    && |w'.hist.wins| == n + 1 && w'.hist.wins[..n] == w.hist.wins
    && w'.hist.wins[n].pairingId == a.pairingId
    && Won(w'.hist.ledger, a.pairingId) && a.pairingId !in w'.state.pairings
    && a.peerId in w'.state.peers && w'.state.peers[a.peerId] == w'.hist.wins[n].peer
    && ActivePeer(w'.state, a.peerId)
  }

  lemma ConsumeSucceedsIff(l: Ledger, clock: int, s: State, a: Attempt, key: Bytes, now: int)
    requires PairingInv(l, s.pairings, clock, a.pairingId)
    ensures Consume(s, a.pairingId, a.code, a.peerId, key, now).1.Ok?
       <==> OnOffer(l, a.pairingId, now) && RightCode(l, a) && !ActivePeer(s, a.peerId)
  {
  }

  lemma ConsumeEnrolls(upper: string -> string, w: World, e: Event, a: Attempt)
    requires Reaches(upper, w, e, a) && e.op.ConsumeCode?
    requires PairingInv(w.hist.ledger, w.state.pairings, w.clock, a.pairingId)
    ensures var w', key := Next(upper, w, e), DecodeKey(e.op.peerKey);
            && key.Some?
            && if Consume(w.state, a.pairingId, a.code, a.peerId, key.value, e.now).1.Ok? then Enrolls(w, w', a)
               else w'.hist.wins == w.hist.wins && w'.state.peers == w.state.peers
  {
    ConsumeEffect(w.hist.ledger, w.clock, w.state, a.pairingId, a.code, a.peerId, DecodeKey(e.op.peerKey).value, e.now);
  }

  lemma CompleteEnrolls(upper: string -> string, w: World, e: Event, a: Attempt)
    requires Reaches(upper, w, e, a) && e.op.Complete?
    requires PairingInv(w.hist.ledger, w.state.pairings, w.clock, a.pairingId)
    ensures var w', key := Next(upper, w, e), DecodeKey(e.op.request.peerKey);
            && key.Some?
            && if Consume(PruneUsed(w.state, e.now), a.pairingId, a.code, a.peerId, key.value, e.now).1.Ok?
               then Enrolls(w, w', a)
               else w'.hist.wins == w.hist.wins && w'.state.peers == w.state.peers
  {
    ChargeIgnoresUsed(w.hist.ledger, w.state, a.pairingId, a.code, a.peerId, e.now);
    ConsumeEffect(w.hist.ledger, w.clock, PruneUsed(w.state, e.now), a.pairingId, a.code, a.peerId,
                  DecodeKey(e.op.request.peerKey).value, e.now);
  }

  /** A peer record is written exactly when a live pairing is met in time with the right code and the
      name is free; otherwise no peer changes. */
  lemma SuccessIsExact(upper: string -> string, w: World, e: Event, a: Attempt)
    requires Inv(w) && Legal(w, e) && Reaches(upper, w, e, a)
    ensures var w' := Next(upper, w, e);
            if OnOffer(w.hist.ledger, a.pairingId, e.now) && RightCode(w.hist.ledger, a)
                && !ActivePeer(w.state, a.peerId)
            then Enrolls(w, w', a)
            else w'.hist.wins == w.hist.wins && w'.state.peers == w.state.peers
  {
    assert PairingInv(w.hist.ledger, w.state.pairings, w.clock, a.pairingId);
    if e.op.ConsumeCode? {
      ConsumeEnrolls(upper, w, e, a);
      ConsumeSucceedsIff(w.hist.ledger, w.clock, w.state, a, DecodeKey(e.op.peerKey).value, e.now);
    } else {
      CompleteEnrolls(upper, w, e, a);
      ConsumeSucceedsIff(w.hist.ledger, w.clock, PruneUsed(w.state, e.now), a, DecodeKey(e.op.request.peerKey).value,
                         e.now);
    }
  }

  // ---- Completion, exactly ----

  /** No acceptance of this challenge id under the current identity is still unexpired. */
  ghost predicate IdFree(w: World, challengeId: string, now: int)
  {
    forall i | 0 <= i < |w.hist.completions| ::
      w.hist.completions[i].challenge.challengeId == challengeId && w.hist.completions[i].identity == w.identity ==>
        w.hist.completions[i].challenge.expires <= now
  }

  ghost predicate WellFormedRequest(r: Request)
  {
    IsUuid(r.pairingId) && IsName(r.peerId) && DecodeKey(r.peerKey).Some?
  }

  /** A relay enrollment completes exactly when the request is well formed, the challenge is valid for this
      device now and its id free, the peer proved its key, and the pairing accepts the code and name. */
  lemma CompletionIsExact(upper: string -> string, w: World, now: int, r: Request, signed: Signatures)
    requires Inv(w) && now >= w.clock
    ensures var l, a := w.hist.ledger, Attempt(r.pairingId, NormalizeCode(upper, r.code), r.peerId);
            (&& WellFormedRequest(r)
             && ValidChallenge(r.challenge, w.identity.deviceId, now)
             && IdFree(w, r.challenge.challengeId, now)
             && ValidProof(r, w.identity.deviceId, signed)
             && OnOffer(l, r.pairingId, now) && RightCode(l, a) && !ActivePeer(w.state, r.peerId))
            <==> |NextComplete(upper, w, now, r, signed).hist.completions| == |w.hist.completions| + 1
  {
    if WellFormedRequest(r) {
      var a := Attempt(r.pairingId, NormalizeCode(upper, r.code), r.peerId);
      UsedCheckIsExact(w, r.challenge.challengeId, now);
      assert PairingInv(w.hist.ledger, w.state.pairings, w.clock, r.pairingId);
      ConsumeSucceedsIff(w.hist.ledger, w.clock, PruneUsed(w.state, now), a, DecodeKey(r.peerKey).value, now);
    }
  }

  // ---- Conservation ----

  ghost function OfFate(l: Ledger, f: Fate): set<string>
  {
    set p | p in l.fates && l.fates[p] == f
  }

  ghost function WinnersOf(wins: seq<Win>): set<string>
  {
    set i | 0 <= i < |wins| :: wins[i].pairingId
  }

  lemma {:induction false} DistinctWinners(wins: seq<Win>)
    requires forall i, j | 0 <= i < j < |wins| :: wins[i].pairingId != wins[j].pairingId
    ensures |WinnersOf(wins)| == |wins|
  {
    if wins != [] {
      var n := |wins| - 1;
      DistinctWinners(wins[..n]);
      assert WinnersOf(wins) == WinnersOf(wins[..n]) + {wins[n].pairingId};
    }
  }

  lemma DisjointSum(a: set<string>, b: set<string>)
    requires a !! b
    ensures |a + b| == |a| + |b|
  {
  }

  function Number(f: Fate): nat
  {
    match f
    case Live => 0
    case Succeeded => 1
    case Exhausted => 2
    case Expired => 3
    case Burned => 4
    case Cleared => 5
  }

  /** The pairings of the first `n` fates. */
  ghost function OfFirst(l: Ledger, n: nat): set<string>
  {
    set p | p in l.fates && Number(l.fates[p]) < n
  }

  /** No pairing has two fates. */
  lemma OneFateMore(l: Ledger, f: Fate)
    ensures |OfFirst(l, Number(f) + 1)| == |OfFirst(l, Number(f))| + |OfFate(l, f)|
  {
    DisjointSum(OfFirst(l, Number(f)), OfFate(l, f));
    assert OfFirst(l, Number(f) + 1) == OfFirst(l, Number(f)) + OfFate(l, f);
  }

  /** And every pairing has one. */
  lemma AllFates(l: Ledger)
    requires forall p :: p in l.born <==> p in l.fates
    ensures |OfFirst(l, 0)| == 0 && |OfFirst(l, 6)| == |l.born|
  {
    assert OfFirst(l, 0) == {};
    assert OfFirst(l, 6) == l.born.Keys;
  }

  lemma SixClasses(l: Ledger)
    requires forall p :: p in l.born <==> p in l.fates
    ensures |l.born| == |OfFate(l, Live)| + |OfFate(l, Succeeded)| + |OfFate(l, Exhausted)|
                        + |OfFate(l, Expired)| + |OfFate(l, Burned)| + |OfFate(l, Cleared)|
  {
    AllFates(l);
    OneFateMore(l, Live);
    OneFateMore(l, Succeeded);
    OneFateMore(l, Exhausted);
    OneFateMore(l, Expired);
    OneFateMore(l, Burned);
    OneFateMore(l, Cleared);
  }

  lemma WinnersSucceeded(w: World, p: string)
    requires Inv(w)
    ensures p in OfFate(w.hist.ledger, Succeeded) <==> p in WinnersOf(w.hist.wins)
  {
    assert PairingInv(w.hist.ledger, w.state.pairings, w.clock, p);
    if p in OfFate(w.hist.ledger, Succeeded) {
      assert WonBy(w.hist, p);
    }
    if p in WinnersOf(w.hist.wins) {
      var i :| 0 <= i < |w.hist.wins| && w.hist.wins[i].pairingId == p;
      assert WinOk(w, w.hist.wins[i]);
    }
  }

  lemma FatesOnFile(w: World, p: string)
    requires Inv(w)
    ensures (p in w.hist.ledger.born <==> p in w.hist.ledger.fates)
    ensures p in w.state.pairings <==> p in OfFate(w.hist.ledger, Live)
  {
    assert PairingInv(w.hist.ledger, w.state.pairings, w.clock, p);
  }

  /** Every pairing ever created is in exactly one of six classes; the live ones are those on file and the
      successes are as many as the peer records written. */
  lemma PairingsAreConserved(w: World)
    requires Inv(w)
    ensures var l := w.hist.ledger;
            && |l.born| == |OfFate(l, Live)| + |OfFate(l, Succeeded)| + |OfFate(l, Exhausted)|
                           + |OfFate(l, Expired)| + |OfFate(l, Burned)| + |OfFate(l, Cleared)|
            && OfFate(l, Live) == w.state.pairings.Keys
            && |OfFate(l, Succeeded)| == |w.hist.wins|
  {
    var l := w.hist.ledger;
    assert forall p :: (p in l.born <==> p in l.fates) && (p in w.state.pairings <==> p in OfFate(l, Live)) by {
      forall p ensures (p in l.born <==> p in l.fates) && (p in w.state.pairings <==> p in OfFate(l, Live)) {
        FatesOnFile(w, p);
      }
    }
    SixClasses(l);
    assert OfFate(l, Succeeded) == WinnersOf(w.hist.wins) by {
      forall p ensures p in OfFate(l, Succeeded) <==> p in WinnersOf(w.hist.wins) { WinnersSucceeded(w, p); }
    }
    DistinctWinners(w.hist.wins);
  }

  // ---- Peers ----

  /** An event that may end peer `q`: its revocation, or a confirmed rotation. */
  ghost predicate Ends(e: Event, q: string)
  {
    e.op == RevokePeer(q) || (e.op.Rotate? && e.op.confirmed)
  }

  lemma ConsumeKeepsActive(s: State, pairingId: string, code: Option<string>, peerId: string, key: Bytes, now: int,
                           q: string)
    requires ActivePeer(s, q)
    ensures var after := Consume(s, pairingId, code, peerId, key, now).0;
            q in after.peers && after.peers[q] == s.peers[q]
  {
  }

  lemma ActivePeerStays(upper: string -> string, w: World, e: Event, q: string)
    requires ActivePeer(w.state, q) && !Ends(e, q)
    ensures q in Next(upper, w, e).state.peers && Next(upper, w, e).state.peers[q] == w.state.peers[q]
  {
    match e.op
    case ConsumeCode(id, code, peerId, peerKey) =>
      if DecodeKey(peerKey).Some? {
        ConsumeKeepsActive(w.state, id, NormalizeCode(upper, code), peerId, DecodeKey(peerKey).value, e.now, q);
      }
    case Complete(r, _) =>
      if DecodeKey(r.peerKey).Some? {
        ConsumeKeepsActive(PruneUsed(w.state, e.now), r.pairingId, NormalizeCode(upper, r.code), r.peerId,
                           DecodeKey(r.peerKey).value, e.now, q);
      }
    case _ =>
  }

  /** An active peer keeps its record, key included, through every run that neither revokes it nor
      rotates the identity, whatever else is enrolled, refused or revoked. */
  lemma {:induction false} ActivePeerKept(upper: string -> string, w: World, events: seq<Event>, q: string)
    requires ActivePeer(w.state, q)
    requires forall i | 0 <= i < |events| :: !Ends(events[i], q)
    ensures q in Run(upper, w, events).state.peers
    ensures Run(upper, w, events).state.peers[q] == w.state.peers[q]
    decreases |events|
  {
    if events != [] {
      ActivePeerStays(upper, w, events[0], q);
      forall i | 0 <= i < |events[1..]| ensures !Ends(events[1..][i], q) {
        assert events[1..][i] == events[i + 1];
      }
      ActivePeerKept(upper, Next(upper, w, events[0]), events[1..], q);
    }
  }
}
