/** Every step of a store keeps its invariants, so every run has them. */
module EnrollmentRuns {
  import opened Prelude
  import opened Base64
  import opened Enrollment
  import opened EnrollmentHistory

  // ---- Pairings ----

  /** The consume step, shared by both ways of pairing, moves file and record together. */
  lemma ChargeKeepsPairing(l: Ledger, clock: int, s: State, pairingId: string, code: Option<string>, peerId: string,
                           key: Bytes, now: int, p: string)
    requires PairingInv(l, s.pairings, clock, p) && now >= clock
    ensures PairingInv(Charge(l, s, pairingId, code, peerId, now),
                       Consume(s, pairingId, code, peerId, key, now).0.pairings, now, p)
  {
  }

  lemma CreateKeepsPairing(w: World, now: int, ttl: int, id: string, code: string, p: string)
    requires PairingInv(w.hist.ledger, w.state.pairings, w.clock, p) && now >= w.clock && id !in w.hist.ledger.born
    ensures var w' := NextCreate(w, now, ttl, id, code); PairingInv(w'.hist.ledger, w'.state.pairings, w'.clock, p)
  {
  }

  lemma ChargeIgnoresUsed(l: Ledger, s: State, pairingId: string, code: Option<string>, peerId: string, now: int)
    ensures Charge(l, PruneUsed(s, now), pairingId, code, peerId, now) == Charge(l, s, pairingId, code, peerId, now)
  {
  }

  lemma CompleteKeepsPairing(upper: string -> string, w: World, now: int, r: Request, signed: Signatures, p: string)
    requires PairingInv(w.hist.ledger, w.state.pairings, w.clock, p) && now >= w.clock
    ensures var w' := NextComplete(upper, w, now, r, signed); PairingInv(w'.hist.ledger, w'.state.pairings, w'.clock, p)
  {
    if CompleteEnrollment(upper, w.identity, w.state, now, r, signed).wrote {
      var code := NormalizeCode(upper, r.code);
      ChargeIgnoresUsed(w.hist.ledger, w.state, r.pairingId, code, r.peerId, now);
      ChargeKeepsPairing(w.hist.ledger, w.clock, PruneUsed(w.state, now), r.pairingId, code, r.peerId,
                         DecodeKey(r.peerKey).value, now, p);
    }
  }

  lemma StepKeepsPairing(upper: string -> string, w: World, e: Event, p: string)
    requires PairingInv(w.hist.ledger, w.state.pairings, w.clock, p) && Legal(w, e)
    ensures var w' := Next(upper, w, e); PairingInv(w'.hist.ledger, w'.state.pairings, w'.clock, p)
  {
    match e.op
    case CreatePairing(ttl, id, code) => CreateKeepsPairing(w, e.now, ttl, id, code, p);
    case ConsumeCode(id, code, peerId, peerKey) =>
      if ConsumePairing(upper, w.state, e.now, id, code, peerId, peerKey).wrote {
        ChargeKeepsPairing(w.hist.ledger, w.clock, w.state, id, NormalizeCode(upper, code), peerId,
                           DecodeKey(peerKey).value, e.now, p);
      }
    case Complete(r, signed) => CompleteKeepsPairing(upper, w, e.now, r, signed, p);
    case RevokePeer(_) =>
    case Rotate(_, _) =>
  }

  lemma StepKeepsBudget(upper: string -> string, w: World, e: Event)
    requires BudgetInv(w) && Legal(w, e)
    ensures BudgetInv(Next(upper, w, e))
  {
    var w' := Next(upper, w, e);
    forall p ensures PairingInv(w'.hist.ledger, w'.state.pairings, w'.clock, p) {
      assert PairingInv(w.hist.ledger, w.state.pairings, w.clock, p);
      StepKeepsPairing(upper, w, e, p);
    }
  }

  // ---- Peers ----

  ghost predicate FinalFate(l: Ledger, l': Ledger, p: string)
  {
    p in l.fates ==>
      && p in l'.fates && p in l.born && p in l'.born && l'.born[p] == l.born[p]
      && (l.fates[p] != Live ==> l'.fates[p] == l.fates[p])
  }

  lemma ChargeIsFinal(l: Ledger, clock: int, s: State, pairingId: string, code: Option<string>, peerId: string,
                      now: int, p: string)
    requires PairingInv(l, s.pairings, clock, p)
    ensures FinalFate(l, Charge(l, s, pairingId, code, peerId, now), p)
  {
  }

  /** Fates are final: only a live pairing can change, and creation records are never rewritten. */
  lemma FatesAreFinal(upper: string -> string, w: World, e: Event, p: string)
    requires PairingInv(w.hist.ledger, w.state.pairings, w.clock, p) && Legal(w, e)
    ensures FinalFate(w.hist.ledger, Next(upper, w, e).hist.ledger, p)
  {
    match e.op
    case CreatePairing(_, _, _) =>
    case ConsumeCode(id, code, peerId, _) =>
      ChargeIsFinal(w.hist.ledger, w.clock, w.state, id, NormalizeCode(upper, code), peerId, e.now, p);
    case Complete(r, _) =>
      ChargeIsFinal(w.hist.ledger, w.clock, w.state, r.pairingId, NormalizeCode(upper, r.code), r.peerId, e.now, p);
    case RevokePeer(_) =>
    case Rotate(_, _) =>
  }

  lemma WinsUnchanged(w: World, w': World)
    requires WinInv(w) && w'.hist.wins == w.hist.wins && w'.clock >= w.clock
    requires forall p :: Won(w'.hist.ledger, p) <==> Won(w.hist.ledger, p)
    requires forall p | Won(w.hist.ledger, p) && p in w.hist.ledger.born ::
               p in w'.hist.ledger.born && w'.hist.ledger.born[p] == w.hist.ledger.born[p]
    requires forall q | q in w'.state.peers ::
               q in w.state.peers && w'.state.peers[q].(revokedAt := None) == w.state.peers[q].(revokedAt := None)
    ensures WinInv(w')
  {
    forall i | 0 <= i < |w'.hist.wins| ensures WinOk(w', w'.hist.wins[i]) {
      assert WinOk(w, w.hist.wins[i]);
    }
    forall p | Won(w'.hist.ledger, p) ensures WonBy(w'.hist, p) {
      assert WonBy(w.hist, p);
    }
    forall q | q in w'.state.peers ensures Recorded(w'.hist, q, w'.state.peers[q]) {
      assert Recorded(w.hist, q, w.state.peers[q]);
    }
  }

  lemma WinAdded(w: World, w': World, win: Win)
    requires WinInv(w) && w'.hist.wins == w.hist.wins + [win] && w'.clock >= w.clock
    requires !Won(w.hist.ledger, win.pairingId) && WinOk(w', win)
    requires forall p :: Won(w'.hist.ledger, p) <==> Won(w.hist.ledger, p) || p == win.pairingId
    requires w'.hist.ledger.born == w.hist.ledger.born
    requires w'.state.peers == w.state.peers[win.peer.peerId := win.peer]
    ensures WinInv(w')
  {
    var wins, n := w'.hist.wins, |w.hist.wins|;
    forall i | 0 <= i < |wins| ensures WinOk(w', wins[i]) {
      if i < n { assert WinOk(w, w.hist.wins[i]); }
    }
    forall i, j | 0 <= i < j < |wins| ensures wins[i].pairingId != wins[j].pairingId {
      assert WinOk(w, w.hist.wins[i]);
    }
    forall p | Won(w'.hist.ledger, p) ensures WonBy(w'.hist, p) {
      if p == win.pairingId {
        assert wins[n].pairingId == p;
      } else {
        assert WonBy(w.hist, p);
        var i :| 0 <= i < n && w.hist.wins[i].pairingId == p;
        assert wins[i].pairingId == p;
      }
    }
    forall q | q in w'.state.peers ensures Recorded(w'.hist, q, w'.state.peers[q]) {
      if q == win.peer.peerId {
        assert wins[n].peer == w'.state.peers[q].(revokedAt := None);
      } else {
        assert Recorded(w.hist, q, w.state.peers[q]);
        var i :| 0 <= i < n && w.hist.wins[i].peer == w.state.peers[q].(revokedAt := None);
        assert wins[i].peer == w'.state.peers[q].(revokedAt := None);
      }
    }
  }

  /** What the consume step does to successes and peers. */
  lemma ConsumeEffect(l: Ledger, clock: int, s: State, pairingId: string, code: Option<string>, peerId: string,
                      key: Bytes, now: int)
    requires PairingInv(l, s.pairings, clock, pairingId)
    ensures var (after, result) := Consume(s, pairingId, code, peerId, key, now);
            var l' := Charge(l, s, pairingId, code, peerId, now);
            && l'.born == l.born
            && (result.Err? ==> after.peers == s.peers && forall p :: Won(l', p) <==> Won(l, p))
            && (result.Ok? ==>
                  && pairingId in l.born && now < l.born[pairingId].expires
                  && code == Some(l.born[pairingId].code)
                  && !ActivePeer(s, peerId)
                  && result.value == Peer(peerId, key, now, None)
                  && after.peers == s.peers[peerId := result.value]
                  && !Won(l, pairingId)
                  && forall p :: Won(l', p) <==> Won(l, p) || p == pairingId)
            && after.used == s.used
  {
  }

  lemma ConsumeKeepsWins(upper: string -> string, w: World, now: int, id: string, code: string, peerId: string,
                         peerKey: string)
    requires BudgetInv(w) && WinInv(w) && now >= w.clock
    ensures WinInv(NextConsume(upper, w, now, id, code, peerId, peerKey))
  {
    var w' := NextConsume(upper, w, now, id, code, peerId, peerKey);
    var r := ConsumePairing(upper, w.state, now, id, code, peerId, peerKey);
    if r.wrote {
      assert PairingInv(w.hist.ledger, w.state.pairings, w.clock, id);
      ConsumeEffect(w.hist.ledger, w.clock, w.state, id, NormalizeCode(upper, code), peerId,
                    DecodeKey(peerKey).value, now);
      if r.result.Ok? {
        WinAdded(w, w', Win(id, r.result.value, now));
      } else {
        WinsUnchanged(w, w');
      }
    } else {
      WinsUnchanged(w, w');
    }
  }

  lemma CompleteKeepsWins(upper: string -> string, w: World, now: int, request: Request, signed: Signatures)
    requires BudgetInv(w) && WinInv(w) && now >= w.clock
    ensures WinInv(NextComplete(upper, w, now, request, signed))
  {
    var w' := NextComplete(upper, w, now, request, signed);
    var r := CompleteEnrollment(upper, w.identity, w.state, now, request, signed);
    if r.wrote {
      var code := NormalizeCode(upper, request.code);
      assert PairingInv(w.hist.ledger, w.state.pairings, w.clock, request.pairingId);
      ChargeIgnoresUsed(w.hist.ledger, w.state, request.pairingId, code, request.peerId, now);
      ConsumeEffect(w.hist.ledger, w.clock, PruneUsed(w.state, now), request.pairingId, code, request.peerId,
                    DecodeKey(request.peerKey).value, now);
      if r.result.Ok? {
        WinAdded(w, w', Win(request.pairingId, r.state.peers[request.peerId], now));
      } else {
        WinsUnchanged(w, w');
      }
    } else {
      WinsUnchanged(w, w');
    }
  }

  lemma StepKeepsWins(upper: string -> string, w: World, e: Event)
    requires BudgetInv(w) && WinInv(w) && Legal(w, e)
    ensures WinInv(Next(upper, w, e))
  {
    match e.op
    case ConsumeCode(id, code, peerId, peerKey) => ConsumeKeepsWins(upper, w, e.now, id, code, peerId, peerKey);
    case Complete(r, signed) => CompleteKeepsWins(upper, w, e.now, r, signed);
    case _ =>
      var w' := Next(upper, w, e);
      forall p ensures Won(w'.hist.ledger, p) <==> Won(w.hist.ledger, p) {
        assert PairingInv(w.hist.ledger, w.state.pairings, w.clock, p);
      }
      WinsUnchanged(w, w');
  }

  // ---- Used challenges ----

  /** An entry leaves the file only when its time is over. */
  ghost predicate KeepsUsed(w: World, w': World)
  {
    && w'.identity == w.identity && w'.clock >= w.clock
    && forall x | x in w.state.used && w.state.used[x].expires > w'.clock ::
         x in w'.state.used && w'.state.used[x].expires == w.state.used[x].expires
  }

  lemma CompletionsUnchanged(w: World, w': World)
    requires ReplayInv(w) && KeepsUsed(w, w')
    requires w'.hist.completions == w.hist.completions && w'.hist.identities == w.hist.identities
    requires forall win | win in w.hist.wins :: win in w'.hist.wins
    requires forall x | x in w'.state.used :: x in w.state.used && w'.state.used[x] == w.state.used[x]
    ensures ReplayInv(w')
  {
    forall i | 0 <= i < |w'.hist.completions| ensures CompletionOk(w', w'.hist.completions[i]) {
      assert CompletionOk(w, w.hist.completions[i]);
    }
    forall x | x in w'.state.used ensures OnRecord(w', x) {
      assert OnRecord(w, x);
    }
  }

  /** The new completion differs from every earlier one in its pairing, and reuses an id only after its time. */
  lemma EarlierCompletion(w: World, w': World, c: Completion, d: Completion)
    requires WinInv(w) && CompletionOk(w, d) && KeepsUsed(w, w') && w'.clock == c.win.at
    requires w'.hist.wins == w.hist.wins + [c.win] && w'.hist.identities == w.hist.identities
    requires !Won(w.hist.ledger, c.win.pairingId) && c.identity == w.identity
    requires c.challenge.challengeId in w.state.used ==> w.state.used[c.challenge.challengeId].expires <= w'.clock
    ensures CompletionOk(w', d) && d.win.pairingId != c.win.pairingId
    ensures SameId(d, c) ==> d.challenge.expires <= c.win.at
  {
    var k :| 0 <= k < |w.hist.wins| && w.hist.wins[k] == d.win;
    assert WinOk(w, w.hist.wins[k]);
    assert w'.hist.wins[k] == d.win;
  }

  lemma RecordsExtended(w: World, w': World, c: Completion)
    requires forall x | x in w.state.used :: OnRecord(w, x)
    requires w'.hist.completions == w.hist.completions + [c] && w'.identity == w.identity == c.identity
    requires var x := c.challenge.challengeId; x in w'.state.used && w'.state.used[x].expires == c.challenge.expires
    requires forall x | x in w'.state.used && x != c.challenge.challengeId ::
               x in w.state.used && w'.state.used[x] == w.state.used[x]
    ensures forall x | x in w'.state.used :: OnRecord(w', x)
  {
    var cs, n := w'.hist.completions, |w.hist.completions|;
    forall x | x in w'.state.used ensures OnRecord(w', x) {
      if x == c.challenge.challengeId {
        assert cs[n].challenge.challengeId == x;
      } else {
        assert OnRecord(w, x);
        var i :| 0 <= i < n && w.hist.completions[i].challenge.challengeId == x
          && w.hist.completions[i].challenge.expires == w.state.used[x].expires
          && w.hist.completions[i].identity == w.identity;
        assert cs[i].challenge.challengeId == x;
      }
    }
  }

  lemma CompletionAdded(w: World, w': World, c: Completion)
    requires ReplayInv(w) && WinInv(w) && KeepsUsed(w, w') && w'.clock == c.win.at
    requires w'.hist.completions == w.hist.completions + [c] && w'.hist.identities == w.hist.identities
    requires w'.hist.wins == w.hist.wins + [c.win] && !Won(w.hist.ledger, c.win.pairingId)
    requires c.identity == w.identity && c.challenge.audience == w.identity.deviceId && c.win.at < c.challenge.expires
    requires var x := c.challenge.challengeId;
             && x in w'.state.used && w'.state.used[x].expires == c.challenge.expires
             && (x in w.state.used ==> w.state.used[x].expires <= w'.clock)
    requires forall x | x in w'.state.used && x != c.challenge.challengeId ::
               x in w.state.used && w'.state.used[x] == w.state.used[x]
    ensures ReplayInv(w')
  {
    var cs, n := w'.hist.completions, |w.hist.completions|;
    assert w'.hist.wins[|w.hist.wins|] == c.win;
    forall i | 0 <= i < n
      ensures CompletionOk(w', cs[i]) && cs[i].win.pairingId != c.win.pairingId
      ensures SameId(cs[i], c) ==> cs[i].challenge.expires <= c.win.at
    {
      EarlierCompletion(w, w', c, w.hist.completions[i]);
    }
    assert CompletionOk(w', cs[n]);
    RecordsExtended(w, w', c);
  }

  lemma RotationAdded(w: World, w': World, next: Identity)
    requires ReplayInv(w) && w'.clock >= w.clock && w'.identity == next && |next.key| == 32
    requires w'.hist.identities == w.hist.identities + [next] && w'.hist.completions == w.hist.completions
    requires w'.hist.wins == w.hist.wins && w'.state.used == map[]
    requires forall i | 0 <= i < |w.hist.identities| ::
               w.hist.identities[i].deviceId != next.deviceId && w.hist.identities[i].key != next.key
    ensures ReplayInv(w')
  {
    forall i | 0 <= i < |w'.hist.completions| ensures CompletionOk(w', w'.hist.completions[i]) {
      assert CompletionOk(w, w.hist.completions[i]);
      var k :| 0 <= k < |w.hist.identities| && w.hist.identities[k] == w.hist.completions[i].identity;
      assert w'.hist.identities[k] == w.hist.identities[k];
    }
  }

  /** What one completion attempt does to the world's record of used challenges. */
  lemma CompleteUsed(upper: string -> string, w: World, now: int, request: Request, signed: Signatures)
    requires now >= w.clock && PairingInv(w.hist.ledger, w.state.pairings, w.clock, request.pairingId)
    ensures var w', x := NextComplete(upper, w, now, request, signed), request.challenge.challengeId;
            && KeepsUsed(w, w') && w'.hist.identities == w.hist.identities
            && (w'.hist.completions == w.hist.completions ==>
                  && (w'.hist.wins == w.hist.wins)
                  && forall y | y in w'.state.used :: y in w.state.used && w'.state.used[y] == w.state.used[y])
            && (w'.hist.completions != w.hist.completions ==>
                  && |w'.hist.wins| == |w.hist.wins| + 1
                  && var c := Completion(request.challenge, w'.hist.wins[|w.hist.wins|], w.identity);
                     && w'.hist.completions == w.hist.completions + [c] && w'.hist.wins == w.hist.wins + [c.win]
                     && c.win.pairingId == request.pairingId && c.win.at == now == w'.clock
                     && request.challenge.audience == w.identity.deviceId
                     && x in w'.state.used && w'.state.used[x].expires == request.challenge.expires
                     && (x in w.state.used ==> w.state.used[x].expires <= now)
                     && (forall y | y in w'.state.used && y != x ::
                         y in w.state.used && w'.state.used[y] == w.state.used[y])
                     && !Won(w.hist.ledger, request.pairingId))
  {
    var r := CompleteEnrollment(upper, w.identity, w.state, now, request, signed);
    if r.wrote {
      ConsumeEffect(w.hist.ledger, w.clock, PruneUsed(w.state, now), request.pairingId,
                    NormalizeCode(upper, request.code), request.peerId, DecodeKey(request.peerKey).value, now);
    }
  }

  lemma CompleteKeepsReplay(upper: string -> string, w: World, now: int, request: Request, signed: Signatures)
    requires Inv(w) && now >= w.clock
    ensures ReplayInv(NextComplete(upper, w, now, request, signed))
  {
    var w' := NextComplete(upper, w, now, request, signed);
    assert PairingInv(w.hist.ledger, w.state.pairings, w.clock, request.pairingId);
    CompleteUsed(upper, w, now, request, signed);
    if w'.hist.completions == w.hist.completions {
      CompletionsUnchanged(w, w');
    } else {
      CompletionAdded(w, w', w'.hist.completions[|w.hist.completions|]);
    }
  }

  lemma StepKeepsReplay(upper: string -> string, w: World, e: Event)
    requires Inv(w) && Legal(w, e)
    ensures ReplayInv(Next(upper, w, e))
  {
    var w' := Next(upper, w, e);
    match e.op
    case Complete(r, signed) => CompleteKeepsReplay(upper, w, e.now, r, signed);
    case ConsumeCode(id, code, peerId, peerKey) =>
      if ConsumePairing(upper, w.state, e.now, id, code, peerId, peerKey).wrote {
        assert PairingInv(w.hist.ledger, w.state.pairings, w.clock, id);
        ConsumeEffect(w.hist.ledger, w.clock, w.state, id, NormalizeCode(upper, code), peerId,
                      DecodeKey(peerKey).value, e.now);
      }
      CompletionsUnchanged(w, w');
    case Rotate(confirmed, next) =>
      if confirmed { RotationAdded(w, w', next); } else { CompletionsUnchanged(w, w'); }
    case _ => CompletionsUnchanged(w, w');
  }

  // ---- Whole runs ----

  lemma StepKeepsInv(upper: string -> string, w: World, e: Event)
    requires Inv(w) && Legal(w, e)
    ensures Inv(Next(upper, w, e))
  {
    StepKeepsBudget(upper, w, e);
    StepKeepsWins(upper, w, e);
    StepKeepsReplay(upper, w, e);
  }

  function Run(upper: string -> string, w: World, events: seq<Event>): World
    decreases |events|
  {
    if events == [] then w else Run(upper, Next(upper, w, events[0]), events[1..])
  }

  ghost predicate LegalRun(upper: string -> string, w: World, events: seq<Event>)
    decreases |events|
  {
    events == [] || (Legal(w, events[0]) && LegalRun(upper, Next(upper, w, events[0]), events[1..]))
  }

  lemma {:induction false} RunKeepsInv(upper: string -> string, w: World, events: seq<Event>)
    requires Inv(w) && LegalRun(upper, w, events)
    ensures Inv(Run(upper, w, events))
    decreases |events|
  {
    if events != [] {
      StepKeepsInv(upper, w, events[0]);
      RunKeepsInv(upper, Next(upper, w, events[0]), events[1..]);
    }
  }

  lemma InitialInv(id: Identity, now: int)
    requires |id.key| == 32
    ensures Inv(Initial(id, now))
  {
  }

  /** In no run is a challenge document accepted twice, across pruning and rotation; and a challenge id is
      accepted again under one identity only after the earlier acceptance's challenge has expired. */
  lemma NoChallengeReplayed(upper: string -> string, id: Identity, start: int, events: seq<Event>)
    requires |id.key| == 32 && LegalRun(upper, Initial(id, start), events)
    ensures var cs := Run(upper, Initial(id, start), events).hist.completions;
            forall i, j | 0 <= i < j < |cs| ::
              && cs[i].challenge != cs[j].challenge
              && (SameId(cs[i], cs[j]) ==> cs[i].challenge.expires <= cs[j].win.at)
  {
    var w := Run(upper, Initial(id, start), events);
    InitialInv(id, start);
    RunKeepsInv(upper, Initial(id, start), events);
    var cs := w.hist.completions;
    forall i, j | 0 <= i < j < |cs| && cs[i].challenge == cs[j].challenge ensures false {
      assert CompletionOk(w, cs[i]) && CompletionOk(w, cs[j]);
      SameAudience(w, cs[i].identity, cs[j].identity);
      assert SameId(cs[i], cs[j]);
    }
  }

  lemma SameAudience(w: World, a: Identity, b: Identity)
    requires ReplayInv(w) && a in w.hist.identities && b in w.hist.identities && a.deviceId == b.deviceId
    ensures a == b
  {
    var i :| 0 <= i < |w.hist.identities| && w.hist.identities[i] == a;
    var j :| 0 <= j < |w.hist.identities| && w.hist.identities[j] == b;
    assert i == j;
  }

  /** The used-challenge check at time `now` turns a challenge id away exactly when some earlier acceptance
      of that id under this identity has not expired. */
  lemma UsedCheckIsExact(w: World, challengeId: string, now: int)
    requires Inv(w) && now >= w.clock
    ensures challengeId in PruneUsed(w.state, now).used <==>
            exists i :: 0 <= i < |w.hist.completions|
              && w.hist.completions[i].challenge.challengeId == challengeId
              && w.hist.completions[i].identity == w.identity
              && now < w.hist.completions[i].challenge.expires
  {
    if challengeId in PruneUsed(w.state, now).used {
      assert OnRecord(w, challengeId);
    }
    forall i | 0 <= i < |w.hist.completions| && w.hist.completions[i].challenge.challengeId == challengeId
               && w.hist.completions[i].identity == w.identity && now < w.hist.completions[i].challenge.expires
      ensures challengeId in PruneUsed(w.state, now).used
    {
      assert CompletionOk(w, w.hist.completions[i]);
    }
  }
}
