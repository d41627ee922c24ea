/**
 Whole runs of one enrollment store: every operation, at any time on a nondecreasing clock, with any
 arguments. A ghost history records what became of each pairing and which enrollments completed.
 */
module EnrollmentHistory {
  import opened Prelude
  import opened Messages
  import opened Enrollment

  /** What became of a pairing: exactly one of these. */
  datatype Fate = Live | Succeeded | Exhausted | Expired | Burned | Cleared

  datatype Win = Win(pairingId: string, peer: Peer, at: int)
  datatype Completion = Completion(challenge: Challenge, win: Win, identity: Identity)

  /** Every pairing ever created, as created; its fate; the wrong or malformed codes charged to it. */
  datatype Ledger = Ledger(born: map<string, Pairing>, fates: map<string, Fate>, failures: map<string, nat>)

  datatype History = History(
    ledger: Ledger,
    wins: seq<Win>,                  // peer records written, oldest first
    completions: seq<Completion>,    // relay enrollments, oldest first
    identities: seq<Identity>)       // the last one is current

  datatype World = World(identity: Identity, state: State, clock: int, hist: History)

  datatype Op =
    | CreatePairing(ttl: int, newId: string, newCode: string)
    | ConsumeCode(pairingId: string, code: string, peerId: string, peerKey: string)
    | Complete(request: Request, signed: Signatures)
    | RevokePeer(revoked: string)
    | Rotate(confirmed: bool, next: Identity)

  datatype Event = Event(now: int, op: Op)

  function Initial(identity: Identity, now: int): World
  {
    World(identity, EMPTY_STATE, now, History(Ledger(map[], map[], map[]), [], [], [identity]))
  }

  /** Identifiers drawn at random do not repeat, and the clock does not go back. */
  ghost predicate Legal(w: World, e: Event)
  {
    && e.now >= w.clock
    && (e.op.CreatePairing? ==> e.op.newId !in w.hist.ledger.born)
    && (e.op.Rotate? ==> |e.op.next.key| == 32 && forall i | 0 <= i < |w.hist.identities| ::
          w.hist.identities[i].deviceId != e.op.next.deviceId && w.hist.identities[i].key != e.op.next.key)
  }

  // ---- Recording ----

  /** Pairings on file that pruning drops have expired. */
  function Expire(l: Ledger, before: State, now: int): Ledger
  {
    l.(fates := map p | p in l.fates ::
         if p in before.pairings && before.pairings[p].expires <= now then Expired else l.fates[p])
  }

  function Offer(l: Ledger, id: string, offer: Pairing): Ledger
  {
    Ledger(l.born[id := offer], l.fates[id := Live], l.failures[id := 0])
  }

  function Clear(l: Ledger): Ledger
  {
    l.(fates := map p | p in l.fates :: if l.fates[p] == Live then Cleared else l.fates[p])
  }

  /** What a call that reaches the consume step on loaded state `s` does to the pairing it names. */
  function Charge(l: Ledger, s: State, pairingId: string, code: Option<string>, peerId: string, now: int): Ledger
  {
    if pairingId !in s.pairings || pairingId !in l.failures then l
    else
      var p := s.pairings[pairingId];
      if p.expires <= now then l.(fates := l.fates[pairingId := Expired])
      else if code != Some(p.code) then
        var l' := l.(failures := l.failures[pairingId := l.failures[pairingId] + 1]);
        if p.attempts - 1 <= 0 then l'.(fates := l.fates[pairingId := Exhausted]) else l'
      else l.(fates := l.fates[pairingId := if ActivePeer(s, peerId) then Burned else Succeeded])
  }

  function NextCreate(w: World, now: int, ttl: int, id: string, code: string): World
  {
    var r := Create(w.state, now, ttl, id, code);
    if r.result.Err? then w.(clock := now)
    else
      var l := Offer(Expire(w.hist.ledger, w.state, now), id, r.state.pairings[id]);
      World(w.identity, r.state, now, w.hist.(ledger := l))
  }

  function NextConsume(upper: string -> string, w: World, now: int, id: string, code: string, peerId: string,
                       peerKey: string): World
  {
    var r := ConsumePairing(upper, w.state, now, id, code, peerId, peerKey);
    if !r.wrote then w.(clock := now)
    else
      var l := Charge(w.hist.ledger, w.state, id, NormalizeCode(upper, code), peerId, now);
      var wins := if r.result.Ok? then w.hist.wins + [Win(id, r.result.value, now)] else w.hist.wins;
      World(w.identity, r.state, now, w.hist.(ledger := l, wins := wins))
  }

  function NextComplete(upper: string -> string, w: World, now: int, request: Request, signed: Signatures): World
  {
    var r := CompleteEnrollment(upper, w.identity, w.state, now, request, signed);
    if !r.wrote then w.(clock := now)
    else
      var l := Charge(w.hist.ledger, w.state, request.pairingId, NormalizeCode(upper, request.code), request.peerId,
                      now);
      if r.result.Err? then World(w.identity, r.state, now, w.hist.(ledger := l))
      else
        var win := Win(request.pairingId, r.state.peers[request.peerId], now);
        World(w.identity, r.state, now,
              w.hist.(ledger := l, wins := w.hist.wins + [win],
                      completions := w.hist.completions + [Completion(request.challenge, win, w.identity)]))
  }

  function NextRotate(w: World, now: int, confirmed: bool, next: Identity): World
  {
    if !confirmed then w.(clock := now)
    else World(next, EMPTY_STATE, now,
               w.hist.(ledger := Clear(w.hist.ledger), identities := w.hist.identities + [next]))
  }

  function Next(upper: string -> string, w: World, e: Event): World
  {
    match e.op
    case CreatePairing(ttl, id, code) => NextCreate(w, e.now, ttl, id, code)
    case ConsumeCode(id, code, peerId, peerKey) => NextConsume(upper, w, e.now, id, code, peerId, peerKey)
    case Complete(request, signed) => NextComplete(upper, w, e.now, request, signed)
    case RevokePeer(peerId) => w.(state := Revoke(w.state, e.now, peerId).state, clock := e.now)
    case Rotate(confirmed, next) => NextRotate(w, e.now, confirmed, next)
  }

  // ---- Invariants ----

  /** A pairing is live exactly while it is on file, with an attempt budget of five that charged
      failures use up; it is exhausted exactly when five were charged, and expired only after its time. */
  ghost predicate PairingInv(h: Ledger, pairings: map<string, Pairing>, clock: int, p: string)
  {
    && (p in h.fates <==> p in h.born) && (p in h.failures <==> p in h.born)
    && (p in pairings <==> p in h.fates && h.fates[p] == Live)
    && (p in pairings ==>
          && pairings[p].expires == h.born[p].expires
          && pairings[p].code == h.born[p].code
          && pairings[p].attempts == PAIRING_ATTEMPTS - h.failures[p]
          && 1 <= pairings[p].attempts <= PAIRING_ATTEMPTS)
    && (p in h.fates ==>
          && (h.fates[p] == Exhausted <==> h.failures[p] == PAIRING_ATTEMPTS)
          && h.failures[p] <= PAIRING_ATTEMPTS
          && (h.fates[p] == Expired ==> h.born[p].expires <= clock))
  }

  ghost predicate BudgetInv(w: World)
  {
    forall p :: PairingInv(w.hist.ledger, w.state.pairings, w.clock, p)
  }

  /** Successes and the peer records they write correspond one to one. */
  ghost predicate WinInv(w: World)
  {
    && (forall i, j | 0 <= i < j < |w.hist.wins| :: w.hist.wins[i].pairingId != w.hist.wins[j].pairingId)
    && (forall i | 0 <= i < |w.hist.wins| :: WinOk(w, w.hist.wins[i]))
    && (forall p | Won(w.hist.ledger, p) :: WonBy(w.hist, p))
    && (forall q | q in w.state.peers :: Recorded(w.hist, q, w.state.peers[q]))
  }

  ghost predicate Won(l: Ledger, p: string)
  {
    p in l.fates && l.fates[p] == Succeeded
  }

  ghost predicate WinOk(w: World, win: Win)
  {
    var l := w.hist.ledger;
    && Won(l, win.pairingId) && win.pairingId in l.born
    && win.peer.pairedAt == win.at < l.born[win.pairingId].expires
    && win.peer.revokedAt == None
    && win.at <= w.clock
  }

  ghost predicate WonBy(h: History, p: string)
  {
    exists i :: 0 <= i < |h.wins| && h.wins[i].pairingId == p
  }

  /** A peer on file is the record some success wrote, perhaps revoked since. */
  ghost predicate Recorded(h: History, q: string, peer: Peer)
  {
    peer.peerId == q && exists i :: 0 <= i < |h.wins| && h.wins[i].peer == peer.(revokedAt := None)
  }

  ghost predicate SameId(a: Completion, b: Completion)
  {
    a.challenge.challengeId == b.challenge.challengeId && a.identity == b.identity
  }

  /** What keeps a completed challenge from completing again: the identity it addressed is gone, its
      time is over, or it is on file as used. */
  ghost predicate Barred(w: World, c: Completion)
  {
    || c.identity != w.identity
    || c.challenge.expires <= w.clock
    || (c.challenge.challengeId in w.state.used && w.state.used[c.challenge.challengeId].expires == c.challenge.expires)
  }

  /** A completion happened under an identity of the store, before its challenge expired, by spending a pairing,
      and cannot happen again. */
  ghost predicate CompletionOk(w: World, c: Completion)
  {
    && c.identity in w.hist.identities
    && c.win.at < c.challenge.expires
    && c.challenge.audience == c.identity.deviceId
    && c.win in w.hist.wins
    && Barred(w, c)
  }

  ghost predicate ReplayInv(w: World)
  {
    var h := w.hist;
    && h.identities != [] && h.identities[|h.identities| - 1] == w.identity
    && (forall i, j | 0 <= i < j < |h.identities| ::
          h.identities[i].deviceId != h.identities[j].deviceId && h.identities[i].key != h.identities[j].key)
    && (forall i | 0 <= i < |h.identities| :: |h.identities[i].key| == 32)
    && (forall i | 0 <= i < |h.completions| ::
          CompletionOk(w, h.completions[i]))
    && (forall i, j | 0 <= i < j < |h.completions| ::
          h.completions[i].win.pairingId != h.completions[j].win.pairingId)
    && (forall i, j | 0 <= i < j < |h.completions| && SameId(h.completions[i], h.completions[j]) ::
          h.completions[i].challenge.expires <= h.completions[j].win.at)
    && (forall x | x in w.state.used :: OnRecord(w, x))
  }

  /** A used challenge on file stands for a completion under the current identity. */
  ghost predicate OnRecord(w: World, x: string)
  {
    x in w.state.used &&
    exists i :: 0 <= i < |w.hist.completions|
      && w.hist.completions[i].challenge.challengeId == x
      && w.hist.completions[i].challenge.expires == w.state.used[x].expires
      && w.hist.completions[i].identity == w.identity
  }

  ghost predicate Inv(w: World)
  {
    BudgetInv(w) && WinInv(w) && ReplayInv(w)
  }
}
