/**
 When an imported enrollment happened. The peer's proof covers a challenge's id, relay and nonce but not its
 times, and the relay does not look at the expiry of a pending challenge when a receipt arrives. So whoever
 carries the request decides, within the life of the pairing, how late the enrollment may be.
 */
module EnrollmentTimes {
  import opened Prelude
  import opened Text
  import opened Base64
  import opened Messages
  import opened Enrollment
  import opened EnrollmentHistory
  import ChallengeReuse
  import opened RelayConfig
  import opened RelayRuns
  import opened Protocol
  import opened ProtocolRuns
  import opened HonestEnrollment

  /** The challenge as the relay issued it. */
  ghost function IssuedChallenge(relay: RelayWorld, challengeId: string): Challenge
    requires challengeId in relay.issued
  {
    relay.issued[challengeId].request.challenge
  }

  /** What holds in every run: the enrollment happened before the pairing expired and before the challenge the
      device saw did; and before the relay's own challenge expired, which is what the relay had pending, if
      the challenge reached the device with no later an expiry. */
  lemma ImportedInTime(env: Env, net0: Net, steps: seq<NetStep>, net: Net, n: nat, i: nat, c: Completion)
    requires NetInv(env, net0) && ProtocolRuns.Reaches(env, net0, steps, net) && n < |net.relay.imports|
    requires i < |net.stores|
    requires net.relay.imports[n].receipt.Receipt? && Earned(env, net, net.stores[i], c, net.relay.imports[n].receipt)
    ensures c.win.at < c.challenge.expires
    ensures var born := net.stores[i].hist.ledger.born;
            c.win.pairingId in born && c.win.at < born[c.win.pairingId].expires
    ensures var issued := IssuedChallenge(net.relay, c.challenge.challengeId);
            && net.relay.imports[n].pending.Some? && net.relay.imports[n].pending.value.expires == issued.expires
            && (c.challenge.expires <= issued.expires ==> c.win.at < issued.expires)
  {
    NetRunKeepsInv(env, net0, steps, net);
    var w := net.stores[i];
    assert StoreOk(env, net.relay, w, net.signed) && ImportOk(net.relay, net.relay.imports[n]);
    var k :| 0 <= k < |w.hist.completions| && w.hist.completions[k] == c;
    var j :| 0 <= j < |w.hist.wins| && w.hist.wins[j] == c.win;
    assert CompletionOk(w, w.hist.completions[k]) && WinOk(w, w.hist.wins[j]);
  }

  // ---- A late enrollment ----

  /** An enrollment whose request is carried with other times, as four steps of the protocol. */
  datatype Exchange = Exchange(
    pairingId: string, code: string, ttl: int, offered: int, challengeId: string, nonce: Bytes, asked: int,
    issued: int, expires: int, now: int)

  ghost predicate NetStepsTo(env: Env, a: Net, s: NetStep, b: Net)
  {
    NetLegal(env, a, s) && NetNext(env, a, s) == b
  }

  lemma Conses<T>(a: T, b: T, c: T, d: T)
    ensures [a] + [b, c, d] == [a, b, c, d] && [b] + [c, d] == [b, c, d] && [c] + [d] == [c, d] && [d] + [] == [d]
  {
  }

  lemma OneStep(env: Env, a: Net, s: NetStep, b: Net, rest: seq<NetStep>, final: Net)
    requires NetStepsTo(env, a, s, b) && ProtocolRuns.Reaches(env, b, rest, final)
    ensures ProtocolRuns.Reaches(env, a, [s] + rest, final)
  {
    assert ([s] + rest)[1..] == rest;
  }

  lemma FourSteps(env: Env, a: Net, b: Net, c: Net, d: Net, e: Net, ab: NetStep, bc: NetStep, cd: NetStep, de: NetStep)
    requires NetStepsTo(env, a, ab, b) && NetStepsTo(env, b, bc, c) && NetStepsTo(env, c, cd, d)
    requires NetStepsTo(env, d, de, e)
    ensures ProtocolRuns.Reaches(env, a, [ab, bc, cd, de], e)
  {
    Conses(ab, bc, cd, de);
    OneStep(env, d, de, e, [], e);
    OneStep(env, c, cd, d, [de], e);
    OneStep(env, b, bc, c, [cd, de], e);
    OneStep(env, a, ab, b, [bc, cd, de], e);
  }

  function OfferIn(id: Identity, x: Exchange): Offer
    requires |x.code| == 10
  {
    OfferOf(id, x.pairingId, x.code, x.offered + x.ttl * SECOND)
  }

  function RequestIn(id: Identity, d: Disk, x: Exchange): Request
    requires |x.code| == 10
  {
    RequestFor(d, OfferIn(id, x), x.challengeId, Encode(x.nonce), x.asked)
  }

  function ProofIn(id: Identity, d: Disk, x: Exchange): Message
    requires |x.code| == 10
  {
    ProofOf(RequestIn(id, d, x), id.deviceId)
  }

  function ReceiptIn(id: Identity, d: Disk, relayKey: Bytes, x: Exchange): Message
    requires |x.code| == 10
  {
    ReceiptFor(id, RequestIn(id, d, x), Peer(d.state.peerId, relayKey, x.now, None), x.now)
  }

  /** What the relay signs when it asks, and the device when it answers. */
  function AskSigns(env: Env, id: Identity, d: Disk, x: Exchange): Signatures
    requires |x.code| == 10
  {
    {(env.relayKey, Payload(ProofIn(id, d, x)))}
  }

  function AnswerSigns(env: Env, id: Identity, d: Disk, x: Exchange): Signatures
    requires |x.code| == 10
  {
    {(id.key, Payload(ReceiptIn(id, d, env.relayKey, x)))}
  }

  /** A store and a relay that have not met, and an exchange that is in time for the pairing and, with the times
      it is carried with, for the device's check. */
  ghost predicate Ready(env: Env, relay: RelayWorld, w: World, x: Exchange)
  {
    && Strangers(env.did, w.identity, w.state, relay.disk, env.relayKey)
    && IsUuid(x.pairingId) && IsUuid(x.challengeId) && |x.nonce| == 32 && IsCode(x.code) && env.upper(x.code) == x.code
    && MIN_PAIRING_TTL <= x.ttl <= MAX_PAIRING_TTL
    && x.challengeId !in w.state.used && x.challengeId !in relay.issued && x.pairingId !in w.hist.ledger.born
    && w.clock <= x.offered <= x.now < x.offered + x.ttl * SECOND && x.asked < x.offered + x.ttl * SECOND
    && x.issued < x.expires <= x.issued + MAX_CHALLENGE_LIFETIME && x.issued <= x.now + CHALLENGE_CLOCK_SKEW
    && x.now < x.expires
  }

  function Offered(w: World, x: Exchange): World
  {
    NextCreate(w, x.offered, x.ttl, x.pairingId, x.code)
  }

  function Asked(env: Env, relay: RelayWorld, id: Identity, x: Exchange): RelayWorld
    requires |x.code| == 10
  {
    var offer := OfferIn(id, x);
    var e := CreateRequest(env.did, relay.disk, offer, true, x.challengeId, Encode(x.nonce), x.asked);
    if |e.writes| == 1 && e.result.Ok?
    then RelayWorld(e.writes[0], relay.issued[x.challengeId := Issue(e.result.value, offer)], relay.imports)
    else relay
  }

  lemma OfferStep(env: Env, net: Net, i: nat, x: Exchange)
    requires i < |net.stores| && Ready(env, net.relay, net.stores[i], x)
    ensures NetStepsTo(env, net, StoreStep(i, Event(x.offered, CreatePairing(x.ttl, x.pairingId, x.code))),
                       net.(stores := net.stores[i := Offered(net.stores[i], x)]))
  {
    var w := net.stores[i];
    var e := Event(x.offered, CreatePairing(x.ttl, x.pairingId, x.code));
    assert Legal(w, e) && Next(env.upper, w, e) == Offered(w, x);
    assert net.signed + Signing(w, Offered(w, x)) == net.signed;
  }

  lemma AskIsAnswered(env: Env, relay: RelayWorld, w: World, x: Exchange)
    requires Ready(env, relay, w, x)
    ensures var e := CreateRequest(env.did, relay.disk, OfferIn(w.identity, x), true, x.challengeId, Encode(x.nonce),
                                   x.asked);
            e.result == Ok(RequestIn(w.identity, relay.disk, x)) && |e.writes| == 1
    ensures ValidOffer(env.did, OfferIn(w.identity, x))
  {
    OfferIsValid(env.did, env.upper, w.identity, x.pairingId, x.code, x.offered + x.ttl * SECOND);
  }

  function AskOp(id: Identity, x: Exchange): RelayOp
    requires |x.code| == 10
  {
    RequestOp(OfferIn(id, x), true, x.challengeId, Encode(x.nonce), x.asked)
  }

  lemma AskStep(env: Env, net: Net, w: World, x: Exchange)
    requires Ready(env, net.relay, w, x)
    ensures var relay := Asked(env, net.relay, w.identity, x);
            && NetStepsTo(env, net, RelayStep(AskOp(w.identity, x), 1),
                          net.(relay := relay,
                               signed := net.signed + AskSigns(env, w.identity, net.relay.disk, x)))
  {
    AskIssues(env, net.relay, w, x);
    assert NetLegal(env, net, RelayStep(AskOp(w.identity, x), 1));
  }

  lemma AskIssues(env: Env, relay: RelayWorld, w: World, x: Exchange)
    requires Ready(env, relay, w, x)
    ensures var op, asked := AskOp(w.identity, x), Asked(env, relay, w.identity, x);
            && RelayLegal(env.did, relay, op, 1) && RelayNext(env.did, relay, op, 1) == asked
            && x.challengeId in asked.issued
            && ProofIssued(asked.issued[x.challengeId])
               == ProofIn(w.identity, relay.disk, x)
  {
    AskIsAnswered(env, relay, w, x);
  }

  function CarriedIn(id: Identity, d: Disk, x: Exchange): Request
    requires |x.code| == 10
  {
    Carried(RequestIn(id, d, x), x.issued, x.expires)
  }

  function CompletionIn(id: Identity, d: Disk, relayKey: Bytes, x: Exchange): Completion
    requires |x.code| == 10
  {
    Completion(CarriedIn(id, d, x).challenge, Win(x.pairingId, Peer(d.state.peerId, relayKey, x.now, None), x.now), id)
  }

  lemma OfferStands(w: World, x: Exchange)
    requires MIN_PAIRING_TTL <= x.ttl <= MAX_PAIRING_TTL
    ensures var s := Offered(w, x).state;
            && x.pairingId in s.pairings && s.pairings[x.pairingId].code == x.code
            && s.pairings[x.pairingId].expires == x.offered + x.ttl * SECOND
            && s.peers == w.state.peers && s.used == w.state.used
            && Offered(w, x).identity == w.identity && Offered(w, x).clock == x.offered
            && Offered(w, x).hist.completions == w.hist.completions
            && x.pairingId in Offered(w, x).hist.ledger.born
            && Offered(w, x).hist.ledger.born[x.pairingId].expires == x.offered + x.ttl * SECOND
  {
  }

  lemma AnswerCompletes(env: Env, relay: RelayWorld, w: World, x: Exchange, signed: Signatures)
    requires Ready(env, relay, w, x)
    requires (env.relayKey, Payload(ProofIn(w.identity, relay.disk, x))) in signed
    ensures var w1, id := Offered(w, x), w.identity;
            var o := CompleteEnrollment(env.upper, id, w1.state, x.now, CarriedIn(id, relay.disk, x), signed);
            o.wrote && o.result.Ok? && relay.disk.state.peerId in o.state.peers
            && o.state.peers[relay.disk.state.peerId] == Peer(relay.disk.state.peerId, env.relayKey, x.now, None)
  {
    OfferStands(w, x);
    RequestIsAccepted(env.upper, w.identity, Offered(w, x).state, relay.disk, env.relayKey, OfferIn(w.identity, x),
                      x.code, x.challengeId, x.nonce, x.asked, x.issued, x.expires, x.now, signed);
  }

  lemma ReceiptOfCompletion(id: Identity, d: Disk, relayKey: Bytes, x: Exchange)
    requires |x.code| == 10
    ensures ReceiptOf(CompletionIn(id, d, relayKey, x)) == ReceiptIn(id, d, relayKey, x)
  {
  }

  function Answered(env: Env, relay: RelayWorld, w: World, x: Exchange, signed: Signatures): World
    requires |x.code| == 10
  {
    NextComplete(env.upper, Offered(w, x), x.now, CarriedIn(w.identity, relay.disk, x), signed)
  }

  /** The exchange's pairing was created with the exchange's time to live. */
  ghost predicate BornIn(w: World, x: Exchange)
  {
    && x.pairingId in w.hist.ledger.born
    && w.hist.ledger.born[x.pairingId].expires == x.offered + x.ttl * SECOND
  }

  lemma AnswerIsRecorded(env: Env, relay: RelayWorld, w: World, x: Exchange, signed: Signatures)
    requires Ready(env, relay, w, x)
    requires (env.relayKey, Payload(ProofIn(w.identity, relay.disk, x))) in signed
    ensures Answered(env, relay, w, x, signed).hist.completions
         == w.hist.completions + [CompletionIn(w.identity, relay.disk, env.relayKey, x)]
    ensures BornIn(Answered(env, relay, w, x, signed), x)
  {
    OfferStands(w, x);
    AnswerCompletes(env, relay, w, x, signed);
  }

  lemma CompletionSigns(w1: World, w3: World, c: Completion)
    requires w3.hist.completions == w1.hist.completions + [c]
    ensures Signing(w1, w3) == {(w1.identity.key, Payload(ReceiptOf(c)))}
  {
  }

  lemma AnswerStep(env: Env, relay: RelayWorld, w: World, x: Exchange, net: Net, i: nat)
    requires Ready(env, relay, w, x) && i < |net.stores| && net.stores[i] == Offered(w, x)
    requires (env.relayKey, Payload(ProofIn(w.identity, relay.disk, x))) in net.signed
    ensures NetStepsTo(env, net, StoreStep(i, Event(x.now, Complete(CarriedIn(w.identity, relay.disk, x), net.signed))),
                       net.(stores := net.stores[i := Answered(env, relay, w, x, net.signed)],
                            signed := net.signed + AnswerSigns(env, w.identity, relay.disk, x)))
  {
    var e := Event(x.now, Complete(CarriedIn(w.identity, relay.disk, x), net.signed));
    var c := CompletionIn(w.identity, relay.disk, env.relayKey, x);
    OfferStands(w, x);
    AnswerIsRecorded(env, relay, w, x, net.signed);
    ReceiptOfCompletion(w.identity, relay.disk, env.relayKey, x);
    CompletionSigns(Offered(w, x), Answered(env, relay, w, x, net.signed), c);
    StoreStepsTo(env, net, i, e, Answered(env, relay, w, x, net.signed),
                 AnswerSigns(env, w.identity, relay.disk, x));
  }

  lemma StoreStepsTo(env: Env, net: Net, i: nat, e: Event, w': World, added: Signatures)
    requires i < |net.stores| && Legal(net.stores[i], e) && e.op.Complete? && e.op.signed == net.signed
    requires w' == Next(env.upper, net.stores[i], e) && added == Signing(net.stores[i], w')
    ensures NetStepsTo(env, net, StoreStep(i, e), net.(stores := net.stores[i := w'], signed := net.signed + added))
  {
    assert NetLegal(env, net, StoreStep(i, e));
  }

  lemma ImportIsAccepted(env: Env, relay: RelayWorld, w: World, x: Exchange, signed: Signatures)
    requires Ready(env, relay, w, x)
    requires (w.identity.key, Payload(ReceiptIn(w.identity, relay.disk, env.relayKey, x))) in signed
    ensures |Import(env.did, Asked(env, relay, w.identity, x).disk,
                    ReceiptIn(w.identity, relay.disk, env.relayKey, x), signed).writes| == 2
  {
    AskIsAnswered(env, relay, w, x);
    ReceiptIsAccepted(env.did, w.identity, relay.disk, env.relayKey, OfferIn(w.identity, x), x.challengeId,
                      Encode(x.nonce), x.asked, x.now, signed);
  }

  lemma ImportStep(env: Env, relay: RelayWorld, w: World, x: Exchange, net: Net) returns (relay': RelayWorld)
    requires Ready(env, relay, w, x) && net.relay == Asked(env, relay, w.identity, x)
    requires (w.identity.key, Payload(ReceiptIn(w.identity, relay.disk, env.relayKey, x))) in net.signed
    ensures var r := ReceiptIn(w.identity, relay.disk, env.relayKey, x);
            && NetStepsTo(env, net, RelayStep(ImportOp(r, net.signed), 2), net.(relay := relay'))
            && |relay'.imports| == |relay.imports| + 1 && relay'.imports[|relay.imports|].receipt == r
            && relay'.imports[|relay.imports|].complete && relay'.issued == net.relay.issued
  {
    var r := ReceiptIn(w.identity, relay.disk, env.relayKey, x);
    var op := ImportOp(r, net.signed);
    ImportIsAccepted(env, relay, w, x, net.signed);
    assert |WritesOf(env.did, net.relay.disk, op)| == 2;
    assert RelayLegal(env.did, net.relay, op, 2);
    relay' := RelayNext(env.did, net.relay, op, 2);
    AskIsAnswered(env, relay, w, x);
    assert NetNext(env, net, RelayStep(op, 2)) == net.(relay := relay');
    assert NetStepsTo(env, net, RelayStep(op, 2), net.(relay := relay'));
  }

  // ---- The four steps together ----

  ghost function AfterOffer(net: Net, i: nat, x: Exchange): Net
    requires i < |net.stores|
  {
    net.(stores := net.stores[i := Offered(net.stores[i], x)])
  }

  ghost function AfterAsk(env: Env, net: Net, i: nat, x: Exchange): Net
    requires i < |net.stores| && |x.code| == 10
  {
    var w := net.stores[i];
    AfterOffer(net, i, x).(relay := Asked(env, net.relay, w.identity, x),
                           signed := net.signed + AskSigns(env, w.identity, net.relay.disk, x))
  }

  ghost function AfterAnswer(env: Env, net: Net, i: nat, x: Exchange): Net
    requires i < |net.stores| && |x.code| == 10
  {
    var w, asked := net.stores[i], AfterAsk(env, net, i, x);
    asked.(stores := asked.stores[i := Answered(env, net.relay, w, x, asked.signed)],
           signed := asked.signed + AnswerSigns(env, w.identity, net.relay.disk, x))
  }

  ghost function AnswerOf(env: Env, net: Net, i: nat, x: Exchange): NetStep
    requires i < |net.stores| && |x.code| == 10
  {
    StoreStep(i, Event(x.now, Complete(CarriedIn(net.stores[i].identity, net.relay.disk, x),
                                       AfterAsk(env, net, i, x).signed)))
  }

  ghost function ImportOf(env: Env, net: Net, i: nat, x: Exchange): NetStep
    requires i < |net.stores| && |x.code| == 10
  {
    RelayStep(ImportOp(ReceiptIn(net.stores[i].identity, net.relay.disk, env.relayKey, x),
                       AfterAnswer(env, net, i, x).signed), 2)
  }

  lemma AnswerFollows(env: Env, net: Net, i: nat, x: Exchange)
    requires i < |net.stores| && Ready(env, net.relay, net.stores[i], x)
    ensures NetStepsTo(env, AfterAsk(env, net, i, x), AnswerOf(env, net, i, x), AfterAnswer(env, net, i, x))
    ensures AfterAnswer(env, net, i, x).stores[i].hist.completions
         == net.stores[i].hist.completions + [CompletionIn(net.stores[i].identity, net.relay.disk, env.relayKey, x)]
    ensures BornIn(AfterAnswer(env, net, i, x).stores[i], x)
  {
    AnswerStep(env, net.relay, net.stores[i], x, AfterAsk(env, net, i, x), i);
    AnswerIsRecorded(env, net.relay, net.stores[i], x, AfterAsk(env, net, i, x).signed);
  }

  lemma ImportsHolds(env: Env, net: Net, i: nat, x: Exchange, relay': RelayWorld)
    requires i < |net.stores| && Ready(env, net.relay, net.stores[i], x)
    requires AfterAnswer(env, net, i, x).stores[i].hist.completions
          == net.stores[i].hist.completions + [CompletionIn(net.stores[i].identity, net.relay.disk, env.relayKey, x)]
    requires BornIn(AfterAnswer(env, net, i, x).stores[i], x)
    requires |relay'.imports| == |net.relay.imports| + 1 && relay'.imports[|net.relay.imports|].complete
    requires relay'.imports[|net.relay.imports|].receipt
             == ReceiptIn(net.stores[i].identity, net.relay.disk, env.relayKey, x)
    requires relay'.issued == Asked(env, net.relay, net.stores[i].identity, x).issued
    ensures Imports(env, net, i, x, AfterAnswer(env, net, i, x).(relay := relay'))
  {
    AskIsAnswered(env, net.relay, net.stores[i], x);
  }

  lemma ImportFollows(env: Env, net: Net, i: nat, x: Exchange) returns (final: Net)
    requires i < |net.stores| && Ready(env, net.relay, net.stores[i], x)
    ensures NetStepsTo(env, AfterAnswer(env, net, i, x), ImportOf(env, net, i, x), final)
    ensures Imports(env, net, i, x, final)
  {
    var w, after := net.stores[i], AfterAnswer(env, net, i, x);
    AnswerFollows(env, net, i, x);
    var relay' := ImportStep(env, net.relay, w, x, after);
    ImportsHolds(env, net, i, x, relay');
    final := after.(relay := relay');
  }

  lemma OfferFollows(env: Env, net: Net, i: nat, x: Exchange)
    requires i < |net.stores| && Ready(env, net.relay, net.stores[i], x)
    ensures NetStepsTo(env, net, StoreStep(i, Event(x.offered, CreatePairing(x.ttl, x.pairingId, x.code))),
                       AfterOffer(net, i, x))
  {
    OfferStep(env, net, i, x);
  }

  lemma AskFollows(env: Env, net: Net, i: nat, x: Exchange)
    requires i < |net.stores| && Ready(env, net.relay, net.stores[i], x)
    ensures NetStepsTo(env, AfterOffer(net, i, x), RelayStep(AskOp(net.stores[i].identity, x), 1),
                       AfterAsk(env, net, i, x))
  {
    AskStep(env, AfterOffer(net, i, x), net.stores[i], x);
  }

  /** Whatever times the request is carried with, as long as the device finds them valid and the pairing lasts:
      the enrollment completes at `now`, and the relay imports its receipt. */
  lemma CarriedRunImports(env: Env, net: Net, i: nat, x: Exchange) returns (steps: seq<NetStep>, final: Net)
    requires i < |net.stores| && Ready(env, net.relay, net.stores[i], x)
    ensures ProtocolRuns.Reaches(env, net, steps, final)
    ensures Imports(env, net, i, x, final)
  {
    var offer := StoreStep(i, Event(x.offered, CreatePairing(x.ttl, x.pairingId, x.code)));
    var ask := RelayStep(AskOp(net.stores[i].identity, x), 1);
    final := ImportFollows(env, net, i, x);
    OfferFollows(env, net, i, x);
    AskFollows(env, net, i, x);
    AnswerFollows(env, net, i, x);
    FourSteps(env, net, AfterOffer(net, i, x), AfterAsk(env, net, i, x), AfterAnswer(env, net, i, x), final,
              offer, ask, AnswerOf(env, net, i, x), ImportOf(env, net, i, x));
    steps := [offer, ask, AnswerOf(env, net, i, x), ImportOf(env, net, i, x)];
  }

  /** The last import is of the receipt the exchange earned, and the relay's own challenge ran for its fixed time. */
  ghost predicate Imports(env: Env, net: Net, i: nat, x: Exchange, final: Net)
    requires i < |net.stores| && |x.code| == 10
  {
    var n, id := |net.relay.imports|, net.stores[i].identity;
    && |final.stores| == |net.stores|
    && final.stores[i].hist.completions
       == net.stores[i].hist.completions + [CompletionIn(id, net.relay.disk, env.relayKey, x)]
    && BornIn(final.stores[i], x)
    && |final.relay.imports| == n + 1 && final.relay.imports[n].complete
    && final.relay.imports[n].receipt == ReceiptIn(id, net.relay.disk, env.relayKey, x)
    && x.challengeId in final.relay.issued
    && IssuedChallenge(final.relay, x.challengeId).expires == x.asked + CHALLENGE_TTL
  }

  // ---- When an enrollment can be late ----

  /** The relay has imported, without a crash in between, a receipt that its device earned with this exchange. */
  ghost predicate Enrolls(env: Env, net: Net, i: nat, x: Exchange, final: Net, n: nat)
    requires i < |net.stores| && |x.code| == 10
  {
    && i < |final.stores| && n < |final.relay.imports| && final.relay.imports[n].complete
    && final.relay.imports[n].receipt.Receipt?
    && Earned(env, final, final.stores[i], CompletionIn(net.stores[i].identity, net.relay.disk, env.relayKey, x),
              final.relay.imports[n].receipt)
    && BornIn(final.stores[i], x)
    && x.challengeId in final.relay.issued
    && IssuedChallenge(final.relay, x.challengeId).expires == x.asked + CHALLENGE_TTL
  }

  ghost predicate CanEnroll(env: Env, net: Net, i: nat, x: Exchange)
    requires i < |net.stores| && |x.code| == 10
  {
    exists steps, final, n :: ProtocolRuns.Reaches(env, net, steps, final) && Enrolls(env, net, i, x, final, n)
  }

  lemma EnrolledInTime(env: Env, net: Net, i: nat, x: Exchange)
    requires NetInv(env, net) && i < |net.stores| && |x.code| == 10 && CanEnroll(env, net, i, x)
    ensures x.now < x.expires && x.now < x.offered + x.ttl * SECOND
  {
    var steps, final, n :| ProtocolRuns.Reaches(env, net, steps, final) && Enrolls(env, net, i, x, final, n);
    ImportedInTime(env, net, steps, final, n, i, CompletionIn(net.stores[i].identity, net.relay.disk, env.relayKey, x));
  }

  lemma ImportEnrolls(env: Env, net: Net, i: nat, x: Exchange, final: Net)
    requires NetInv(env, final) && i < |net.stores| && |x.code| == 10 && Imports(env, net, i, x, final)
    ensures Enrolls(env, net, i, x, final, |net.relay.imports|)
  {
    var w, k, id := final.stores[i], |net.stores[i].hist.completions|, net.stores[i].identity;
    var c := CompletionIn(id, net.relay.disk, env.relayKey, x);
    assert StoreOk(env, final.relay, w, final.signed);
    assert c in w.hist.completions by { assert w.hist.completions[k] == c; }
    ReceiptOfCompletion(id, net.relay.disk, env.relayKey, x);
    CompletionEarned(env, final, |net.relay.imports|, w, c);
  }

  /** Every exchange that is in time for its pairing and for the challenge as carried can enroll. */
  lemma ReadyEnrolls(env: Env, net: Net, i: nat, x: Exchange) returns (steps: seq<NetStep>, final: Net)
    requires NetInv(env, net) && i < |net.stores| && Ready(env, net.relay, net.stores[i], x)
    ensures ProtocolRuns.Reaches(env, net, steps, final) && NetInv(env, final)
    ensures Imports(env, net, i, x, final) && Enrolls(env, net, i, x, final, |net.relay.imports|)
  {
    steps, final := CarriedRunImports(env, net, i, x);
    NetRunKeepsInv(env, net, steps, final);
    ImportEnrolls(env, net, i, x, final);
  }

  lemma ReadyCanEnroll(env: Env, net: Net, i: nat, x: Exchange)
    requires NetInv(env, net) && i < |net.stores| && Ready(env, net.relay, net.stores[i], x)
    ensures CanEnroll(env, net, i, x)
  {
    var steps, final := ReadyEnrolls(env, net, i, x);
  }

  /** The same exchange, answered at another time, when the relay's own challenge has expired. */
  ghost predicate LateAnswer(x: Exchange, y: Exchange)
  {
    y == x.(now := y.now) && y.now >= x.asked + CHALLENGE_TTL
  }

  /** And carried with other times as well. */
  ghost predicate LateDelivery(x: Exchange, y: Exchange)
  {
    y == x.(issued := y.issued, expires := y.expires, now := y.now) && y.now >= x.asked + CHALLENGE_TTL
  }

  function Later(a: int, b: int): int
  {
    if a < b then b else a
  }

  lemma LaterIsReady(env: Env, relay: RelayWorld, w: World, x: Exchange, t: int)
    requires Ready(env, relay, w, x) && x.now <= t < x.offered + x.ttl * SECOND
    ensures t < x.expires ==> Ready(env, relay, w, x.(now := t))
    ensures Ready(env, relay, w, x.(issued := t, expires := t + 1, now := t))
  {
  }

  /** With the times the request is carried with, some run enrolls after the relay's own challenge has expired if
      and only if that challenge expires before both the carried challenge and the pairing. */
  lemma LateIff(env: Env, net: Net, i: nat, x: Exchange)
    requires NetInv(env, net) && i < |net.stores| && Ready(env, net.relay, net.stores[i], x)
    ensures (exists y :: LateAnswer(x, y) && CanEnroll(env, net, i, y))
       <==> x.asked + CHALLENGE_TTL < x.expires && x.asked + CHALLENGE_TTL < x.offered + x.ttl * SECOND
  {
    var t := Later(x.now, x.asked + CHALLENGE_TTL);
    if x.asked + CHALLENGE_TTL < x.expires && x.asked + CHALLENGE_TTL < x.offered + x.ttl * SECOND {
      LaterIsReady(env, net.relay, net.stores[i], x, t);
      ReadyCanEnroll(env, net, i, x.(now := t));
      assert LateAnswer(x, x.(now := t));
    } else {
      forall y | LateAnswer(x, y) && CanEnroll(env, net, i, y) ensures false {
        EnrolledInTime(env, net, i, y);
      }
    }
  }

  /** Whoever carries the request can make it so if and only if the relay's challenge expires before the pairing. */
  lemma LateDeliveryIff(env: Env, net: Net, i: nat, x: Exchange)
    requires NetInv(env, net) && i < |net.stores| && Ready(env, net.relay, net.stores[i], x)
    ensures (exists y :: LateDelivery(x, y) && CanEnroll(env, net, i, y))
       <==> x.asked + CHALLENGE_TTL < x.offered + x.ttl * SECOND
  {
    var t := Later(x.now, x.asked + CHALLENGE_TTL);
    if x.asked + CHALLENGE_TTL < x.offered + x.ttl * SECOND {
      LaterIsReady(env, net.relay, net.stores[i], x, t);
      ReadyCanEnroll(env, net, i, x.(issued := t, expires := t + 1, now := t));
      assert LateDelivery(x, x.(issued := t, expires := t + 1, now := t));
    } else {
      forall y | LateDelivery(x, y) && CanEnroll(env, net, i, y) ensures false {
        EnrolledInTime(env, net, i, y);
      }
    }
  }

  // ---- A concrete late enrollment ----

  /** A pairing offered for half an hour and asked for at once; five minutes after the relay's challenge has
      expired, the request arrives with times that are valid then. */
  function LateExchange(): Exchange
  {
    Exchange(ChallengeReuse.FIRST_PAIRING, ChallengeReuse.SAMPLE_CODE, 1800, 0, ChallengeReuse.SAMPLE_ID,
             ChallengeReuse.Fill(32, 3), 0, 600 * SECOND, 660 * SECOND, 600 * SECOND)
  }

  function SampleEnv(did: DeviceIdOf, upper: string -> string): Env
  {
    Env(did, upper, ChallengeReuse.Fill(32, 2))
  }

  /** A relay just initialized, one new device, nothing signed. */
  function SampleNet(did: DeviceIdOf): Net
  {
    var key := ChallengeReuse.Fill(32, 1);
    Net(InitialRelay("relay", "peer", Encode(ChallengeReuse.Fill(32, 2)), 8443),
        [Initial(Identity(did(key), key), 0)], {})
  }

  lemma FillsDiffer(a: Byte, b: Byte)
    requires a != b
    ensures ChallengeReuse.Fill(32, a) != ChallengeReuse.Fill(32, b)
  {
    assert ChallengeReuse.Fill(32, a)[0] != ChallengeReuse.Fill(32, b)[0];
  }

  lemma SampleKeys()
    ensures ChallengeReuse.Fill(32, 1) != ChallengeReuse.Fill(32, 2)
    ensures DecodeKey(Encode(ChallengeReuse.Fill(32, 2))) == Some(ChallengeReuse.Fill(32, 2))
  {
    FillsDiffer(1, 2);
    DecodeKeyEncoded(ChallengeReuse.Fill(32, 2));
  }

  lemma SampleNames()
    ensures IsName("relay") && IsName("peer") && IsCode(ChallengeReuse.SAMPLE_CODE)
  {
  }

  lemma SampleNetStarts(did: DeviceIdOf, upper: string -> string)
    ensures NetInv(SampleEnv(did, upper), SampleNet(did))
  {
    SampleKeys();
    SampleNames();
    var key := ChallengeReuse.Fill(32, 1);
    InitialNet(SampleEnv(did, upper), "relay", "peer", Encode(ChallengeReuse.Fill(32, 2)), 8443,
               [Identity(did(key), key)], 0, SampleNet(did));
  }

  lemma SampleStrangers(did: DeviceIdOf, upper: string -> string)
    requires IsDeviceId(did(ChallengeReuse.Fill(32, 1)))
    ensures var net := SampleNet(did);
            Strangers(did, net.stores[0].identity, net.stores[0].state, net.relay.disk, ChallengeReuse.Fill(32, 2))
  {
    SampleRelayLoads(did);
  }

  lemma SampleRelayLoads(did: DeviceIdOf)
    ensures Loads(did, SampleNet(did).relay.disk)
  {
    SampleKeys();
    SampleNames();
  }

  lemma LateIsReady(did: DeviceIdOf, upper: string -> string)
    requires IsDeviceId(did(ChallengeReuse.Fill(32, 1)))
    requires upper(ChallengeReuse.SAMPLE_CODE) == ChallengeReuse.SAMPLE_CODE
    ensures Ready(SampleEnv(did, upper), SampleNet(did).relay, SampleNet(did).stores[0], LateExchange())
  {
    SampleStrangers(did, upper);
    SampleNames();
    ChallengeReuse.SampleIds();
  }

  /** The relay made one import, complete, of a receipt that its device earned by completion `c`, `delay` after the
      relay's own challenge had expired. */
  ghost predicate ImportedLate(env: Env, net: Net, c: Completion, delay: int)
  {
    && |net.relay.imports| == 1 && net.relay.imports[0].complete && net.relay.imports[0].receipt.Receipt?
    && |net.stores| == 1 && Earned(env, net, net.stores[0], c, net.relay.imports[0].receipt)
    && c.win.at == IssuedChallenge(net.relay, c.challenge.challengeId).expires + delay
  }

  ghost predicate HasLateRun(env: Env, net0: Net, delay: int)
  {
    exists steps, net, c :: ProtocolRuns.Reaches(env, net0, steps, net) && ImportedLate(env, net, c, delay)
  }

  lemma CarriedRunIsLate(env: Env, net0: Net, x: Exchange, delay: int)
    requires NetInv(env, net0) && |net0.stores| == 1 && net0.relay.imports == []
    requires Ready(env, net0.relay, net0.stores[0], x) && x.now == x.asked + CHALLENGE_TTL + delay
    ensures HasLateRun(env, net0, delay)
  {
    var steps, net := ReadyEnrolls(env, net0, 0, x);
    assert ImportedLate(env, net, CompletionIn(net0.stores[0].identity, net0.relay.disk, env.relayKey, x), delay);
  }

  /** So an imported enrollment can be later than the relay's challenge: here the relay has the device in its
      allowlist for a request that had expired five minutes before the device answered it. */
  lemma EnrollmentCanBeLate(did: DeviceIdOf, upper: string -> string)
    requires IsDeviceId(did(ChallengeReuse.Fill(32, 1)))
    requires upper(ChallengeReuse.SAMPLE_CODE) == ChallengeReuse.SAMPLE_CODE
    ensures HasLateRun(SampleEnv(did, upper), SampleNet(did), 300 * SECOND)
  {
    SampleNetStarts(did, upper);
    LateIsReady(did, upper);
    CarriedRunIsLate(SampleEnv(did, upper), SampleNet(did), LateExchange(), 300 * SECOND);
  }
}
