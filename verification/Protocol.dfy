/**
 The composed enrollment protocol: one relay manager, any number of device stores, and an untrusted
 channel. Whoever controls the channel chooses every argument of every operation, may replay or alter
 any document, and signs whatever it likes with keys of its own. Honest keys sign only what the code
 signs. Operations of the relay may be cut short by crashes.
 */
module Protocol {
  import opened Prelude
  import opened Base64
  import opened Messages
  import opened Enrollment
  import opened EnrollmentHistory
  import opened EnrollmentRuns
  import opened RelayConfig
  import opened RelayRuns

  datatype Net = Net(relay: RelayWorld, stores: seq<World>, signed: Signatures)

  /** What never changes in a run: the hash, `str.upper`, and the relay's own key. */
  datatype Env = Env(did: DeviceIdOf, upper: string -> string, relayKey: Bytes)

  datatype NetStep =
    | StoreStep(i: nat, event: Event)
    | StoreSigns(i: nat, message: Message)
    | RelayStep(op: RelayOp, k: nat)
    | OutsiderSigns(key: Bytes, payload: string)

  function ReceiptOf(c: Completion): Message
  {
    Receipt(c.challenge.challengeId, c.challenge.relayId, c.win.pairingId, c.identity.deviceId, Encode(c.identity.key),
            c.win.peer.peerId, Encode(c.win.peer.key), c.win.at)
  }

  function ProofIssued(i: Issue): Message
  {
    ProofOf(i.request, i.offer.deviceId)
  }

  ghost predicate StoreKey(w: World, key: Bytes)
  {
    exists n :: 0 <= n < |w.hist.identities| && w.hist.identities[n].key == key
  }

  ghost predicate Outsider(env: Env, net: Net, key: Bytes)
  {
    key != env.relayKey && forall i | 0 <= i < |net.stores| :: !StoreKey(net.stores[i], key)
  }

  ghost predicate NetLegal(env: Env, net: Net, s: NetStep)
  {
    match s
    case StoreStep(i, e) =>
      && i < |net.stores| && Legal(net.stores[i], e)
      && (e.op.Complete? ==> e.op.signed == net.signed)
      && (e.op.Rotate? ==>
            && Outsider(env, net, e.op.next.key) && e.op.next.deviceId == env.did(e.op.next.key)
            && forall p :: (e.op.next.key, p) !in net.signed)
    case StoreSigns(i, m) => i < |net.stores| && (m.ChallengeResponse? || m.SessionAuth?)
    case RelayStep(op, k) =>
      RelayLegal(env.did, net.relay, op, k) && (op.ImportOp? ==> op.signed == net.signed)
    case OutsiderSigns(key, _) => Outsider(env, net, key)
  }

  ghost function Signing(w: World, w': World): Signatures
  {
    if |w'.hist.completions| > |w.hist.completions|
    then {(w.identity.key, Payload(ReceiptOf(w'.hist.completions[|w.hist.completions|])))}
    else {}
  }

  ghost function NetNext(env: Env, net: Net, s: NetStep): Net
    requires NetLegal(env, net, s)
  {
    match s
    case StoreStep(i, e) =>
      var w' := Next(env.upper, net.stores[i], e);
      Net(net.relay, net.stores[i := w'], net.signed + Signing(net.stores[i], w'))
    case StoreSigns(i, m) => net.(signed := net.signed + {(net.stores[i].identity.key, Payload(m))})
    case RelayStep(op, k) =>
      var relay := RelayNext(env.did, net.relay, op, k);
      Net(relay, net.stores,
          if op.RequestOp? && op.challengeId in relay.issued
          then net.signed + {(env.relayKey, Payload(ProofIssued(relay.issued[op.challengeId])))}
          else net.signed)
    case OutsiderSigns(key, payload) => net.(signed := net.signed + {(key, payload)})
  }

  // ---- What honest signatures mean ----

  ghost predicate ReceiptSigned(w: World, id: Identity, p: string)
  {
    exists n :: 0 <= n < |w.hist.completions| && w.hist.completions[n].identity == id
      && p == Payload(ReceiptOf(w.hist.completions[n]))
  }

  ghost predicate OtherSigned(p: string)
  {
    exists m: Message :: (m.ChallengeResponse? || m.SessionAuth?) && p == Payload(m)
  }

  /** A device key has signed only receipts for its own completions, and challenges. */
  ghost predicate DeviceSigns(w: World, id: Identity, signed: Signatures)
  {
    forall p | (id.key, p) in signed :: ReceiptSigned(w, id, p) || OtherSigned(p)
  }

  /** The relay key has signed only the proofs of requests the relay issued. */
  ghost predicate RelaySigns(relayKey: Bytes, relay: RelayWorld, signed: Signatures)
  {
    forall p | (relayKey, p) in signed :: ProofSigned(relay, p)
  }

  ghost predicate ProofSigned(relay: RelayWorld, p: string)
  {
    exists c :: c in relay.issued && p == Payload(ProofIssued(relay.issued[c]))
  }

  /** A completion under the relay's key answers a request the relay issued for this very device, with the same
      pairing, peer name, relay id and nonce, but perhaps with other challenge times. */
  ghost predicate Solicited(env: Env, relay: RelayWorld, c: Completion)
  {
    && |c.win.peer.key| == 32
    && (c.win.peer.key == env.relayKey ==>
          && c.challenge.challengeId in relay.issued
          && var i := relay.issued[c.challenge.challengeId];
             && i.request.pairingId == c.win.pairingId && i.request.peerId == c.win.peer.peerId
             && i.request.challenge.relayId == c.challenge.relayId
             && i.request.challenge.nonce == c.challenge.nonce
             && i.offer.deviceId == c.identity.deviceId)
  }

  ghost predicate StoreOk(env: Env, relay: RelayWorld, w: World, signed: Signatures)
  {
    && Inv(w)
    && (forall n | 0 <= n < |w.hist.identities| ::
          && w.hist.identities[n].deviceId == env.did(w.hist.identities[n].key)
          && w.hist.identities[n].key != env.relayKey
          && DeviceSigns(w, w.hist.identities[n], signed))
    && (forall n | 0 <= n < |w.hist.completions| :: Solicited(env, relay, w.hist.completions[n]))
  }

  ghost predicate DisjointKeys(v: World, w: World)
  {
    forall m, n | 0 <= m < |v.hist.identities| && 0 <= n < |w.hist.identities| ::
      v.hist.identities[m].key != w.hist.identities[n].key
  }

  ghost predicate RelayOk(env: Env, relay: RelayWorld, signed: Signatures)
  {
    && RelayInv(env.did, relay)
    && |env.relayKey| == 32 && DecodeKey(relay.disk.state.peerKey) == Some(env.relayKey)
    && RelaySigns(env.relayKey, relay, signed)
    && forall n | 0 <= n < |relay.imports| :: ReceiptVerifies(env.did, relay.imports[n].receipt, signed)
  }

  ghost predicate NetInv(env: Env, net: Net)
  {
    && RelayOk(env, net.relay, net.signed)
    && (forall i | 0 <= i < |net.stores| :: StoreOk(env, net.relay, net.stores[i], net.signed))
    && (forall i, j | 0 <= i < j < |net.stores| :: DisjointKeys(net.stores[i], net.stores[j]))
  }

  // ---- Steps ----

  /** What a completed request leaves in the history. */
  lemma CompletionFacts(upper: string -> string, w: World, now: int, r: Request, signed: Signatures)
    requires now >= w.clock && PairingInv(w.hist.ledger, w.state.pairings, w.clock, r.pairingId)
    ensures var cs, cs' := w.hist.completions, NextComplete(upper, w, now, r, signed).hist.completions;
            cs' == cs
            || (&& |cs'| == |cs| + 1 && cs'[..|cs|] == cs
                && var c := cs'[|cs|];
                   && c.identity == w.identity && c.challenge == r.challenge && c.win.pairingId == r.pairingId
                   && DecodeKey(r.peerKey) == Some(c.win.peer.key) && c.win.peer.peerId == r.peerId
                   && ValidProof(r, w.identity.deviceId, signed))
  {
    CompleteUsed(upper, w, now, r, signed);
    if CompleteEnrollment(upper, w.identity, w.state, now, r, signed).wrote {
      ConsumeEffect(w.hist.ledger, w.clock, PruneUsed(w.state, now), r.pairingId, NormalizeCode(upper, r.code),
                    r.peerId, DecodeKey(r.peerKey).value, now);
    }
  }

  lemma ProofMeansIssue(env: Env, relay: RelayWorld, signed: Signatures, r: Request, deviceId: string)
    requires RelayOk(env, relay, signed) && (env.relayKey, Payload(ProofOf(r, deviceId))) in signed
    ensures r.challenge.challengeId in relay.issued
    ensures var i := relay.issued[r.challenge.challengeId];
            && i.request.pairingId == r.pairingId && i.request.peerId == r.peerId
            && i.request.challenge.relayId == r.challenge.relayId
            && i.request.challenge.nonce == r.challenge.nonce && i.offer.deviceId == deviceId
  {
    var p := Payload(ProofOf(r, deviceId));
    assert ProofSigned(relay, p);
    var c :| c in relay.issued && p == Payload(ProofIssued(relay.issued[c]));
    PayloadInjective(ProofOf(r, deviceId), ProofIssued(relay.issued[c]));
    assert IssueOk(env.did, relay, c);
  }

  lemma MeaningGrows(w: World, w': World, id: Identity, signed: Signatures)
    requires |w.hist.completions| <= |w'.hist.completions|
    requires w'.hist.completions[..|w.hist.completions|] == w.hist.completions
    requires DeviceSigns(w, id, signed)
    ensures DeviceSigns(w', id, signed)
  {
    forall p | (id.key, p) in signed ensures ReceiptSigned(w', id, p) || OtherSigned(p) {
      if ReceiptSigned(w, id, p) {
        var n :| 0 <= n < |w.hist.completions| && w.hist.completions[n].identity == id
          && p == Payload(ReceiptOf(w.hist.completions[n]));
        assert w'.hist.completions[..|w.hist.completions|][n] == w'.hist.completions[n];
      }
    }
  }

  /** A store moved to `w'`: same identities, and at most one more completion, of its current identity. */
  ghost predicate Completes(env: Env, relay: RelayWorld, w: World, w': World)
  {
    var cs, cs', n := w.hist.completions, w'.hist.completions, |w.hist.completions|;
    && w'.hist.identities == w.hist.identities
    && n <= |cs'| && cs'[..n] == cs
    && (|cs'| > n ==> |cs'| == n + 1 && cs'[n].identity == w.identity && Solicited(env, relay, cs'[n]))
  }

  lemma StepCompletions(env: Env, relay: RelayWorld, w: World, e: Event, signed: Signatures)
    requires StoreOk(env, relay, w, signed) && RelayOk(env, relay, signed)
    requires Legal(w, e) && !e.op.Rotate? && (e.op.Complete? ==> e.op.signed == signed)
    ensures Completes(env, relay, w, Next(env.upper, w, e))
  {
    var cs', n := Next(env.upper, w, e).hist.completions, |w.hist.completions|;
    if e.op.Complete? {
      assert PairingInv(w.hist.ledger, w.state.pairings, w.clock, e.op.request.pairingId);
      CompletionFacts(env.upper, w, e.now, e.op.request, signed);
      CompleteUsed(env.upper, w, e.now, e.op.request, signed);
      if |cs'| > n && cs'[n].win.peer.key == env.relayKey {
        ProofMeansIssue(env, relay, signed, e.op.request, w.identity.deviceId);
      }
    }
  }

  lemma NewReceiptMeans(w: World, w': World, id: Identity, signed: Signatures)
    requires ReplayInv(w) && id in w.hist.identities && DeviceSigns(w', id, signed)
    requires |w'.hist.completions| > |w.hist.completions| ==>
               w'.hist.completions[|w.hist.completions|].identity == w.identity
    ensures DeviceSigns(w', id, signed + Signing(w, w'))
  {
    var n := |w.hist.completions|;
    if |w'.hist.completions| > n && id.key == w.identity.key {
      SameKeySameIdentity(w, id);
      var p := Payload(ReceiptOf(w'.hist.completions[n]));
      assert ReceiptSigned(w', id, p);
      assert Signing(w, w') == {(id.key, p)};
    }
  }

  lemma SameKeySameIdentity(w: World, id: Identity)
    requires ReplayInv(w) && id in w.hist.identities && id.key == w.identity.key
    ensures id == w.identity
  {
  }

  lemma SolicitedKept(env: Env, relay: RelayWorld, w: World, w': World)
    requires Completes(env, relay, w, w')
    requires forall n | 0 <= n < |w.hist.completions| :: Solicited(env, relay, w.hist.completions[n])
    ensures forall n | 0 <= n < |w'.hist.completions| :: Solicited(env, relay, w'.hist.completions[n])
  {
    var cs', n := w'.hist.completions, |w.hist.completions|;
    forall m | 0 <= m < |cs'| ensures Solicited(env, relay, cs'[m]) {
      if m < n { assert cs'[m] == cs'[..n][m]; }
    }
  }

  lemma SigningKept(env: Env, relay: RelayWorld, w: World, w': World, id: Identity, signed: Signatures)
    requires Completes(env, relay, w, w') && ReplayInv(w) && id in w.hist.identities && DeviceSigns(w, id, signed)
    ensures DeviceSigns(w', id, signed + Signing(w, w'))
  {
    MeaningGrows(w, w', id, signed);
    NewReceiptMeans(w, w', id, signed);
  }

  lemma MovedStoreOk(env: Env, relay: RelayWorld, w: World, w': World, signed: Signatures)
    requires StoreOk(env, relay, w, signed) && Completes(env, relay, w, w') && Inv(w')
    ensures StoreOk(env, relay, w', signed + Signing(w, w'))
  {
    SolicitedKept(env, relay, w, w');
    forall m | 0 <= m < |w.hist.identities|
      ensures DeviceSigns(w', w.hist.identities[m], signed + Signing(w, w'))
    {
      SigningKept(env, relay, w, w', w.hist.identities[m], signed);
    }
  }

  /** A store's own step, except a rotation. */
  lemma StoreStepOk(env: Env, relay: RelayWorld, w: World, e: Event, signed: Signatures)
    requires StoreOk(env, relay, w, signed) && RelayOk(env, relay, signed)
    requires Legal(w, e) && !e.op.Rotate? && (e.op.Complete? ==> e.op.signed == signed)
    ensures var w' := Next(env.upper, w, e); StoreOk(env, relay, w', signed + Signing(w, w'))
    ensures Next(env.upper, w, e).hist.identities == w.hist.identities
  {
    StepKeepsInv(env.upper, w, e);
    StepCompletions(env, relay, w, e, signed);
    MovedStoreOk(env, relay, w, Next(env.upper, w, e), signed);
  }
}
