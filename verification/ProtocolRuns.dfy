/** The composed protocol's invariant, kept by every step, and the agreement it gives. */
module ProtocolRuns {
  import opened Prelude
  import Text
  import opened Base64
  import opened Messages
  import opened Enrollment
  import opened EnrollmentHistory
  import opened EnrollmentRuns
  import opened RelayConfig
  import opened RelayRuns
  import opened Protocol

  // ---- A new signature bothers nobody else ----

  lemma StoreIgnores(env: Env, relay: RelayWorld, w: World, signed: Signatures, key: Bytes, p: string)
    requires StoreOk(env, relay, w, signed) && !StoreKey(w, key)
    ensures StoreOk(env, relay, w, signed + {(key, p)})
  {
    forall n | 0 <= n < |w.hist.identities|
      ensures DeviceSigns(w, w.hist.identities[n], signed + {(key, p)})
    {
      assert w.hist.identities[n].key != key;
      assert DeviceSigns(w, w.hist.identities[n], signed);
    }
  }

  lemma RelayIgnores(env: Env, relay: RelayWorld, signed: Signatures, key: Bytes, p: string)
    requires RelayOk(env, relay, signed) && key != env.relayKey
    ensures RelayOk(env, relay, signed + {(key, p)})
  {
    assert RelaySigns(env.relayKey, relay, signed + {(key, p)});
  }

  lemma CurrentKey(w: World)
    requires ReplayInv(w)
    ensures w.identity in w.hist.identities && StoreKey(w, w.identity.key)
  {
    assert w.hist.identities[|w.hist.identities| - 1].key == w.identity.key;
  }

  lemma OtherStoresIgnore(env: Env, net: Net, i: nat, p: string)
    requires NetInv(env, net) && i < |net.stores|
    ensures var key := net.stores[i].identity.key;
            && key != env.relayKey
            && forall j | 0 <= j < |net.stores| && j != i ::
               StoreOk(env, net.relay, net.stores[j], net.signed + {(key, p)})
  {
    var w := net.stores[i];
    assert StoreOk(env, net.relay, w, net.signed);
    CurrentKey(w);
    forall j | 0 <= j < |net.stores| && j != i
      ensures StoreOk(env, net.relay, net.stores[j], net.signed + {(w.identity.key, p)})
    {
      assert if i < j then DisjointKeys(w, net.stores[j]) else DisjointKeys(net.stores[j], w);
      assert !StoreKey(net.stores[j], w.identity.key);
      StoreIgnores(env, net.relay, net.stores[j], net.signed, w.identity.key, p);
    }
  }

  // ---- Store steps ----

  /** The store at `i` moved without changing identities, adding at most one signature with its own key. */
  lemma StoreMoved(env: Env, net: Net, i: nat, w': World, added: Signatures)
    requires NetInv(env, net) && i < |net.stores|
    requires w'.hist.identities == net.stores[i].hist.identities
    requires added == {} || exists p :: added == {(net.stores[i].identity.key, p)}
    requires StoreOk(env, net.relay, w', net.signed + added)
    ensures NetInv(env, Net(net.relay, net.stores[i := w'], net.signed + added))
  {
    var stores, signed := net.stores[i := w'], net.signed + added;
    if added == {} {
      assert signed == net.signed;
    } else {
      var p :| added == {(net.stores[i].identity.key, p)};
      OtherStoresIgnore(env, net, i, p);
      RelayIgnores(env, net.relay, net.signed, net.stores[i].identity.key, p);
    }
    forall j, k | 0 <= j < k < |stores| ensures DisjointKeys(stores[j], stores[k]) {
      assert DisjointKeys(net.stores[j], net.stores[k]);
    }
  }

  lemma RotationOk(env: Env, relay: RelayWorld, w: World, e: Event, signed: Signatures)
    requires StoreOk(env, relay, w, signed) && Legal(w, e) && e.op.Rotate?
    requires e.op.next.deviceId == env.did(e.op.next.key) && e.op.next.key != env.relayKey
    requires forall p :: (e.op.next.key, p) !in signed
    ensures StoreOk(env, relay, Next(env.upper, w, e), signed)
  {
    var w' := Next(env.upper, w, e);
    StepKeepsInv(env.upper, w, e);
    forall n | 0 <= n < |w'.hist.identities| ensures DeviceSigns(w', w'.hist.identities[n], signed) {
      if n < |w.hist.identities| { MeaningGrows(w, w', w.hist.identities[n], signed); }
    }
  }

  /** A confirmed rotation takes up the next identity; an unconfirmed one keeps the current. */
  ghost predicate RotatesTo(w: World, w': World, next: Identity)
  {
    w'.hist.identities == w.hist.identities || w'.hist.identities == w.hist.identities + [next]
  }

  lemma FreshKeyDisjoint(w: World, w': World, v: World, next: Identity)
    requires DisjointKeys(w, v) || DisjointKeys(v, w)
    requires !StoreKey(v, next.key) && RotatesTo(w, w', next)
    ensures DisjointKeys(w', v) && DisjointKeys(v, w')
  {
    forall m, n | 0 <= m < |w'.hist.identities| && 0 <= n < |v.hist.identities|
      ensures w'.hist.identities[m].key != v.hist.identities[n].key
    {
      assert m < |w.hist.identities| ==> w'.hist.identities[m] == w.hist.identities[m];
    }
  }

  lemma RotatedStoresDisjoint(stores: seq<World>, i: nat, w': World, next: Identity)
    requires i < |stores| && RotatesTo(stores[i], w', next)
    requires forall j, k | 0 <= j < k < |stores| :: DisjointKeys(stores[j], stores[k])
    requires forall j | 0 <= j < |stores| :: !StoreKey(stores[j], next.key)
    ensures var stores' := stores[i := w']; forall j, k | 0 <= j < k < |stores'| :: DisjointKeys(stores'[j], stores'[k])
  {
    var stores' := stores[i := w'];
    forall j, k | 0 <= j < k < |stores'| ensures DisjointKeys(stores'[j], stores'[k]) {
      assert DisjointKeys(stores[j], stores[k]);
      if j == i { FreshKeyDisjoint(stores[i], w', stores[k], next); }
      if k == i { FreshKeyDisjoint(stores[i], w', stores[j], next); }
    }
  }

  /** A rotation's next key is nobody's yet. */
  lemma NextKeyIsFresh(env: Env, net: Net, i: nat, e: Event)
    requires NetLegal(env, net, StoreStep(i, e)) && e.op.Rotate?
    ensures Legal(net.stores[i], e) && RotatesTo(net.stores[i], Next(env.upper, net.stores[i], e), e.op.next)
    ensures e.op.next.deviceId == env.did(e.op.next.key) && e.op.next.key != env.relayKey
    ensures forall j | 0 <= j < |net.stores| :: !StoreKey(net.stores[j], e.op.next.key)
    ensures forall p :: (e.op.next.key, p) !in net.signed
  {
  }

  lemma StoreRotated(env: Env, net: Net, i: nat, e: Event)
    requires NetInv(env, net) && NetLegal(env, net, StoreStep(i, e)) && e.op.Rotate?
    ensures NetInv(env, Net(net.relay, net.stores[i := Next(env.upper, net.stores[i], e)], net.signed))
  {
    NextKeyIsFresh(env, net, i, e);
    StoreReplaced(env, net, i, e, Next(env.upper, net.stores[i], e));
  }

  lemma StoreReplaced(env: Env, net: Net, i: nat, e: Event, w': World)
    requires NetInv(env, net) && i < |net.stores| && Legal(net.stores[i], e) && e.op.Rotate?
    requires w' == Next(env.upper, net.stores[i], e) && RotatesTo(net.stores[i], w', e.op.next)
    requires e.op.next.deviceId == env.did(e.op.next.key) && e.op.next.key != env.relayKey
    requires forall j | 0 <= j < |net.stores| :: !StoreKey(net.stores[j], e.op.next.key)
    requires forall p :: (e.op.next.key, p) !in net.signed
    ensures NetInv(env, Net(net.relay, net.stores[i := w'], net.signed))
  {
    RotationOk(env, net.relay, net.stores[i], e, net.signed);
    RotatedStoresDisjoint(net.stores, i, w', e.op.next);
  }

  lemma ChallengeSigned(env: Env, relay: RelayWorld, w: World, signed: Signatures, m: Message)
    requires StoreOk(env, relay, w, signed) && (m.ChallengeResponse? || m.SessionAuth?)
    ensures StoreOk(env, relay, w, signed + {(w.identity.key, Payload(m))})
  {
    var signed' := signed + {(w.identity.key, Payload(m))};
    forall n | 0 <= n < |w.hist.identities| ensures DeviceSigns(w, w.hist.identities[n], signed') {
      forall p | (w.hist.identities[n].key, p) in signed'
        ensures ReceiptSigned(w, w.hist.identities[n], p) || OtherSigned(p)
      {
        assert DeviceSigns(w, w.hist.identities[n], signed);
        assert OtherSigned(Payload(m));
      }
    }
  }

  // ---- Relay steps ----

  lemma SolicitedGrows(env: Env, relay: RelayWorld, relay': RelayWorld, c: Completion)
    requires Solicited(env, relay, c)
    requires forall x | x in relay.issued :: x in relay'.issued && relay'.issued[x] == relay.issued[x]
    ensures Solicited(env, relay', c)
  {
  }

  lemma IssuedGrows(env: Env, w: RelayWorld, op: RelayOp, k: nat)
    requires RelayLegal(env.did, w, op, k)
    ensures var w' := RelayNext(env.did, w, op, k);
            && (forall x | x in w.issued :: x in w'.issued && w'.issued[x] == w.issued[x])
            && (w'.imports == w.imports
                || (op.ImportOp? && k > 0 && exists p, b :: w'.imports == w.imports + [Imported(op.receipt, p, b)]))
            && w'.disk.state.peerKey == w.disk.state.peerKey
  {
    match op
    case ImportOp(r, signed) =>
      if k > 0 { ImportSettles(env.did, w.disk, r, signed, k); }
    case RequestOp(_, _, _, _, _) =>
    case _ => OtherSettles(env.did, w.disk, op, k);
  }

  /** The relay's signatures after a step: the old ones, and the new request's proof if there is one. */
  lemma RelaySignsAfter(env: Env, w: RelayWorld, w': RelayWorld, signed: Signatures, added: Signatures)
    requires RelaySigns(env.relayKey, w, signed)
    requires forall x | x in w.issued :: x in w'.issued && w'.issued[x] == w.issued[x]
    requires forall key, p | (key, p) in added :: ProofSigned(w', p)
    ensures RelaySigns(env.relayKey, w', signed + added)
  {
    forall p | (env.relayKey, p) in signed + added ensures ProofSigned(w', p) {
      if (env.relayKey, p) in signed {
        assert ProofSigned(w, p);
        var c :| c in w.issued && p == Payload(ProofIssued(w.issued[c]));
        assert w'.issued[c] == w.issued[c];
      }
    }
  }

  lemma RelayStaysOk(env: Env, net: Net, op: RelayOp, k: nat, added: Signatures)
    requires NetInv(env, net) && NetLegal(env, net, RelayStep(op, k))
    requires forall key, p | (key, p) in added :: ProofSigned(RelayNext(env.did, net.relay, op, k), p)
    ensures RelayOk(env, RelayNext(env.did, net.relay, op, k), net.signed + added)
  {
    var relay' := RelayNext(env.did, net.relay, op, k);
    RelayStepKeepsInv(env.did, net.relay, op, k);
    IssuedGrows(env, net.relay, op, k);
    RelaySignsAfter(env, net.relay, relay', net.signed, added);
    forall n | 0 <= n < |relay'.imports|
      ensures ReceiptVerifies(env.did, relay'.imports[n].receipt, net.signed + added)
    {
      if n < |net.relay.imports| {
        assert ReceiptVerifies(env.did, net.relay.imports[n].receipt, net.signed);
      }
    }
  }

  lemma RelayMoved(env: Env, net: Net, op: RelayOp, k: nat)
    requires NetInv(env, net) && NetLegal(env, net, RelayStep(op, k))
    ensures NetInv(env, NetNext(env, net, RelayStep(op, k)))
  {
    var net' := NetNext(env, net, RelayStep(op, k));
    var added := if op.RequestOp? && op.challengeId in net'.relay.issued
                 then {(env.relayKey, Payload(ProofIssued(net'.relay.issued[op.challengeId])))} else {};
    assert net'.signed == net.signed + added;
    RelayStaysOk(env, net, op, k, added);
    StoresUnbothered(env, net, op, k, added);
  }

  lemma StoresUnbothered(env: Env, net: Net, op: RelayOp, k: nat, added: Signatures)
    requires NetInv(env, net) && RelayLegal(env.did, net.relay, op, k)
    requires forall key, p | (key, p) in added :: key == env.relayKey
    ensures forall i | 0 <= i < |net.stores| ::
              StoreOk(env, RelayNext(env.did, net.relay, op, k), net.stores[i], net.signed + added)
  {
    var relay' := RelayNext(env.did, net.relay, op, k);
    IssuedGrows(env, net.relay, op, k);
    forall i | 0 <= i < |net.stores| ensures StoreOk(env, relay', net.stores[i], net.signed + added) {
      RelayBothersNoStore(env, net, net.(relay := relay', signed := net.signed + added), net.stores[i], added);
    }
  }

  lemma RelayBothersNoStore(env: Env, net: Net, net': Net, w: World, added: Signatures)
    requires StoreOk(env, net.relay, w, net.signed) && net'.signed == net.signed + added
    requires forall x | x in net.relay.issued :: x in net'.relay.issued && net'.relay.issued[x] == net.relay.issued[x]
    requires forall key, p | (key, p) in added :: key == env.relayKey
    ensures StoreOk(env, net'.relay, w, net'.signed)
  {
    forall n | 0 <= n < |w.hist.completions| ensures Solicited(env, net'.relay, w.hist.completions[n]) {
      SolicitedGrows(env, net.relay, net'.relay, w.hist.completions[n]);
    }
    forall n | 0 <= n < |w.hist.identities| ensures DeviceSigns(w, w.hist.identities[n], net'.signed) {
      assert DeviceSigns(w, w.hist.identities[n], net.signed);
    }
  }

  // ---- Every step, every run ----

  lemma RotationSignsNothing(env: Env, w: World, e: Event)
    requires Legal(w, e) && e.op.Rotate?
    ensures Signing(w, Next(env.upper, w, e)) == {}
  {
  }

  lemma StoreStepKeepsInv(env: Env, net: Net, i: nat, e: Event)
    requires NetInv(env, net) && NetLegal(env, net, StoreStep(i, e)) && !e.op.Rotate?
    ensures NetInv(env, NetNext(env, net, StoreStep(i, e)))
  {
    var w, w' := net.stores[i], Next(env.upper, net.stores[i], e);
    StoreStepOk(env, net.relay, w, e, net.signed);
    StoreMoved(env, net, i, w', Signing(w, w'));
  }

  lemma RotationKeepsInv(env: Env, net: Net, i: nat, e: Event)
    requires NetInv(env, net) && NetLegal(env, net, StoreStep(i, e)) && e.op.Rotate?
    ensures NetInv(env, NetNext(env, net, StoreStep(i, e)))
  {
    StoreRotated(env, net, i, e);
    RotationSignsNothing(env, net.stores[i], e);
    assert net.signed + {} == net.signed;
  }

  lemma SigningKeepsInv(env: Env, net: Net, i: nat, m: Message)
    requires NetInv(env, net) && NetLegal(env, net, StoreSigns(i, m))
    ensures NetInv(env, NetNext(env, net, StoreSigns(i, m)))
  {
    var w := net.stores[i];
    assert StoreOk(env, net.relay, w, net.signed);
    ChallengeSigned(env, net.relay, w, net.signed, m);
    StoreMoved(env, net, i, w, {(w.identity.key, Payload(m))});
    assert net.stores[i := w] == net.stores;
  }

  lemma OutsiderKeepsInv(env: Env, net: Net, key: Bytes, payload: string)
    requires NetInv(env, net) && Outsider(env, net, key)
    ensures NetInv(env, net.(signed := net.signed + {(key, payload)}))
  {
    RelayIgnores(env, net.relay, net.signed, key, payload);
    forall i | 0 <= i < |net.stores|
      ensures StoreOk(env, net.relay, net.stores[i], net.signed + {(key, payload)})
    {
      StoreIgnores(env, net.relay, net.stores[i], net.signed, key, payload);
    }
  }

  lemma NetStepKeepsInv(env: Env, net: Net, s: NetStep)
    requires NetInv(env, net) && NetLegal(env, net, s)
    ensures NetInv(env, NetNext(env, net, s))
  {
    match s
    case StoreStep(i, e) =>
      if e.op.Rotate? { RotationKeepsInv(env, net, i, e); } else { StoreStepKeepsInv(env, net, i, e); }
    case StoreSigns(i, m) => SigningKeepsInv(env, net, i, m);
    case RelayStep(op, k) => RelayMoved(env, net, op, k);
    case OutsiderSigns(key, payload) => OutsiderKeepsInv(env, net, key, payload);
  }

  /** Nets reachable in some number of steps from `net`. */
  ghost predicate Reaches(env: Env, net: Net, steps: seq<NetStep>, final: Net)
    decreases |steps|
  {
    if steps == [] then final == net
    else NetLegal(env, net, steps[0]) && Reaches(env, NetNext(env, net, steps[0]), steps[1..], final)
  }

  lemma {:induction false} NetRunKeepsInv(env: Env, net: Net, steps: seq<NetStep>, final: Net)
    requires NetInv(env, net) && Reaches(env, net, steps, final)
    ensures NetInv(env, final)
    decreases |steps|
  {
    if steps != [] {
      NetStepKeepsInv(env, net, steps[0]);
      NetRunKeepsInv(env, NetNext(env, net, steps[0]), steps[1..], final);
    }
  }

  // ---- Agreement ----

  /** What the store `w` did to earn receipt `r`: it spent a live pairing in time, wrote the relay's key as the
      peer, and answered a request with the challenge id, relay id, nonce, pairing and device of one the relay
      issued. The challenge's times are not among these: the peer's proof does not cover them. */
  ghost predicate Earned(env: Env, net: Net, w: World, c: Completion, r: Message)
    requires r.Receipt?
  {
    && c in w.hist.completions && c.win in w.hist.wins && Won(w.hist.ledger, c.win.pairingId)
    && r == ReceiptOf(c)
    && c.win.peer.key == env.relayKey
    && c.challenge.challengeId in net.relay.issued
    && var i := net.relay.issued[c.challenge.challengeId];
       && i.offer.deviceId == c.identity.deviceId && i.offer.deviceKey == Encode(c.identity.key)
       && i.request.pairingId == c.win.pairingId
       && i.request.challenge.relayId == c.challenge.relayId && i.request.challenge.nonce == c.challenge.nonce
  }

  /** The completion behind a receipt that verifies under a store's key. */
  lemma ReceiptCompletion(env: Env, relay: RelayWorld, signed: Signatures, w: World, id: Identity, r: Message)
    returns (c: Completion)
    requires StoreOk(env, relay, w, signed) && id in w.hist.identities
    requires ReceiptVerifies(env.did, r, signed) && DecodeKey(r.deviceKey) == Some(id.key)
    ensures c in w.hist.completions && r == ReceiptOf(c)
  {
    var p := Payload(r);
    assert DeviceSigns(w, id, signed);
    if OtherSigned(p) {
      var m: Message :| (m.ChallengeResponse? || m.SessionAuth?) && p == Payload(m);
      PayloadInjective(r, m);
    }
    var k :| 0 <= k < |w.hist.completions| && w.hist.completions[k].identity == id
        && p == Payload(ReceiptOf(w.hist.completions[k]));
    c := w.hist.completions[k];
    PayloadInjective(r, ReceiptOf(c));
  }

  /** A store whose completion the relay imported has earned that receipt. */
  lemma CompletionEarned(env: Env, net: Net, n: nat, w: World, c: Completion)
    requires NetInv(env, net) && n < |net.relay.imports| && StoreOk(env, net.relay, w, net.signed)
    requires c in w.hist.completions && net.relay.imports[n].receipt == ReceiptOf(c)
    ensures Earned(env, net, w, c, net.relay.imports[n].receipt)
  {
    var k :| 0 <= k < |w.hist.completions| && w.hist.completions[k] == c;
    assert CompletionOk(w, w.hist.completions[k]) && Solicited(env, net.relay, w.hist.completions[k]);
    assert ImportOk(net.relay, net.relay.imports[n]);
    DecodeKeyEncoded(c.win.peer.key);
    var j :| 0 <= j < |w.hist.wins| && w.hist.wins[j] == c.win;
    assert WinOk(w, w.hist.wins[j]);
  }

  lemma ReceiptEarned(env: Env, net: Net, n: nat, w: World, id: Identity) returns (c: Completion)
    requires NetInv(env, net) && n < |net.relay.imports|
    requires StoreOk(env, net.relay, w, net.signed) && id in w.hist.identities
    requires net.relay.imports[n].receipt.Receipt? && DecodeKey(net.relay.imports[n].receipt.deviceKey) == Some(id.key)
    ensures Earned(env, net, w, c, net.relay.imports[n].receipt)
  {
    c := ReceiptCompletion(env, net.relay, net.signed, w, id, net.relay.imports[n].receipt);
    CompletionEarned(env, net, n, w, c);
  }

  /** Agreement: every imported receipt answers a request that was pending for its device and key; and if the
      key is one of an honest store's, that store earned the receipt. */
  lemma ImportAgreement(env: Env, net0: Net, steps: seq<NetStep>, net: Net, n: nat)
    requires NetInv(env, net0) && Reaches(env, net0, steps, net) && n < |net.relay.imports|
    ensures ImportOk(net.relay, net.relay.imports[n])
    ensures var r := net.relay.imports[n].receipt;
            forall i, id | 0 <= i < |net.stores| && id in net.stores[i].hist.identities
                && DecodeKey(r.deviceKey) == Some(id.key) ::
              exists c :: Earned(env, net, net.stores[i], c, r)
  {
    NetRunKeepsInv(env, net0, steps, net);
    var r := net.relay.imports[n].receipt;
    assert ImportOk(net.relay, net.relay.imports[n]);
    forall i, id | 0 <= i < |net.stores| && id in net.stores[i].hist.identities
        && DecodeKey(r.deviceKey) == Some(id.key)
      ensures exists c :: Earned(env, net, net.stores[i], c, r)
    {
      var c := ReceiptEarned(env, net, n, net.stores[i], id);
    }
  }

  /** A receipt is earned once: by one store, with one completion. */
  lemma EarnedByOne(env: Env, net: Net, i: nat, j: nat, c: Completion, d: Completion, r: Message)
    requires NetInv(env, net) && i <= j < |net.stores| && r.Receipt?
    requires Earned(env, net, net.stores[i], c, r) && Earned(env, net, net.stores[j], d, r)
    ensures i == j && c == d
  {
    var v, w := net.stores[i], net.stores[j];
    assert StoreOk(env, net.relay, v, net.signed) && StoreOk(env, net.relay, w, net.signed);
    EncodeInjective(c.identity.key, d.identity.key);
    var a :| 0 <= a < |v.hist.completions| && v.hist.completions[a] == c;
    var b :| 0 <= b < |w.hist.completions| && w.hist.completions[b] == d;
    assert CompletionOk(v, v.hist.completions[a]) && CompletionOk(w, w.hist.completions[b]);
    KeyInOneStore(env, net, i, j, c.identity, d.identity);
    assert c.win.pairingId == d.win.pairingId;
  }

  lemma KeyInOneStore(env: Env, net: Net, i: nat, j: nat, a: Identity, b: Identity)
    requires NetInv(env, net) && i <= j < |net.stores| && a.key == b.key
    requires a in net.stores[i].hist.identities && b in net.stores[j].hist.identities
    ensures i == j
  {
    var m :| 0 <= m < |net.stores[i].hist.identities| && net.stores[i].hist.identities[m] == a;
    var n :| 0 <= n < |net.stores[j].hist.identities| && net.stores[j].hist.identities[n] == b;
    assert i < j ==> DisjointKeys(net.stores[i], net.stores[j]);
  }

  /** Injectivity: imports that no crash interrupted have distinct challenges, so no completion answers two. */
  lemma ImportsAreInjective(env: Env, net0: Net, steps: seq<NetStep>, net: Net, m: nat, n: nat,
                            v: World, c: Completion, w: World, d: Completion)
    requires NetInv(env, net0) && Reaches(env, net0, steps, net)
    requires m < n < |net.relay.imports| && net.relay.imports[m].complete
    requires net.relay.imports[m].receipt.Receipt? && net.relay.imports[n].receipt.Receipt?
    requires Earned(env, net, v, c, net.relay.imports[m].receipt)
    requires Earned(env, net, w, d, net.relay.imports[n].receipt)
    ensures c.challenge.challengeId != d.challenge.challengeId && c != d
  {
    NetRunKeepsInv(env, net0, steps, net);
  }

  /** The other direction: every completion under the relay's key answers a request the relay issued, for this
      very device, with the same pairing, peer name, relay id and nonce. */
  lemma CompletionAgreement(env: Env, net0: Net, steps: seq<NetStep>, net: Net, i: nat, m: nat)
    requires NetInv(env, net0) && Reaches(env, net0, steps, net)
    requires i < |net.stores| && m < |net.stores[i].hist.completions|
    requires net.stores[i].hist.completions[m].win.peer.key == env.relayKey
    ensures var c := net.stores[i].hist.completions[m];
            && c.challenge.challengeId in net.relay.issued
            && var issue := net.relay.issued[c.challenge.challengeId];
               && issue.request.pairingId == c.win.pairingId && issue.request.peerId == c.win.peer.peerId
               && issue.request.challenge.relayId == c.challenge.relayId
               && issue.request.challenge.nonce == c.challenge.nonce
               && issue.request.challenge.audience == issue.offer.deviceId == c.identity.deviceId
               && DecodeKey(issue.request.peerKey) == Some(env.relayKey)
  {
    NetRunKeepsInv(env, net0, steps, net);
    var c := net.stores[i].hist.completions[m];
    assert StoreOk(env, net.relay, net.stores[i], net.signed);
    assert Solicited(env, net.relay, c);
    assert IssueOk(env.did, net.relay, c.challenge.challengeId);
  }

  /** And no request is completed twice by one store. */
  lemma CompletionsAreDistinct(env: Env, net0: Net, steps: seq<NetStep>, net: Net, i: nat, m: nat, n: nat)
    requires NetInv(env, net0) && Reaches(env, net0, steps, net)
    requires i < |net.stores| && m < n < |net.stores[i].hist.completions|
    requires net.stores[i].hist.completions[m].win.peer.key == env.relayKey
    requires net.stores[i].hist.completions[n].win.peer.key == env.relayKey
    ensures var cs := net.stores[i].hist.completions; cs[m].challenge.challengeId != cs[n].challenge.challengeId
  {
    NetRunKeepsInv(env, net0, steps, net);
    var w := net.stores[i];
    assert StoreOk(env, net.relay, w, net.signed);
    assert Solicited(env, net.relay, w.hist.completions[m]) && Solicited(env, net.relay, w.hist.completions[n]);
  }

  /** Where runs start: an initialized relay, new stores with distinct keys, nothing signed. */
  lemma InitialNet(env: Env, relayId: string, peerId: string, peerKey: string, listenPort: int, ids: seq<Identity>,
                   now: int, net: Net)
    requires Text.IsName(relayId) && Text.IsName(peerId) && 1 <= listenPort <= 65535
    requires |env.relayKey| == 32 && DecodeKey(peerKey) == Some(env.relayKey)
    requires forall i | 0 <= i < |ids| ::
             |ids[i].key| == 32 && ids[i].deviceId == env.did(ids[i].key) && ids[i].key != env.relayKey
    requires forall i, j | 0 <= i < j < |ids| :: ids[i].key != ids[j].key
    requires net.relay == InitialRelay(relayId, peerId, peerKey, listenPort) && net.signed == {}
    requires |net.stores| == |ids| && forall i | 0 <= i < |ids| :: net.stores[i] == Initial(ids[i], now)
    ensures NetInv(env, net)
  {
    forall i | 0 <= i < |net.stores| ensures StoreOk(env, net.relay, net.stores[i], net.signed) {
      InitialInv(ids[i], now);
      assert net.stores[i].hist.identities == [ids[i]];
    }
    forall i, j | 0 <= i < j < |net.stores| ensures DisjointKeys(net.stores[i], net.stores[j]) {
      assert net.stores[i] == Initial(ids[i], now) && net.stores[j] == Initial(ids[j], now);
    }
  }
}
