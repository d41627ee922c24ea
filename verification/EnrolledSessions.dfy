/**
 Enrollment and sessions together: a receiver whose table of devices was loaded from the configuration the relay
 manager keeps. Whatever such a receiver publishes goes back to an imported enrollment and to a signed session.
 */
module EnrolledSessions {
  import opened Prelude
  import opened Messages
  import opened Enrollment
  import opened EnrollmentHistory
  import opened RelayConfig
  import opened RelayRuns
  import opened Sessions
  import Protocol
  import ProtocolRuns
  import Receiver
  import ReceiverRuns

  /** The receiver was started on the configuration on disk in `net`; later changes reach it at its next start. */
  ghost predicate Serves(env: Protocol.Env, net: Protocol.Net, renv: Receiver.Env)
  {
    && renv.did == env.did && renv.relayId == net.relay.disk.config.relayId
    && renv.devices == TableOf(net.relay.disk.config.devices)
  }

  lemma ListedDevice(did: DeviceIdOf, ds: seq<Device>, deviceId: string) returns (d: Device)
    requires DevicesOk(did, ds) && deviceId in TableOf(ds)
    ensures d in ds && d.deviceId == deviceId && TableOf(ds)[deviceId] == d.publicKey && DeviceOk(did, d)
  {
    TableKeys(ds, deviceId);
    var i :| 0 <= i < |ds| && ds[i].deviceId == deviceId;
    TableEntry(ds, i);
    d := ds[i];
  }

  /** An entry of the receiver's table came from a receipt the relay imported. */
  lemma EntryWasImported(env: Protocol.Env, net: Protocol.Net, renv: Receiver.Env, deviceId: string) returns (n: nat)
    requires RelayInv(env.did, net.relay) && Serves(env, net, renv) && deviceId in renv.devices
    ensures n < |net.relay.imports| && ImportOk(net.relay, net.relay.imports[n])
    ensures net.relay.imports[n].receipt.deviceId == deviceId
    ensures net.relay.imports[n].receipt.deviceKey == renv.devices[deviceId]
  {
    var d := ListedDevice(env.did, net.relay.disk.config.devices, deviceId);
    assert FromReceipt(net.relay, d);
    n :| 0 <= n < |net.relay.imports| && net.relay.imports[n].receipt.Receipt?
      && d == Device(net.relay.imports[n].receipt.deviceId, net.relay.imports[n].receipt.deviceKey);
    assert ImportOk(net.relay, net.relay.imports[n]);
  }

  /** What lies behind a publication: the relay imported a receipt for the device's key, in answer to a request it had
      issued and still had pending; and the device's hello was answered with a challenge that this key signed. */
  ghost predicate Traced(net: Protocol.Net, renv: Receiver.Env, w: Receiver.World, p: Receiver.Publication, n: nat)
  {
    && n < |net.relay.imports| && ImportOk(net.relay, net.relay.imports[n])
    && net.relay.imports[n].receipt.deviceId == p.record.deviceId
    && p.record.deviceId in renv.devices && net.relay.imports[n].receipt.deviceKey == renv.devices[p.record.deviceId]
    && p.handler in w.challenges && w.challenges[p.handler] == p.challenge && ReceiverRuns.Greeted(w, p.handler)
    && p.challenge.audience == p.record.deviceId && ReceiverRuns.Proven(renv, w.signed, p.challenge, p.proof)
  }

  lemma PublicationTraced(env: Protocol.Env, net0: Protocol.Net, steps: seq<Protocol.NetStep>, net: Protocol.Net,
                          renv: Receiver.Env, events: seq<Receiver.Event>, w: Receiver.World, i: nat)
    returns (n: nat)
    requires Protocol.NetInv(env, net0) && ProtocolRuns.Reaches(env, net0, steps, net) && Serves(env, net, renv)
    requires Receiver.Reaches(renv, Receiver.NEW_WORLD, events, w) && i < |w.publications|
    ensures Traced(net, renv, w, w.publications[i], n)
  {
    ProtocolRuns.NetRunKeepsInv(env, net0, steps, net);
    ReceiverRuns.SessionAgreement(renv, events, w, i);
    n := EntryWasImported(env, net, renv, w.publications[i].record.deviceId);
  }

  /** And if the key is an honest store's: that store earned the imported receipt, by a completion that spent one of
      its live pairings, and signed the session knowingly, as itself and while the challenge was valid. */
  ghost predicate Consented(env: Protocol.Env, net: Protocol.Net, renv: Receiver.Env, w: Receiver.World,
                            p: Receiver.Publication, n: nat, store: World, id: Identity, c: Completion)
  {
    && n < |net.relay.imports| && net.relay.imports[n].receipt.Receipt?
    && Protocol.StoreKey(store, id.key) && c.identity.key == id.key && c.identity.deviceId == p.record.deviceId
    && ProtocolRuns.Earned(env, net, store, c, net.relay.imports[n].receipt)
    && (id.key, p.proof) in w.log && p.proof.SessionAuth?
    && ValidSession(p.challenge, p.record.deviceId, renv.relayId, p.proof.signedAt)
  }

  lemma HonestPublication(env: Protocol.Env, net0: Protocol.Net, steps: seq<Protocol.NetStep>, net: Protocol.Net,
                          renv: Receiver.Env, events: seq<Receiver.Event>, w: Receiver.World, i: nat, j: nat,
                          id: Identity)
    returns (n: nat, c: Completion)
    requires Protocol.NetInv(env, net0) && ProtocolRuns.Reaches(env, net0, steps, net) && Serves(env, net, renv)
    requires Receiver.Reaches(renv, Receiver.NEW_WORLD, events, w) && i < |w.publications|
    requires j < |net.stores| && id in net.stores[j].hist.identities && id.key in renv.honest
    requires var p := w.publications[i];
             p.record.deviceId in renv.devices && DecodeKey(renv.devices[p.record.deviceId]) == Some(id.key)
    ensures Traced(net, renv, w, w.publications[i], n)
    ensures Consented(env, net, renv, w, w.publications[i], n, net.stores[j], id, c)
  {
    n := PublicationTraced(env, net0, steps, net, renv, events, w, i);
    ProtocolRuns.NetRunKeepsInv(env, net0, steps, net);
    c := ProtocolRuns.ReceiptEarned(env, net, n, net.stores[j], id);
    ReceiverRuns.SessionAgreement(renv, events, w, i);
    EarnedUnder(env, net, net.stores[j], id, c, net.relay.imports[n].receipt);
  }

  lemma EarnedUnder(env: Protocol.Env, net: Protocol.Net, store: World, id: Identity, c: Completion, r: Message)
    requires r.Receipt? && Protocol.StoreOk(env, net.relay, store, net.signed) && id in store.hist.identities
    requires ProtocolRuns.Earned(env, net, store, c, r) && DecodeKey(r.deviceKey) == Some(id.key)
    ensures Protocol.StoreKey(store, id.key) && c.identity.key == id.key && c.identity.deviceId == r.deviceId
  {
    var k :| 0 <= k < |store.hist.completions| && store.hist.completions[k] == c;
    assert CompletionOk(store, store.hist.completions[k]);
    DecodeKeyEncoded(c.identity.key);
    var m :| 0 <= m < |store.hist.identities| && store.hist.identities[m] == id;
    assert store.hist.identities[m].key == id.key;
  }
}
