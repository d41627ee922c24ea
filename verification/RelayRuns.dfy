/**
 Whole runs of the relay's configuration manager, with a crash possible between any two writes: what
 holds of the two files at every moment, and why a receipt can be imported again after a crash.
 */
module RelayRuns {
  import opened Prelude
  import opened Text
  import opened Sorting
  import opened Messages
  import opened Enrollment
  import opened RelayConfig

  /** A request that left the relay, and the offer it answers. */
  datatype Issue = Issue(request: Request, offer: Offer)

  /** An import that reached the disk: what was pending for its challenge when it was made, and whether it is
      complete, that is, not cut short by a crash. */
  datatype Imported = Imported(receipt: Message, pending: Option<Pending>, complete: bool)

  datatype RelayWorld = RelayWorld(disk: Disk, issued: map<string, Issue>, imports: seq<Imported>)

  datatype RelayOp =
    | RequestOp(offer: Offer, outputFree: bool, challengeId: string, nonce: string, now: int)
    | ImportOp(receipt: Message, signed: Signatures)
    | EnableOp(enabled: bool, confirmed: bool)
    | RemoveOp(deviceId: string, confirm: bool)

  /** The files after the first `k` writes. */
  function DiskAfter(d: Disk, writes: seq<Disk>, k: nat): Disk
    requires k <= |writes|
  {
    if k == 0 then d else writes[k - 1]
  }

  function WritesOf(did: DeviceIdOf, d: Disk, op: RelayOp): seq<Disk>
  {
    match op
    case RequestOp(offer, outputFree, challengeId, nonce, now) =>
      CreateRequest(did, d, offer, outputFree, challengeId, nonce, now).writes
    case ImportOp(receipt, signed) => Import(did, d, receipt, signed).writes
    case EnableOp(enabled, confirmed) => SetEnabled(did, d, enabled, confirmed).writes
    case RemoveOp(deviceId, confirm) => RemoveDevice(did, d, deviceId, confirm).writes
  }

  /** Challenge ids are drawn fresh; a crash keeps some prefix of the writes. */
  ghost predicate RelayLegal(did: DeviceIdOf, w: RelayWorld, op: RelayOp, k: nat)
  {
    && k <= |WritesOf(did, w.disk, op)|
    && (op.RequestOp? ==> op.challengeId !in w.issued)
  }

  function PendingFor(d: Disk, r: Message): Option<Pending>
  {
    if r.Receipt? && r.challengeId in d.state.pending then Some(d.state.pending[r.challengeId]) else None
  }

  /** One operation, of whose writes the first `k` reach the disk. The request file precedes every write. */
  function RelayNext(did: DeviceIdOf, w: RelayWorld, op: RelayOp, k: nat): RelayWorld
    requires k <= |WritesOf(did, w.disk, op)|
  {
    var writes := WritesOf(did, w.disk, op);
    var disk := DiskAfter(w.disk, writes, k);
    match op
    case RequestOp(offer, outputFree, challengeId, nonce, now) =>
      var r := CreateRequest(did, w.disk, offer, outputFree, challengeId, nonce, now);
      if r.result.Err? then w
      else RelayWorld(disk, w.issued[challengeId := Issue(r.result.value, offer)], w.imports)
    case ImportOp(receipt, signed) =>
      if k == 0 then w
      else RelayWorld(disk, w.issued, w.imports + [Imported(receipt, PendingFor(w.disk, receipt), k == |writes|)])
    case _ => w.(disk := disk)
  }

  // ---- Invariants ----

  ghost predicate FromReceipt(w: RelayWorld, d: Device)
  {
    exists i :: 0 <= i < |w.imports| && w.imports[i].receipt.Receipt?
      && d == Device(w.imports[i].receipt.deviceId, w.imports[i].receipt.deviceKey)
  }

  /** The allowlist is acceptable to the receiver, strictly sorted, and made of imported receipts. */
  ghost predicate AllowlistInv(did: DeviceIdOf, w: RelayWorld)
  {
    && Loads(did, w.disk)
    && AscendingBy(IdOf, w.disk.config.devices)
    && forall d | d in w.disk.config.devices :: FromReceipt(w, d)
  }

  ghost predicate IssueOk(did: DeviceIdOf, w: RelayWorld, challengeId: string)
  {
    challengeId in w.issued &&
    var i := w.issued[challengeId];
    && i.request.challenge.challengeId == challengeId
    && i.request.challenge.relayId == w.disk.state.relayId
    && i.request.challenge.audience == i.offer.deviceId
    && i.request.pairingId == i.offer.pairingId
    && i.request.peerId == w.disk.state.peerId
    && i.request.peerKey == w.disk.state.peerKey
    && DeviceOk(did, Device(i.offer.deviceId, i.offer.deviceKey))
  }

  ghost predicate PendingOk(w: RelayWorld, challengeId: string)
  {
    challengeId in w.disk.state.pending && challengeId in w.issued &&
    w.disk.state.pending[challengeId] == Awaited(w.issued[challengeId])
  }

  /** What the relay records as pending when it issues a request. */
  function Awaited(i: Issue): Pending
  {
    Pending(i.offer.deviceId, i.offer.deviceKey, i.request.challenge.expires)
  }

  /** The receipt answers a request the relay issued, which was still pending when it was imported, for exactly
      the receipt's device and key. */
  ghost predicate ImportOk(w: RelayWorld, e: Imported)
  {
    && e.receipt.Receipt?
    && e.receipt.challengeId in w.issued
    && e.pending == Some(Awaited(w.issued[e.receipt.challengeId]))
    && e.pending.value.deviceId == e.receipt.deviceId && e.pending.value.deviceKey == e.receipt.deviceKey
    && e.receipt.relayId == w.disk.state.relayId
    && e.receipt.peerId == w.disk.state.peerId
    && e.receipt.peerKey == w.disk.state.peerKey
    && (e.complete ==> e.receipt.challengeId !in w.disk.state.pending)
  }

  ghost predicate PendingInv(did: DeviceIdOf, w: RelayWorld)
  {
    && (forall c | c in w.issued :: IssueOk(did, w, c))
    && (forall c | c in w.disk.state.pending :: PendingOk(w, c))
    && (forall i | 0 <= i < |w.imports| :: ImportOk(w, w.imports[i]))
    && (forall i, j | 0 <= i < j < |w.imports| && w.imports[i].complete ::
          w.imports[i].receipt.challengeId != w.imports[j].receipt.challengeId)
  }

  ghost predicate RelayInv(did: DeviceIdOf, w: RelayWorld)
  {
    AllowlistInv(did, w) && PendingInv(did, w)
  }

  // ---- Steps ----

  lemma EnrollSorted(c: Config, device: Device)
    requires AscendingBy(IdOf, c.devices) && !HasDevice(c.devices, device.deviceId)
    ensures AscendingBy(IdOf, Enroll(c, device).devices)
    ensures forall d :: d in Enroll(c, device).devices <==> d in c.devices || d == device
  {
    var all := c.devices + [device];
    AscendingDistinct(IdOf, c.devices);
    assert DistinctBy(IdOf, all) by {
      forall i, j | 0 <= i < j < |all| ensures IdOf(all[i]) != IdOf(all[j]) {
        if j < |c.devices| { assert IdOf(c.devices[i]) != IdOf(c.devices[j]); }
      }
    }
    SortAscending(IdOf, all);
    SortMembers(IdOf, all);
  }

  lemma {:induction false} RetainedSorted(ds: seq<Device>, deviceId: string)
    requires AscendingBy(IdOf, ds)
    ensures AscendingBy(IdOf, Retained(ds, deviceId))
    ensures forall d :: d in Retained(ds, deviceId) <==> d in ds && d.deviceId != deviceId
  {
    if ds != [] {
      RetainedSorted(ds[1..], deviceId);
      var r := Retained(ds[1..], deviceId);
      forall j | 0 <= j < |r| ensures Below(IdOf(ds[0]), IdOf(r[j])) {
        assert r[j] in ds[1..];
        var i :| 0 <= i < |ds[1..]| && ds[1..][i] == r[j];
        assert r[j] == ds[i + 1];
      }
      forall d ensures d in Retained(ds, deviceId) <==> d in ds && d.deviceId != deviceId {
        assert d in ds <==> d == ds[0] || d in ds[1..];
      }
    }
  }

  lemma FromReceiptGrows(w: RelayWorld, w': RelayWorld)
    requires |w.imports| <= |w'.imports| && w'.imports[..|w.imports|] == w.imports
    requires forall d | d in w.disk.config.devices :: FromReceipt(w, d)
    ensures forall d | d in w.disk.config.devices :: FromReceipt(w', d)
  {
    forall d | d in w.disk.config.devices ensures FromReceipt(w', d) {
      assert FromReceipt(w, d);
      var i :| 0 <= i < |w.imports| && w.imports[i].receipt.Receipt?
        && d == Device(w.imports[i].receipt.deviceId, w.imports[i].receipt.deviceKey);
      assert w'.imports[..|w.imports|][i] == w'.imports[i];
    }
  }

  /** An import writes the longer allowlist, if the device is new, and then spends the challenge. */
  lemma ImportWrites(did: DeviceIdOf, d: Disk, r: Message, signed: Signatures)
    requires Import(did, d, r, signed).writes != []
    ensures r.Receipt? && Loads(did, d) && Addressed(d, r) && MatchesPending(d, r) && ReceiptVerifies(did, r, signed)
    ensures var device := Device(r.deviceId, r.deviceKey);
            var saved := if device in d.config.devices then d else d.(config := Enroll(d.config, device));
            && (device !in d.config.devices ==> !HasDevice(d.config.devices, r.deviceId))
            && Loads(did, saved) && Import(did, d, r, signed).result == Ok(device in d.config.devices)
            && Import(did, d, r, signed).writes
               == (if device in d.config.devices then [] else [saved]) + [Settle(saved, r.challengeId)]
  {
  }

  /** Every disk state of an import is loadable, and its allowlist is the old one or one device longer. */
  lemma ImportedConfig(did: DeviceIdOf, d: Disk, r: Message, signed: Signatures, k: nat)
    requires Loads(did, d) && 0 < k <= |Import(did, d, r, signed).writes|
    ensures var d' := DiskAfter(d, Import(did, d, r, signed).writes, k);
            && r.Receipt? && Loads(did, d')
            && var device := Device(r.deviceId, r.deviceKey);
               if device in d.config.devices then d'.config == d.config
               else !HasDevice(d.config.devices, r.deviceId) && d'.config == Enroll(d.config, device)
  {
    ImportWrites(did, d, r, signed);
  }

  lemma ImportKeepsAllowlist(did: DeviceIdOf, w: RelayWorld, op: RelayOp, k: nat)
    requires AllowlistInv(did, w) && RelayLegal(did, w, op, k) && op.ImportOp? && k > 0
    ensures AllowlistInv(did, RelayNext(did, w, op, k))
  {
    var w' := RelayNext(did, w, op, k);
    var device := Device(op.receipt.deviceId, op.receipt.deviceKey);
    ImportedConfig(did, w.disk, op.receipt, op.signed, k);
    FromReceiptGrows(w, w');
    assert w'.imports[|w.imports|].receipt == op.receipt;
    assert FromReceipt(w', device);
    if device !in w.disk.config.devices {
      EnrollSorted(w.disk.config, device);
    }
  }

  lemma RemovalKeepsAllowlist(did: DeviceIdOf, w: RelayWorld, op: RelayOp, k: nat)
    requires AllowlistInv(did, w) && RelayLegal(did, w, op, k) && op.RemoveOp?
    ensures AllowlistInv(did, RelayNext(did, w, op, k))
  {
    FromReceiptGrows(w, RelayNext(did, w, op, k));
    RetainedSorted(w.disk.config.devices, op.deviceId);
  }

  lemma StepKeepsAllowlist(did: DeviceIdOf, w: RelayWorld, op: RelayOp, k: nat)
    requires AllowlistInv(did, w) && RelayLegal(did, w, op, k)
    ensures AllowlistInv(did, RelayNext(did, w, op, k))
  {
    if op.ImportOp? && k > 0 {
      ImportKeepsAllowlist(did, w, op, k);
    } else if op.RemoveOp? {
      RemovalKeepsAllowlist(did, w, op, k);
    } else {
      FromReceiptGrows(w, RelayNext(did, w, op, k));
    }
  }

  /** The relay's own identity is untouched and no pending challenge is added or altered. */
  ghost predicate Settles(s: RelayState, s': RelayState)
  {
    && s'.relayId == s.relayId && s'.peerId == s.peerId && s'.peerKey == s.peerKey
    && s'.pending.Keys <= s.pending.Keys && forall c | c in s'.pending :: s'.pending[c] == s.pending[c]
  }

  lemma ImportSettles(did: DeviceIdOf, d: Disk, r: Message, signed: Signatures, k: nat)
    requires 0 < k <= |Import(did, d, r, signed).writes|
    ensures var writes := Import(did, d, r, signed).writes;
            && Settles(d.state, DiskAfter(d, writes, k).state)
            && (k == |writes| ==> r.Receipt? && r.challengeId !in DiskAfter(d, writes, k).state.pending)
            && r.Receipt? && Addressed(d, r) && MatchesPending(d, r)
  {
  }

  lemma OtherSettles(did: DeviceIdOf, d: Disk, op: RelayOp, k: nat)
    requires (op.EnableOp? || op.RemoveOp?) && k <= |WritesOf(did, d, op)|
    ensures DiskAfter(d, WritesOf(did, d, op), k).state == d.state
  {
  }

  lemma RequestKeepsPending(did: DeviceIdOf, w: RelayWorld, op: RelayOp, k: nat)
    requires RelayInv(did, w) && RelayLegal(did, w, op, k) && op.RequestOp?
    ensures PendingInv(did, RelayNext(did, w, op, k))
  {
    var w' := RelayNext(did, w, op, k);
    forall c | c in w'.issued ensures IssueOk(did, w', c) {
      if c != op.challengeId { assert IssueOk(did, w, c); }
    }
    forall c | c in w'.disk.state.pending ensures PendingOk(w', c) {
      if c in w.disk.state.pending { assert PendingOk(w, c); }
    }
    forall i | 0 <= i < |w'.imports| ensures ImportOk(w', w'.imports[i]) {
      assert ImportOk(w, w.imports[i]);
    }
  }

  lemma OtherKeepsPending(did: DeviceIdOf, w: RelayWorld, w': RelayWorld)
    requires PendingInv(did, w) && w'.issued == w.issued && w'.imports == w.imports
    requires Settles(w.disk.state, w'.disk.state)
    ensures PendingInv(did, w')
  {
    forall c | c in w'.issued ensures IssueOk(did, w', c) { assert IssueOk(did, w, c); }
    forall c | c in w'.disk.state.pending ensures PendingOk(w', c) { assert PendingOk(w, c); }
    forall i | 0 <= i < |w'.imports| ensures ImportOk(w', w'.imports[i]) { assert ImportOk(w, w.imports[i]); }
  }

  lemma ImportAdded(did: DeviceIdOf, w: RelayWorld, w': RelayWorld, e: Imported)
    requires PendingInv(did, w) && w'.issued == w.issued && w'.imports == w.imports + [e]
    requires Settles(w.disk.state, w'.disk.state)
    requires e.receipt.Receipt? && Addressed(w.disk, e.receipt) && MatchesPending(w.disk, e.receipt)
    requires e.pending == PendingFor(w.disk, e.receipt)
    requires e.complete ==> e.receipt.challengeId !in w'.disk.state.pending
    ensures PendingInv(did, w')
  {
    var before, n := w'.(imports := w.imports), |w.imports|;
    OtherKeepsPending(did, w, before);
    assert PendingOk(w, e.receipt.challengeId);
    forall i | 0 <= i < |w'.imports| ensures ImportOk(w', w'.imports[i]) {
      if i < n { assert ImportOk(before, w.imports[i]); }
    }
    forall i, j | 0 <= i < j < |w'.imports| && w'.imports[i].complete
      ensures w'.imports[i].receipt.challengeId != w'.imports[j].receipt.challengeId
    {
      assert ImportOk(w, w.imports[i]);
    }
    forall c | c in w'.issued ensures IssueOk(did, w', c) { assert IssueOk(did, before, c); }
    forall c | c in w'.disk.state.pending ensures PendingOk(w', c) { assert PendingOk(before, c); }
  }

  lemma RelayStepKeepsInv(did: DeviceIdOf, w: RelayWorld, op: RelayOp, k: nat)
    requires RelayInv(did, w) && RelayLegal(did, w, op, k)
    ensures RelayInv(did, RelayNext(did, w, op, k))
  {
    var w' := RelayNext(did, w, op, k);
    StepKeepsAllowlist(did, w, op, k);
    match op
    case RequestOp(_, _, _, _, _) => RequestKeepsPending(did, w, op, k);
    case ImportOp(r, signed) =>
      if k > 0 {
        ImportSettles(did, w.disk, r, signed, k);
        ImportAdded(did, w, w', Imported(r, PendingFor(w.disk, r), k == |Import(did, w.disk, r, signed).writes|));
      }
    case _ =>
      OtherSettles(did, w.disk, op, k);
      OtherKeepsPending(did, w, w');
  }

  /** A run: each operation with the number of its writes that reach the disk. */
  function RelayRun(did: DeviceIdOf, w: RelayWorld, ops: seq<(RelayOp, nat)>): RelayWorld
    decreases |ops|
  {
    if ops == [] || ops[0].1 > |WritesOf(did, w.disk, ops[0].0)| then w
    else RelayRun(did, RelayNext(did, w, ops[0].0, ops[0].1), ops[1..])
  }

  ghost predicate RelayLegalRun(did: DeviceIdOf, w: RelayWorld, ops: seq<(RelayOp, nat)>)
    decreases |ops|
  {
    ops == [] || (RelayLegal(did, w, ops[0].0, ops[0].1)
                  && RelayLegalRun(did, RelayNext(did, w, ops[0].0, ops[0].1), ops[1..]))
  }

  lemma {:induction false} RelayRunKeepsInv(did: DeviceIdOf, w: RelayWorld, ops: seq<(RelayOp, nat)>)
    requires RelayInv(did, w) && RelayLegalRun(did, w, ops)
    ensures RelayInv(did, RelayRun(did, w, ops))
    decreases |ops|
  {
    if ops != [] {
      RelayStepKeepsInv(did, w, ops[0].0, ops[0].1);
      RelayRunKeepsInv(did, RelayNext(did, w, ops[0].0, ops[0].1), ops[1..]);
    }
  }

  function InitialRelay(relayId: string, peerId: string, peerKey: string, listenPort: int): RelayWorld
  {
    RelayWorld(Initialized(relayId, peerId, peerKey, listenPort), map[], [])
  }

  /** At every moment of every run from initialization, crashes and failed calls included, the
      configuration on disk passes the receiver's loader and names the state file's relay, is strictly sorted by
      device id, lists no device that did not come from an imported receipt, and enables the receiver only with
      devices. */
  lemma AllowlistHolds(did: DeviceIdOf, relayId: string, peerId: string, peerKey: string, listenPort: int,
                       ops: seq<(RelayOp, nat)>)
    requires IsName(relayId) && IsName(peerId) && DecodeKey(peerKey).Some? && 1 <= listenPort <= 65535
    requires RelayLegalRun(did, InitialRelay(relayId, peerId, peerKey, listenPort), ops)
    ensures var w := RelayRun(did, InitialRelay(relayId, peerId, peerKey, listenPort), ops);
            && Loads(did, w.disk)
            && AscendingBy(IdOf, w.disk.config.devices)
            && forall d | d in w.disk.config.devices :: FromReceipt(w, d)
  {
    var w0 := InitialRelay(relayId, peerId, peerKey, listenPort);
    assert RelayInv(did, w0);
    RelayRunKeepsInv(did, w0, ops);
  }

  // ---- Crash safety of an import ----

  /** The two files after an uninterrupted import. */
  function Imports(d: Disk, r: Message): Disk
    requires r.Receipt?
  {
    var device := Device(r.deviceId, r.deviceKey);
    Settle(if device in d.config.devices then d else d.(config := Enroll(d.config, device)), r.challengeId)
  }

  /** Before the last write the challenge is pending and what is on file is the old allowlist or the final one. */
  lemma CutImport(did: DeviceIdOf, d: Disk, r: Message, signed: Signatures, k: nat)
    requires Import(did, d, r, signed).writes != [] && k < |Import(did, d, r, signed).writes|
    ensures r.Receipt?
    ensures var mid := DiskAfter(d, Import(did, d, r, signed).writes, k);
            && mid.state == d.state && Loads(did, mid)
            && (mid == d || mid.config == Imports(d, r).config)
  {
    ImportWrites(did, d, r, signed);
  }

  lemma EnrolledInFinal(did: DeviceIdOf, d: Disk, r: Message, signed: Signatures)
    requires AscendingBy(IdOf, d.config.devices) && Import(did, d, r, signed).writes != []
    ensures r.Receipt? && Device(r.deviceId, r.deviceKey) in Imports(d, r).config.devices
    ensures r.challengeId !in Imports(d, r).state.pending
  {
    ImportWrites(did, d, r, signed);
    if Device(r.deviceId, r.deviceKey) !in d.config.devices {
      EnrollSorted(d.config, Device(r.deviceId, r.deviceKey));
    }
  }

  /** Importing again before the last write ends in the same files. */
  lemma RepeatedImport(did: DeviceIdOf, d: Disk, r: Message, signed: Signatures, k: nat)
    requires AscendingBy(IdOf, d.config.devices)
    requires Import(did, d, r, signed).writes != [] && k < |Import(did, d, r, signed).writes|
    ensures r.Receipt?
    ensures var again := Import(did, DiskAfter(d, Import(did, d, r, signed).writes, k), r, signed);
            && again.result.Ok? && again.writes != [] && again.writes[|again.writes| - 1] == Imports(d, r)
  {
    ImportWrites(did, d, r, signed);
    CutImport(did, d, r, signed, k);
    EnrolledInFinal(did, d, r, signed);
    var mid := DiskAfter(d, Import(did, d, r, signed).writes, k);
    if mid != d {
      assert Import(did, mid, r, signed) == Effect([Settle(mid, r.challengeId)], Ok(true));
    }
  }

  lemma SettledImport(did: DeviceIdOf, d: Disk, r: Message, signed: Signatures)
    requires AscendingBy(IdOf, d.config.devices) && Import(did, d, r, signed).writes != []
    ensures r.Receipt? && Import(did, Imports(d, r), r, signed) == Effect([], Err(NotPending))
  {
    ImportWrites(did, d, r, signed);
    EnrolledInFinal(did, d, r, signed);
    assert Loads(did, Imports(d, r));
  }

  /** Cut an accepted import after any number of its writes and import the same receipt again. Either the
      second import ends in the very files the uninterrupted one would have left, or it is refused because
      those files are already in place. At no cut is the challenge spent without the device enrolled. */
  lemma ImportIsCrashSafe(did: DeviceIdOf, d: Disk, r: Message, signed: Signatures, k: nat)
    requires AscendingBy(IdOf, d.config.devices)
    requires Import(did, d, r, signed).result.Ok? && k <= |Import(did, d, r, signed).writes|
    ensures var writes := Import(did, d, r, signed).writes;
            var mid, final := DiskAfter(d, writes, k), DiskAfter(d, writes, |writes|);
            var again := Import(did, mid, r, signed);
            && writes != []
            && (if k < |writes|
                then again.result.Ok? && DiskAfter(mid, again.writes, |again.writes|) == final
                else again == Effect([], Err(NotPending)) && mid == final)
            && (r.challengeId !in mid.state.pending ==> Device(r.deviceId, r.deviceKey) in mid.config.devices)
            && Device(r.deviceId, r.deviceKey) in final.config.devices && r.challengeId !in final.state.pending
  {
    var writes := Import(did, d, r, signed).writes;
    AcceptedWrites(did, d, r, signed);
    EnrolledInFinal(did, d, r, signed);
    if k < |writes| {
      RepeatedImport(did, d, r, signed, k);
      CutImport(did, d, r, signed, k);
    } else {
      SettledImport(did, d, r, signed);
    }
  }

  lemma AcceptedWrites(did: DeviceIdOf, d: Disk, r: Message, signed: Signatures)
    requires Import(did, d, r, signed).result.Ok?
    ensures var writes := Import(did, d, r, signed).writes;
            writes != [] && r.Receipt? && writes[|writes| - 1] == Imports(d, r) && MatchesPending(d, r)
  {
    ImportWrites(did, d, r, signed);
  }
}
