/**
 The relay side of enrollment: a receiver configuration and an enrollment state, each a file replaced
 atomically. An operation is described by the contents the two files take, one write after the other.
 `did` stands for the device id derived from a key by hashing.
 */
module RelayConfig {
  import opened Prelude
  import opened Text
  import opened Sorting
  import opened Base64
  import opened Messages
  import opened Enrollment

  type DeviceIdOf = Bytes -> string

  datatype Device = Device(deviceId: string, publicKey: string)
  datatype Config = Config(enabled: bool, relayId: string, listenPort: int, devices: seq<Device>)
  datatype Pending = Pending(deviceId: string, deviceKey: string, expires: int)
  datatype RelayState = RelayState(relayId: string, peerId: string, peerKey: string, pending: map<string, Pending>)
  datatype Disk = Disk(config: Config, state: RelayState)

  datatype Offer = Offer(pairingId: string, deviceId: string, deviceKey: string, code: string, expires: int)

  datatype ConfigError =
    | Unreadable | InvalidOffer | OfferExpired | OutputExists | InvalidReceipt | WrongRelay | NotPending
    | KeyConflict | NotConfirmed | NoDevices | UnknownDevice | LastDevice

  /** The file contents an operation leaves, in the order it writes them, and its answer. */
  datatype Effect<+T> = Effect(writes: seq<Disk>, result: Result<T, ConfigError>)

  const MAX_DEVICES := 10000
  const CHALLENGE_TTL := 300 * SECOND

  // ---- What the receiver loads ----

  /** A device's name is the one its key determines. */
  predicate DeviceOk(did: DeviceIdOf, d: Device)
  {
    && IsDeviceId(d.deviceId)
    && IsPublicKeyText(d.publicKey)
    && DecodeKey(d.publicKey).Some?
    && did(DecodeKey(d.publicKey).value) == d.deviceId
  }

  function IdOf(d: Device): string { d.deviceId }

  predicate UniqueIds(ds: seq<Device>)
  {
    forall i, j | 0 <= i < j < |ds| :: ds[i].deviceId != ds[j].deviceId
  }

  predicate HasDevice(ds: seq<Device>, deviceId: string)
  {
    exists i :: 0 <= i < |ds| && ds[i].deviceId == deviceId
  }

  predicate DevicesOk(did: DeviceIdOf, ds: seq<Device>)
  {
    |ds| <= MAX_DEVICES && (forall i | 0 <= i < |ds| :: DeviceOk(did, ds[i])) && UniqueIds(ds)
  }

  predicate LoaderAccepts(did: DeviceIdOf, c: Config)
  {
    && IsName(c.relayId)
    && 1 <= c.listenPort <= 65535
    && (c.enabled ==> c.devices != [])
    && DevicesOk(did, c.devices)
  }

  /** The table of enrolled keys: a later entry would replace an earlier one of the same name. */
  function TableOf(ds: seq<Device>): map<string, string>
    decreases |ds|
  {
    if ds == [] then map[]
    else
      var n := |ds| - 1;
      TableOf(ds[..n])[ds[n].deviceId := ds[n].publicKey]
  }

  lemma {:induction false} TableKeys(ds: seq<Device>, id: string)
    ensures id in TableOf(ds) <==> HasDevice(ds, id)
    decreases |ds|
  {
    if ds != [] {
      var n := |ds| - 1;
      TableKeys(ds[..n], id);
      if HasDevice(ds[..n], id) {
        var i :| 0 <= i < n && ds[..n][i].deviceId == id;
        assert ds[i].deviceId == id;
      }
      if HasDevice(ds, id) && ds[n].deviceId != id {
        var i :| 0 <= i < |ds| && ds[i].deviceId == id;
        assert ds[..n][i].deviceId == id;
      }
    }
  }

  /** With unique names the table holds exactly the listed devices. */
  lemma {:induction false} TableEntry(ds: seq<Device>, i: nat)
    requires UniqueIds(ds) && i < |ds|
    ensures ds[i].deviceId in TableOf(ds) && TableOf(ds)[ds[i].deviceId] == ds[i].publicKey
    decreases |ds|
  {
    var n := |ds| - 1;
    if i < n {
      TableEntry(ds[..n], i);
    }
  }

  lemma PrefixUnique(ds: seq<Device>, n: nat)
    requires n < |ds| && UniqueIds(ds[..n])
    ensures UniqueIds(ds[..n + 1]) <==> !HasDevice(ds[..n], ds[n].deviceId)
  {
    var p, q := ds[..n], ds[..n + 1];
    if HasDevice(p, ds[n].deviceId) {
      var i :| 0 <= i < n && p[i].deviceId == ds[n].deviceId;
      assert q[i].deviceId == q[n].deviceId;
    } else {
      forall i, j | 0 <= i < j < |q| ensures q[i].deviceId != q[j].deviceId {
        assert q[i] == p[i];
        if j < n { assert q[j] == p[j]; }
      }
    }
  }

  lemma UniquePrefix(ds: seq<Device>, n: nat)
    requires n <= |ds|
    ensures UniqueIds(ds) ==> UniqueIds(ds[..n])
  {
  }

  /** One more device: it is new to the table and extends it, or the list repeats a name. */
  lemma NextEntry(ds: seq<Device>, n: nat)
    requires n < |ds| && UniqueIds(ds[..n])
    ensures if ds[n].deviceId in TableOf(ds[..n]) then !UniqueIds(ds)
            else UniqueIds(ds[..n + 1]) && TableOf(ds[..n + 1]) == TableOf(ds[..n])[ds[n].deviceId := ds[n].publicKey]
  {
    PrefixUnique(ds, n);
    TableKeys(ds[..n], ds[n].deviceId);
    UniquePrefix(ds, n + 1);
    assert ds[..n + 1][..n] == ds[..n];
  }

  /** The loop of the loader: it builds the table of enrolled keys, or refuses the file. */
  method LoadDevices(did: DeviceIdOf, raw: seq<Device>) returns (r: Option<map<string, string>>)
    ensures r == if DevicesOk(did, raw) then Some(TableOf(raw)) else None
  {
    if |raw| > MAX_DEVICES {
      return None;
    }
    var devices: map<string, string> := map[];
    for n := 0 to |raw|
      invariant forall i | 0 <= i < n :: DeviceOk(did, raw[i])
      invariant UniqueIds(raw[..n])
      invariant devices == TableOf(raw[..n])
    {
      var item := raw[n];
      NextEntry(raw, n);
      if !DeviceOk(did, item) {
        return None;
      }
      if item.deviceId in devices {
        return None;
      }
      devices := devices[item.deviceId := item.publicKey];
    }
    assert raw[..|raw|] == raw;
    return Some(devices);
  }

  predicate StateLoads(s: RelayState)
  {
    IsName(s.relayId) && IsName(s.peerId) && DecodeKey(s.peerKey).Some?
  }

  /** `_load_config`: both files are acceptable and name the same relay. */
  predicate Loads(did: DeviceIdOf, d: Disk)
  {
    StateLoads(d.state) && LoaderAccepts(did, d.config) && d.config.relayId == d.state.relayId
  }

  /** `_save_config`: a candidate is validated as the receiver would before it replaces the file. */
  function Save(did: DeviceIdOf, d: Disk, c: Config): Option<Disk>
  {
    if LoaderAccepts(did, c) && StateLoads(d.state) && c.relayId == d.state.relayId then Some(d.(config := c)) else None
  }

  // ---- Operations ----

  predicate IsOfferCode(code: string)
  {
    |code| == 11 && code[5] == '-' && forall i | 0 <= i < 11 && i != 5 :: code[i] in PAIRING_ALPHABET
  }

  predicate ValidOffer(did: DeviceIdOf, o: Offer)
  {
    IsUuid(o.pairingId) && DeviceOk(did, Device(o.deviceId, o.deviceKey)) && IsOfferCode(o.code)
  }

  /** The relay's signed part of an enrollment request. */
  function RequestFor(d: Disk, o: Offer, challengeId: string, nonce: string, now: int): Request
  {
    Request(Challenge(challengeId, d.state.relayId, nonce, o.deviceId, now, now + CHALLENGE_TTL),
            o.pairingId, o.code, d.state.peerId, d.state.peerKey)
  }

  /** The request leaves the relay before its challenge is recorded as pending. */
  function CreateRequest(did: DeviceIdOf, d: Disk, o: Offer, outputFree: bool, challengeId: string, nonce: string,
                         now: int)
    : Effect<Request>
  {
    if !StateLoads(d.state) then Effect([], Err(Unreadable))
    else if !ValidOffer(did, o) then Effect([], Err(InvalidOffer))
    else if o.expires <= now then Effect([], Err(OfferExpired))
    else if !outputFree then Effect([], Err(OutputExists))
    else
      var pending := d.state.pending[challengeId := Pending(o.deviceId, o.deviceKey, now + CHALLENGE_TTL)];
      Effect([d.(state := d.state.(pending := pending))], Ok(RequestFor(d, o, challengeId, nonce, now)))
  }

  /** `verify_enrollment_receipt`, with ideal signatures. */
  predicate ReceiptVerifies(did: DeviceIdOf, r: Message, signed: Signatures)
  {
    && r.Receipt?
    && DecodeKey(r.deviceKey).Some?
    && did(DecodeKey(r.deviceKey).value) == r.deviceId
    && (DecodeKey(r.deviceKey).value, Payload(r)) in signed
  }

  predicate MatchesPending(d: Disk, r: Message)
    requires r.Receipt?
  {
    && r.challengeId in d.state.pending
    && d.state.pending[r.challengeId].deviceId == r.deviceId
    && d.state.pending[r.challengeId].deviceKey == r.deviceKey
  }

  predicate Addressed(d: Disk, r: Message)
    requires r.Receipt?
  {
    r.relayId == d.state.relayId && r.peerId == d.state.peerId && r.peerKey == d.state.peerKey
  }

  function Settle(d: Disk, challengeId: string): Disk
  {
    d.(state := d.state.(pending := d.state.pending - {challengeId}))
  }

  function Enroll(c: Config, device: Device): Config
  {
    c.(devices := SortBy(IdOf, c.devices + [device]))
  }

  /** The config is replaced first, and only then is the pending challenge spent. The answer tells
      whether the device had been enrolled before. */
  function Import(did: DeviceIdOf, d: Disk, r: Message, signed: Signatures): Effect<bool>
  {
    if !Loads(did, d) then Effect([], Err(Unreadable))
    else if !ReceiptVerifies(did, r, signed) then Effect([], Err(InvalidReceipt))
    else if !Addressed(d, r) then Effect([], Err(WrongRelay))
    else if !MatchesPending(d, r) then Effect([], Err(NotPending))
    else
      var device := Device(r.deviceId, r.deviceKey);
      if device in d.config.devices then Effect([Settle(d, r.challengeId)], Ok(true))
      else if HasDevice(d.config.devices, r.deviceId) then Effect([], Err(KeyConflict))
      else match Save(did, d, Enroll(d.config, device))
        case None => Effect([], Err(Unreadable))
        case Some(saved) => Effect([saved, Settle(saved, r.challengeId)], Ok(false))
  }

  function SetEnabled(did: DeviceIdOf, d: Disk, enabled: bool, confirmed: bool): Effect<()>
  {
    if enabled && !confirmed then Effect([], Err(NotConfirmed))
    else if !Loads(did, d) then Effect([], Err(Unreadable))
    else if enabled && d.config.devices == [] then Effect([], Err(NoDevices))
    else match Save(did, d, d.config.(enabled := enabled))
      case None => Effect([], Err(Unreadable))
      case Some(saved) => Effect([saved], Ok(()))
  }

  function Retained(ds: seq<Device>, deviceId: string): seq<Device>
  {
    if ds == [] then []
    else (if ds[0].deviceId == deviceId then [] else [ds[0]]) + Retained(ds[1..], deviceId)
  }

  function RemoveDevice(did: DeviceIdOf, d: Disk, deviceId: string, confirmed: bool): Effect<()>
  {
    if !confirmed then Effect([], Err(NotConfirmed))
    else if !Loads(did, d) then Effect([], Err(Unreadable))
    else
      var retained := Retained(d.config.devices, deviceId);
      if |retained| == |d.config.devices| then Effect([], Err(UnknownDevice))
      else if d.config.enabled && retained == [] then Effect([], Err(LastDevice))
      else match Save(did, d, d.config.(devices := retained))
        case None => Effect([], Err(Unreadable))
        case Some(saved) => Effect([saved], Ok(()))
  }

  /** What `init` writes: a disabled receiver with no devices. */
  function Initialized(relayId: string, peerId: string, peerKey: string, listenPort: int): Disk
  {
    Disk(Config(false, relayId, listenPort, []), RelayState(relayId, peerId, peerKey, map[]))
  }
}
