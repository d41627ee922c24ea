/** The configuration manager as the program runs it: load both files, edit in memory, replace files one at a time. */
module RelayManager {
  import opened Prelude
  import opened Messages
  import opened Enrollment
  import opened RelayConfig
  import opened RelayRuns

  class RelayConfigurationManager {
    const did: DeviceIdOf
    var config: Config
    var state: RelayState
    /** Every pair of file contents the disk has held, the present one last. */
    ghost var durable: seq<Disk>

    function View(): Disk
      reads this
    {
      Disk(config, state)
    }

    ghost predicate Valid()
      reads this
    {
      durable != [] && durable[|durable| - 1] == View()
    }

    constructor (did: DeviceIdOf, relayId: string, peerId: string, peerKey: string, listenPort: int)
      ensures Valid() && this.did == did
      ensures View() == Initialized(relayId, peerId, peerKey, listenPort) && durable == [View()]
    {
      this.did := did;
      config := Initialized(relayId, peerId, peerKey, listenPort).config;
      state := Initialized(relayId, peerId, peerKey, listenPort).state;
      durable := [Initialized(relayId, peerId, peerKey, listenPort)];
    }

    /** Replaces the config file if the candidate passes the receiver's loader and names this relay. */
    method SaveConfig(candidate: Config) returns (ok: bool)
      requires Valid()
      modifies this`config, this`durable
      ensures Valid()
      ensures ok <==> Save(did, old(View()), candidate).Some?
      ensures if ok then View() == Save(did, old(View()), candidate).value && durable == old(durable) + [View()]
              else View() == old(View()) && durable == old(durable)
    {
      ok := LoaderAccepts(did, candidate) && StateLoads(state) && candidate.relayId == state.relayId;
      if ok {
        config := candidate;
        durable := durable + [View()];
      }
    }

    method WritePending(pending: map<string, Pending>)
      modifies this`state, this`durable
      ensures Valid()
      ensures state == old(state).(pending := pending) && durable == old(durable) + [View()]
    {
      state := state.(pending := pending);
      durable := durable + [View()];
    }

    method CreateEnrollmentRequest(o: Offer, outputFree: bool, challengeId: string, nonce: string, now: int)
      returns (r: Result<Request, ConfigError>)
      requires Valid()
      modifies this`state, this`durable
      ensures Valid()
      ensures var e := CreateRequest(did, old(View()), o, outputFree, challengeId, nonce, now);
              && r == e.result && durable == old(durable) + e.writes
              && View() == DiskAfter(old(View()), e.writes, |e.writes|)
    {
      if !StateLoads(state) {
        return Err(Unreadable);
      }
      if !ValidOffer(did, o) {
        return Err(InvalidOffer);
      }
      if o.expires <= now {
        return Err(OfferExpired);
      }
      if !outputFree {
        return Err(OutputExists);
      }
      var request := RequestFor(View(), o, challengeId, nonce, now);
      WritePending(state.pending[challengeId := Pending(o.deviceId, o.deviceKey, request.challenge.expires)]);
      return Ok(request);
    }

    /** Looks a device up by name, as the dict built from the list does on a list with unique names. */
    method FindDevice(deviceId: string) returns (r: Option<Device>)
      ensures r == None <==> !HasDevice(config.devices, deviceId)
      ensures r.Some? ==> r.value in config.devices && r.value.deviceId == deviceId
    {
      for n := 0 to |config.devices|
        invariant forall i | 0 <= i < n :: config.devices[i].deviceId != deviceId
      {
        if config.devices[n].deviceId == deviceId {
          return Some(config.devices[n]);
        }
      }
      return None;
    }

    lemma UniqueDevice(ds: seq<Device>, found: Device, device: Device)
      requires UniqueIds(ds) && found in ds && found.deviceId == device.deviceId
      ensures device in ds <==> found == device
    {
    }

    method AddReceipt(r: Message, signed: Signatures) returns (result: Result<bool, ConfigError>)
      requires Valid()
      modifies this`config, this`state, this`durable
      ensures Valid()
      ensures var e := Import(did, old(View()), r, signed);
              && result == e.result && durable == old(durable) + e.writes
              && View() == DiskAfter(old(View()), e.writes, |e.writes|)
    {
      if !Loads(did, View()) {
        return Err(Unreadable);
      }
      if !ReceiptVerifies(did, r, signed) {
        return Err(InvalidReceipt);
      }
      if !Addressed(View(), r) {
        return Err(WrongRelay);
      }
      if !MatchesPending(View(), r) {
        return Err(NotPending);
      }
      var device := Device(r.deviceId, r.deviceKey);
      var existing := FindDevice(device.deviceId);
      if existing.Some? {
        UniqueDevice(config.devices, existing.value, device);
        if existing.value != device {
          return Err(KeyConflict);
        }
      } else {
        assert device !in config.devices;
        var saved := SaveConfig(Enroll(config, device));
        if !saved {
          return Err(Unreadable);
        }
      }
      WritePending(state.pending - {r.challengeId});
      return Ok(existing.Some?);
    }

    method SetReceiver(enabled: bool, confirmed: bool) returns (r: Result<(), ConfigError>)
      requires Valid()
      modifies this`config, this`durable
      ensures Valid()
      ensures var e := SetEnabled(did, old(View()), enabled, confirmed);
              && r == e.result && durable == old(durable) + e.writes
              && View() == DiskAfter(old(View()), e.writes, |e.writes|)
    {
      if enabled && !confirmed {
        return Err(NotConfirmed);
      }
      if !Loads(did, View()) {
        return Err(Unreadable);
      }
      if enabled && config.devices == [] {
        return Err(NoDevices);
      }
      var saved := SaveConfig(config.(enabled := enabled));
      return if saved then Ok(()) else Err(Unreadable);
    }

    method Remove(deviceId: string, confirmed: bool) returns (r: Result<(), ConfigError>)
      requires Valid()
      modifies this`config, this`durable
      ensures Valid()
      ensures var e := RemoveDevice(did, old(View()), deviceId, confirmed);
              && r == e.result && durable == old(durable) + e.writes
              && View() == DiskAfter(old(View()), e.writes, |e.writes|)
    {
      if !confirmed {
        return Err(NotConfirmed);
      }
      if !Loads(did, View()) {
        return Err(Unreadable);
      }
      var retained := Retained(config.devices, deviceId);
      if |retained| == |config.devices| {
        return Err(UnknownDevice);
      }
      if config.enabled && retained == [] {
        return Err(LastDevice);
      }
      var saved := SaveConfig(config.(devices := retained));
      return if saved then Ok(()) else Err(Unreadable);
    }
  }
}
