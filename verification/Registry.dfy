/** The receiver's registry: the latest record of each device, how many sessions each has, and the file. */
module Registry {
  import opened Prelude
  import opened Json

  datatype Record = Record(deviceId: string, sequence: int, receivedAt: int, receivedEpoch: int, snapshot: Json)
  datatype FileRecord = FileRecord(deviceId: string, sequence: int, receivedAt: int, snapshot: Json)

  /** `file` is None as long as it is whatever an earlier process left. */
  datatype RegistryState = RegistryState(
    records: map<string, Record>, active: map<string, int>, file: Option<map<string, FileRecord>>)

  const NEW_REGISTRY := RegistryState(map[], map[], None)

  function Active(r: RegistryState, deviceId: string): int
  {
    if deviceId in r.active then r.active[deviceId] else 0
  }

  function Opened(r: RegistryState, deviceId: string): RegistryState
  {
    r.(active := r.active[deviceId := Active(r, deviceId) + 1])
  }

  /** Never below zero. */
  function Closed(r: RegistryState, deviceId: string): RegistryState
  {
    r.(active := r.active[deviceId := if Active(r, deviceId) - 1 > 0 then Active(r, deviceId) - 1 else 0])
  }

  function Stored(record: Record): FileRecord
  {
    FileRecord(record.deviceId, record.sequence, record.receivedAt, record.snapshot)
  }

  function FileOf(records: map<string, Record>): map<string, FileRecord>
  {
    map d | d in records :: Stored(records[d])
  }

  function Publish(r: RegistryState, record: Record): RegistryState
  {
    var records := r.records[record.deviceId := record];
    r.(records := records, file := Some(FileOf(records)))
  }

  /** What a query about one device is answered: its record without the receipt epoch. */
  function Latest(r: RegistryState, deviceId: string): Option<FileRecord>
  {
    if deviceId in r.records then Some(Stored(r.records[deviceId])) else None
  }

  datatype Presence = Presence(online: bool, activeSessions: int, lastSeen: Option<int>, sequence: Option<int>)

  function PresenceOf(r: RegistryState, deviceId: string, now: int, staleAfter: int): Presence
  {
    if deviceId in r.records then
      var record := r.records[deviceId];
      Presence(now - record.receivedEpoch <= staleAfter, Active(r, deviceId), Some(record.receivedAt),
               Some(record.sequence))
    else Presence(false, Active(r, deviceId), None, None)
  }

  class RelaySnapshotRegistry {
    const deviceIds: set<string>
    const staleAfter: int
    var records: map<string, Record>
    var activeSessions: map<string, int>
    var file: Option<map<string, FileRecord>>

    constructor (deviceIds: set<string>, staleAfter: int)
      ensures View() == NEW_REGISTRY && this.deviceIds == deviceIds && this.staleAfter == staleAfter
    {
      this.deviceIds, this.staleAfter := deviceIds, staleAfter;
      records, activeSessions, file := map[], map[], None;
    }

    function View(): RegistryState
      reads this
    {
      RegistryState(records, activeSessions, file)
    }

    method SessionOpened(deviceId: string)
      modifies this`activeSessions
      ensures View() == Opened(old(View()), deviceId)
    {
      var count := if deviceId in activeSessions then activeSessions[deviceId] else 0;
      activeSessions := activeSessions[deviceId := count + 1];
    }

    method SessionClosed(deviceId: string)
      modifies this`activeSessions
      ensures View() == Closed(old(View()), deviceId)
    {
      var count := (if deviceId in activeSessions then activeSessions[deviceId] else 0) - 1;
      activeSessions := activeSessions[deviceId := if count > 0 then count else 0];
    }

    method PublishSnapshot(deviceId: string, sequence: int, snapshot: Json, now: int) returns (enrolled: bool)
      modifies this`records, this`file
      ensures enrolled <==> deviceId in deviceIds
      ensures View() == if enrolled then Publish(old(View()), Record(deviceId, sequence, now, now, snapshot))
                        else old(View())
    {
      if deviceId !in deviceIds {
        return false;
      }
      records := records[deviceId := Record(deviceId, sequence, now, now, snapshot)];
      WriteLocked();
      return true;
    }

    method WriteLocked()
      modifies this`file
      ensures file == Some(FileOf(records))
    {
      var document: map<string, FileRecord> := map[];
      var left := records.Keys;
      while left != {}
        invariant left <= records.Keys && document.Keys == records.Keys - left
        invariant forall d | d in document :: document[d] == Stored(records[d])
        decreases left
      {
        var d :| d in left;
        document := document[d := Stored(records[d])];
        left := left - {d};
      }
      assert document == FileOf(records);
      file := Some(document);
    }

    /** One entry for every enrolled device, seen or not. */
    method Document(now: int) returns (devices: map<string, Presence>)
      ensures devices.Keys == deviceIds
      ensures forall d | d in devices :: devices[d] == PresenceOf(View(), d, now, staleAfter)
    {
      devices := map[];
      var left := deviceIds;
      while left != {}
        invariant left <= deviceIds && devices.Keys == deviceIds - left
        invariant forall d | d in devices :: devices[d] == PresenceOf(View(), d, now, staleAfter)
        decreases left
      {
        var d :| d in left;
        devices := devices[d := PresenceOf(View(), d, now, staleAfter)];
        left := left - {d};
      }
    }

    method Snapshot(deviceId: string) returns (r: Option<FileRecord>)
      ensures r == Latest(View(), deviceId)
    {
      if deviceId !in records {
        return None;
      }
      return Some(Stored(records[deviceId]));
    }
  }
}
