/** The one telemetry frame of a session: how the device builds it and when the receiver takes it. */
module SessionTelemetry {
  import opened Prelude
  import opened Text
  import opened Sorting
  import opened Json
  import opened JsonText
  import opened Frames
  import opened Privacy
  import opened Snapshots
  import opened Sessions

  const ENVELOPE_KEYS := ["protocol_version", "type", "session_id", "sequence", "snapshot"]

  function Envelope(sessionId: string, snapshot: Json): Json
  {
    Obj([ Field("protocol_version", Num(1)), Field("type", Str("agent.telemetry")),
          Field("session_id", Str(sessionId)), Field("sequence", Num(1)), Field("snapshot", snapshot) ])
  }

  predicate EnvelopeOk(fs: seq<Field>, sessionId: string)
  {
    && KeysAre(fs, ENVELOPE_KEYS)
    && Get(fs, "protocol_version") == Some(Num(1))
    && Get(fs, "type") == Some(Str("agent.telemetry"))
    && Get(fs, "session_id") == Some(Str(sessionId))
    && Get(fs, "sequence") == Some(Num(1))
  }

  /** A snapshot passes when filtering it changes nothing; the filtered copy is what is published. */
  function AcceptSnapshot(lower: Lower, snapshot: Json): Option<Json>
  {
    match Sanitize(lower, snapshot)
    case Err(_) => None
    case Ok(r) => if Same(r, snapshot) then Some(r) else None
  }

  function SnapshotOf(envelope: Json): Json
  {
    if envelope.Obj? then
      match Get(envelope.fields, "snapshot") case None => Null case Some(v) => v
    else Null
  }

  function AcceptTelemetry(lower: Lower, document: Json, sessionId: string): Option<Json>
  {
    if document.Obj? && EnvelopeOk(document.fields, sessionId) then AcceptSnapshot(lower, SnapshotOf(document))
    else None
  }

  // ---- The size of canonical text does not depend on the order of keys ----

  function Size(fs: seq<Field>): nat
  {
    if fs == [] then 0 else |PrintField(fs[0])| + 1 + Size(fs[1..])
  }

  lemma {:induction false} PrintedSize(fs: seq<Field>)
    requires fs != []
    ensures |PrintFields(fs)| == Size(fs) - 1
  {
    if |fs| > 1 {
      PrintedSize(fs[1..]);
    } else {
      assert fs[1..] == [];
    }
  }

  lemma SizeCons(f: Field, fs: seq<Field>)
    ensures Size([f] + fs) == |PrintField(f)| + 1 + Size(fs)
  {
    assert ([f] + fs)[1..] == fs;
  }

  lemma {:induction false} InsertedSize(f: Field, fs: seq<Field>)
    ensures Size(InsertBy(KeyOf, f, fs)) == |PrintField(f)| + 1 + Size(fs)
  {
    if fs == [] || Below(KeyOf(f), KeyOf(fs[0])) {
      SizeCons(f, fs);
    } else {
      InsertedSize(f, fs[1..]);
      SizeCons(fs[0], InsertBy(KeyOf, f, fs[1..]));
    }
  }

  lemma {:induction false} SizeSnoc(fs: seq<Field>, f: Field)
    ensures Size(fs + [f]) == Size(fs) + |PrintField(f)| + 1
  {
    if fs == [] {
      assert fs + [f] == [f] + fs;
      SizeCons(f, fs);
    } else {
      SizeSnoc(fs[1..], f);
      assert fs + [f] == [fs[0]] + (fs[1..] + [f]);
      SizeCons(fs[0], fs[1..] + [f]);
    }
  }

  lemma {:induction false} SortedSize(fs: seq<Field>)
    ensures Size(SortFields(fs)) == Size(fs)
    decreases |fs|
  {
    if fs != [] {
      var n := |fs| - 1;
      SortedSize(fs[..n]);
      InsertedSize(fs[n], SortBy(KeyOf, fs[..n]));
      SizeSnoc(fs[..n], fs[n]);
      assert fs == fs[..n] + [fs[n]];
    }
  }

  lemma EscapeLength(c: char)
    ensures |Escape(c)| <= 12
  {
  }

  lemma {:induction false} EscapedLength(s: string)
    ensures |EscapeAll(s)| <= 12 * |s|
  {
    if s != "" {
      EscapeLength(s[0]);
      EscapedLength(s[1..]);
    }
  }

  /** What one field of an object adds to the canonical text, at most. */
  function Allowance(f: Field): nat
  {
    12 * |f.key| + 4 + |Canonical(f.value)|
  }

  function Allowances(fs: seq<Field>): nat
  {
    if fs == [] then 0 else Allowance(fs[0]) + Allowances(fs[1..])
  }

  lemma {:induction false} NormalSize(fs: seq<Field>)
    ensures Size(NormalFields(fs)) <= Allowances(fs)
  {
    if fs != [] {
      NormalSize(fs[1..]);
      EscapedLength(fs[0].key);
      SizeCons(Field(fs[0].key, Normal(fs[0].value)), NormalFields(fs[1..]));
    }
  }

  lemma ObjectLength(fs: seq<Field>)
    requires fs != []
    ensures |Canonical(Obj(fs))| <= Allowances(fs) + 1
  {
    var sorted := SortFields(NormalFields(fs));
    SortedSize(NormalFields(fs));
    NormalSize(fs);
    SortMembers(KeyOf, NormalFields(fs));
    PrintedSize(sorted);
  }

  lemma ScalarLengths(s: string)
    ensures |Canonical(Num(1))| == 1 && |Canonical(Str(s))| <= 12 * |s| + 2
  {
    EscapedLength(s);
    assert NatText(1) == [Digit(1)];
  }

  lemma AllowancesCons(f: Field, fs: seq<Field>)
    ensures Allowances([f] + fs) == Allowance(f) + Allowances(fs)
  {
    assert ([f] + fs)[1..] == fs;
  }

  lemma AllowancesOfFive(a: Field, b: Field, c: Field, d: Field, e: Field)
    ensures Allowances([a, b, c, d, e]) == Allowance(a) + Allowance(b) + Allowance(c) + Allowance(d) + Allowance(e)
  {
    AllowancesCons(a, [b, c, d, e]);
    AllowancesCons(b, [c, d, e]);
    AllowancesCons(c, [d, e]);
    AllowancesCons(d, [e]);
    AllowancesCons(e, []);
    assert [a, b, c, d, e] == [a] + [b, c, d, e] && [b, c, d, e] == [b] + [c, d, e];
    assert [c, d, e] == [c] + [d, e] && [d, e] == [d] + [e] && [e] == [e] + [];
  }

  /** A snapshot that passed the filter always fits into a frame with its envelope. */
  lemma EnvelopeFits(sessionId: string, snapshot: Json)
    requires |sessionId| == 36 && |Canonical(snapshot)| <= MAX_FRAME_BYTES / 2
    ensures |Canonical(Envelope(sessionId, snapshot))| + 1 <= MAX_FRAME_BYTES
  {
    var a, b := Field("protocol_version", Num(1)), Field("type", Str("agent.telemetry"));
    var c, d, e := Field("session_id", Str(sessionId)), Field("sequence", Num(1)), Field("snapshot", snapshot);
    ScalarLengths("agent.telemetry");
    ScalarLengths(sessionId);
    AllowancesOfFive(a, b, c, d, e);
    ObjectLength([a, b, c, d, e]);
  }

  // ---- An honest device is accepted ----

  lemma EnvelopeFields(sessionId: string, snapshot: Json)
    requires WellFormed(snapshot)
    ensures var fs := Envelope(sessionId, snapshot).fields;
            WellFormed(Obj(fs)) && KeysAre(fs, ENVELOPE_KEYS) && |fs| == 5
  {
    var fs := Envelope(sessionId, snapshot).fields;
    assert Distinct(fs);
    ListedKeys(fs, ENVELOPE_KEYS);
  }

  lemma ReceivedEnvelope(sessionId: string, snapshot: Json, gs: seq<Field>)
    requires WellFormed(snapshot) && WellFormed(Obj(gs)) && Same(Envelope(sessionId, snapshot), Obj(gs))
    ensures EnvelopeOk(gs, sessionId)
    ensures Get(gs, "snapshot").Some? && WellFormed(Get(gs, "snapshot").value)
            && Same(snapshot, Get(gs, "snapshot").value)
  {
    var fs := Envelope(sessionId, snapshot).fields;
    EnvelopeFields(sessionId, snapshot);
    SameKeys(fs, gs, ENVELOPE_KEYS);
    FieldArrives(fs, gs, 0);
    FieldArrives(fs, gs, 1);
    FieldArrives(fs, gs, 2);
    FieldArrives(fs, gs, 3);
    FieldArrives(fs, gs, 4);
    GetWellFormed(gs, "snapshot");
    SameSymmetric(Get(gs, "snapshot").value, snapshot);
  }

  /** A filtered snapshot is accepted in any spelling, and what is published equals it. */
  lemma FilteredIsAccepted(lower: Lower, document: Json, received: Json)
    requires WellFormed(document) && WellFormed(received)
    requires Sanitize(lower, document).Ok? && Same(Sanitize(lower, document).value, received)
    ensures AcceptSnapshot(lower, received).Some? && Same(AcceptSnapshot(lower, received).value, received)
  {
    var r := Sanitize(lower, document).value;
    SanitizeWellFormed(lower, document);
    SanitizeIdempotent(lower, document);
    SanitizeRespectsSame(lower, r, received);
    var again := Sanitize(lower, received).value;
    SanitizeWellFormed(lower, received);
    SameSymmetric(r, again);
    SameTransitive(again, r, received);
  }

  lemma EnvelopeSendable(lower: Lower, document: Json, sessionId: string)
    requires WellFormed(document) && Sanitize(lower, document).Ok? && IsUuid(sessionId)
    ensures WellFormed(Sanitize(lower, document).value)
    ensures Sendable(Envelope(sessionId, Sanitize(lower, document).value))
  {
    var snapshot := Sanitize(lower, document).value;
    SanitizeWellFormed(lower, document);
    SanitizeShape(lower, document);
    EnvelopeFields(sessionId, snapshot);
    EnvelopeFits(sessionId, snapshot);
  }

  lemma ReceivedTelemetryAccepted(lower: Lower, document: Json, sessionId: string, gs: seq<Field>)
    requires WellFormed(document) && Sanitize(lower, document).Ok? && WellFormed(Sanitize(lower, document).value)
    requires WellFormed(Obj(gs)) && Same(Envelope(sessionId, Sanitize(lower, document).value), Obj(gs))
    ensures AcceptTelemetry(lower, Obj(gs), sessionId).Some?
    ensures Same(Sanitize(lower, document).value, AcceptTelemetry(lower, Obj(gs), sessionId).value)
  {
    var snapshot := Sanitize(lower, document).value;
    ReceivedEnvelope(sessionId, snapshot, gs);
    var received := SnapshotOf(Obj(gs));
    FilteredIsAccepted(lower, document, received);
    SanitizeWellFormed(lower, received);
    SameSymmetric(AcceptSnapshot(lower, received).value, received);
    SameTransitive(snapshot, received, AcceptSnapshot(lower, received).value);
  }

  /** Whatever status document a device has, if its filter lets it through then the telemetry frame fits,
      crosses the stream, and passes the receiver's checks; and equal telemetry is published. */
  lemma HonestTelemetryAccepted(lower: Lower, document: Json, sessionId: string, rest: string)
    requires WellFormed(document) && Sanitize(lower, document).Ok? && IsUuid(sessionId)
    ensures var envelope := Envelope(sessionId, Sanitize(lower, document).value);
            && Sendable(envelope)
            && var r := ReadFrame(WriteFrame(envelope).value + rest);
               && r.rest == rest && r.outcome.Ok?
               && AcceptTelemetry(lower, r.outcome.value, sessionId).Some?
               && Same(Sanitize(lower, document).value, AcceptTelemetry(lower, r.outcome.value, sessionId).value)
  {
    EnvelopeSendable(lower, document, sessionId);
    var envelope := Envelope(sessionId, Sanitize(lower, document).value);
    ReadWritten(envelope, rest);
    ReceivedTelemetryAccepted(lower, document, sessionId, Received(envelope));
  }

  // ---- Nothing else is accepted ----

  lemma PublishedShape(lower: Lower, sent: Json)
    requires AcceptSnapshot(lower, sent).Some?
    ensures AllObjects(InstancesOf(sent))
    ensures InstancesOf(AcceptSnapshot(lower, sent).value) == FilterInstances(lower, InstancesOf(sent))
  {
    SanitizeShape(lower, sent);
    GetAssembled(GeneratedAt(sent.fields), FilterInstances(lower, InstancesOf(sent)));
  }

  lemma FilteredIsPublic(lower: Lower, sent: seq<Field>, i: nat, path: seq<Step>)
    requires AllObjects(sent) && i < |sent| && path != []
    requires At(FilterInstances(lower, sent)[i].value, path).Some?
    ensures var v := At(FilterInstances(lower, sent)[i].value, path).value;
            || (path[0].Key? && path[0].key in INSTANCE_FIELDS && Clean(lower, path[1..]))
            || (path == [Key("error")] && v == Str("unavailable"))
  {
    FilteredPaths(lower, sent[i].value.fields, path);
  }

  /** Every value in an instance of a published snapshot lies under one of the five fields, with no private
      key on the way to it, or is the constant error marker. */
  lemma PublishedIsPublic(lower: Lower, sent: Json, i: nat, path: seq<Step>)
    requires AcceptSnapshot(lower, sent).Some? && path != []
    requires i < |InstancesOf(AcceptSnapshot(lower, sent).value)|
    requires At(InstancesOf(AcceptSnapshot(lower, sent).value)[i].value, path).Some?
    ensures var v := At(InstancesOf(AcceptSnapshot(lower, sent).value)[i].value, path).value;
            || (path[0].Key? && path[0].key in INSTANCE_FIELDS && Clean(lower, path[1..]))
            || (path == [Key("error")] && v == Str("unavailable"))
  {
    PublishedShape(lower, sent);
    FilteredIsPublic(lower, InstancesOf(sent), i, path);
  }
}
