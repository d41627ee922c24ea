/** `sanitize_snapshot`, the telemetry envelope, and the receiver's demand that a snapshot be already filtered. */
module Snapshots {
  import opened Prelude
  import opened Json
  import opened JsonText
  import opened CanonicalJson
  import opened Frames
  import opened Privacy

  datatype SnapshotError = BadDocument | BadInstances | BadInstance | TooLarge

  const INSTANCE_FIELDS: seq<string> := ["instance_id", "connected", "captured_at", "eventtime", "status"]

  /** Python truth of a JSON value. */
  predicate Truthy(v: Json)
  {
    match v
    case Null => false
    case Bool(b) => b
    case Num(n) => n != 0
    case Str(s) => s != ""
    case Arr(xs) => xs != []
    case Obj(fs) => fs != []
  }

  predicate HasError(source: seq<Field>)
  {
    Get(source, "error").Some? && Truthy(Get(source, "error").value)
  }

  function Keep(lower: Lower, keys: seq<string>, source: seq<Field>): seq<Field>
  {
    if keys == [] then []
    else (match Get(source, keys[0])
          case None => []
          case Some(v) => [Field(keys[0], Prune(lower, v))])
         + Keep(lower, keys[1..], source)
  }

  function ErrorMarker(source: seq<Field>): seq<Field>
  {
    if HasError(source) then [Field("error", Str("unavailable"))] else []
  }

  function FilterInstance(lower: Lower, source: seq<Field>): seq<Field>
  {
    Keep(lower, INSTANCE_FIELDS, source) + ErrorMarker(source)
  }

  predicate AllObjects(fs: seq<Field>)
  {
    forall i | 0 <= i < |fs| :: fs[i].value.Obj?
  }

  function FilterInstances(lower: Lower, fs: seq<Field>): (r: seq<Field>)
    requires AllObjects(fs)
    ensures |r| == |fs|
    ensures forall i | 0 <= i < |fs| :: r[i] == Field(fs[i].key, Obj(FilterInstance(lower, fs[i].value.fields)))
  {
    if fs == [] then []
    else [Field(fs[0].key, Obj(FilterInstance(lower, fs[0].value.fields)))] + FilterInstances(lower, fs[1..])
  }

  /** Passed through unfiltered; `null` when missing. */
  function GeneratedAt(fs: seq<Field>): Json
  {
    match Get(fs, "generated_at") case None => Null case Some(v) => v
  }

  function Assemble(generatedAt: Json, instances: seq<Field>): Json
  {
    Obj([ Field("schema_version", Num(1)),
          Field("generated_at", generatedAt),
          Field("instances", Obj(instances)) ])
  }

  function Limited(result: Json): Result<Json, SnapshotError>
  {
    if |Canonical(result)| > MAX_FRAME_BYTES / 2 then Err(TooLarge) else Ok(result)
  }

  function Sanitize(lower: Lower, document: Json): Result<Json, SnapshotError>
  {
    if !document.Obj? || Get(document.fields, "schema_version") != Some(Num(1)) then Err(BadDocument)
    else match Get(document.fields, "instances")
      case Some(Obj(instances)) =>
        if !AllObjects(instances) then Err(BadInstance)
        else Limited(Assemble(GeneratedAt(document.fields), FilterInstances(lower, instances)))
      case _ => Err(BadInstances)
  }

  /** The loop that fills the dict of filtered instances, refusing the first value that is not an object. */
  method FilterAll(lower: Lower, instances: seq<Field>) returns (r: Option<seq<Field>>)
    ensures r == if AllObjects(instances) then Some(FilterInstances(lower, instances)) else None
  {
    var sanitized: seq<Field> := [];
    for n := 0 to |instances|
      invariant |sanitized| == n
      invariant forall i | 0 <= i < n :: instances[i].value.Obj?
      invariant forall i | 0 <= i < n ::
                  sanitized[i] == Field(instances[i].key, Obj(FilterInstance(lower, instances[i].value.fields)))
    {
      if !instances[n].value.Obj? {
        return None;
      }
      var target := FilterInstance(lower, instances[n].value.fields);
      sanitized := sanitized + [Field(instances[n].key, Obj(target))];
    }
    assert sanitized == FilterInstances(lower, instances);
    return Some(sanitized);
  }

  method SanitizeSnapshot(lower: Lower, document: Json) returns (r: Result<Json, SnapshotError>)
    ensures r == Sanitize(lower, document)
  {
    if !document.Obj? || Get(document.fields, "schema_version") != Some(Num(1)) {
      return Err(BadDocument);
    }
    match Get(document.fields, "instances") {
      case Some(Obj(instances)) =>
        var filtered := FilterAll(lower, instances);
        if filtered == None {
          return Err(BadInstance);
        }
        r := Limited(Assemble(GeneratedAt(document.fields), filtered.value));
      case _ => return Err(BadInstances);
    }
  }

  // ---- What a filtered instance contains ----

  lemma {:induction false} GetKept(lower: Lower, keys: seq<string>, source: seq<Field>, key: string)
    ensures Get(Keep(lower, keys, source), key) == if key in keys then PruneOption(lower, Get(source, key)) else None
  {
    if keys != [] {
      var rest := Keep(lower, keys[1..], source);
      GetKept(lower, keys[1..], source, key);
      match Get(source, keys[0]) {
        case None => assert [] + rest == rest;
        case Some(v) => assert ([Field(keys[0], Prune(lower, v))] + rest)[1..] == rest;
      }
    }
  }

  lemma {:induction false} GetAppended(fs: seq<Field>, gs: seq<Field>, key: string)
    ensures Get(fs + gs, key) == if Get(fs, key).Some? then Get(fs, key) else Get(gs, key)
  {
    if fs == [] {
      assert fs + gs == gs;
    } else {
      GetAppended(fs[1..], gs, key);
      assert (fs + gs)[1..] == fs[1..] + gs;
    }
  }

  /** A key of a filtered instance: one of the five, or the constant error marker. */
  lemma GetFiltered(lower: Lower, source: seq<Field>, key: string)
    ensures Get(FilterInstance(lower, source), key)
         == if key in INSTANCE_FIELDS then PruneOption(lower, Get(source, key))
            else if key == "error" && HasError(source) then Some(Str("unavailable"))
            else None
  {
    GetKept(lower, INSTANCE_FIELDS, source, key);
    GetAppended(Keep(lower, INSTANCE_FIELDS, source), ErrorMarker(source), key);
    NoErrorField();
  }

  lemma NoErrorField()
    ensures "error" !in INSTANCE_FIELDS
  {
    assert forall i | 0 <= i < |INSTANCE_FIELDS| :: INSTANCE_FIELDS[i] != "error";
  }

  /** Below an instance, exactly the paths under the five fields without a private key survive,
      with their pruned values; besides them there is only the error marker. */
  lemma FilteredPaths(lower: Lower, source: seq<Field>, path: seq<Step>)
    requires path != []
    ensures At(Obj(FilterInstance(lower, source)), path)
         == if path[0].Key? && path[0].key in INSTANCE_FIELDS then
              (if Clean(lower, path[1..]) then PruneOption(lower, At(Obj(source), path)) else None)
            else if path == [Key("error")] && HasError(source) then Some(Str("unavailable"))
            else None
  {
    if path[0].Key? {
      if path[0].key in INSTANCE_FIELDS {
        KeptPath(lower, source, path);
      } else {
        MarkerPath(lower, source, path);
      }
    }
  }

  lemma KeptPath(lower: Lower, source: seq<Field>, path: seq<Step>)
    requires path != [] && path[0].Key? && path[0].key in INSTANCE_FIELDS
    ensures At(Obj(FilterInstance(lower, source)), path)
         == if Clean(lower, path[1..]) then PruneOption(lower, At(Obj(source), path)) else None
  {
    GetFiltered(lower, source, path[0].key);
    if Get(source, path[0].key).Some? {
      PruneIsExact(lower, Get(source, path[0].key).value, path[1..]);
    }
  }

  lemma MarkerPath(lower: Lower, source: seq<Field>, path: seq<Step>)
    requires path != [] && path[0].Key? && path[0].key !in INSTANCE_FIELDS
    ensures At(Obj(FilterInstance(lower, source)), path)
         == if path == [Key("error")] && HasError(source) then Some(Str("unavailable")) else None
  {
    GetFiltered(lower, source, path[0].key);
    if path[1..] == [] {
      assert path == [path[0]];
    }
  }

  lemma {:induction false} KeepCongruent(lower: Lower, keys: seq<string>, a: seq<Field>, b: seq<Field>)
    requires forall k | k in keys :: PruneOption(lower, Get(a, k)) == PruneOption(lower, Get(b, k))
    ensures Keep(lower, keys, a) == Keep(lower, keys, b)
  {
    if keys != [] {
      assert keys[0] in keys;
      KeepCongruent(lower, keys[1..], a, b);
    }
  }

  lemma FilterInstanceIdempotent(lower: Lower, source: seq<Field>)
    ensures FilterInstance(lower, FilterInstance(lower, source)) == FilterInstance(lower, source)
  {
    var once := FilterInstance(lower, source);
    forall k | k in INSTANCE_FIELDS
      ensures PruneOption(lower, Get(once, k)) == PruneOption(lower, Get(source, k))
    {
      GetFiltered(lower, source, k);
      if Get(source, k).Some? { PruneIdempotent(lower, Get(source, k).value); }
    }
    KeepCongruent(lower, INSTANCE_FIELDS, once, source);
    GetFiltered(lower, source, "error");
    NoErrorField();
    assert HasError(once) == HasError(source);
  }

  lemma GetAssembled(generatedAt: Json, instances: seq<Field>)
    ensures var fs := Assemble(generatedAt, instances).fields;
            && Distinct(fs)
            && Get(fs, "schema_version") == Some(Num(1))
            && GeneratedAt(fs) == generatedAt
            && Get(fs, "instances") == Some(Obj(instances))
  {
    var fs := Assemble(generatedAt, instances).fields;
    GetAt(fs, 0);
    GetAt(fs, 1);
    GetAt(fs, 2);
  }

  /** The instances a document that passes the filter carries. */
  function InstancesOf(document: Json): seq<Field>
  {
    if document.Obj? then
      match Get(document.fields, "instances")
      case Some(Obj(instances)) => instances
      case _ => []
    else []
  }

  lemma SanitizeShape(lower: Lower, document: Json)
    requires Sanitize(lower, document).Ok?
    ensures document.Obj? && AllObjects(InstancesOf(document))
    ensures Sanitize(lower, document)
         == Limited(Assemble(GeneratedAt(document.fields), FilterInstances(lower, InstancesOf(document))))
  {
  }

  lemma SanitizeAssembled(lower: Lower, generatedAt: Json, instances: seq<Field>)
    requires AllObjects(instances)
    ensures Sanitize(lower, Assemble(generatedAt, instances))
         == Limited(Assemble(generatedAt, FilterInstances(lower, instances)))
  {
    GetAssembled(generatedAt, instances);
  }

  lemma FilterInstancesIdempotent(lower: Lower, instances: seq<Field>)
    requires AllObjects(instances)
    ensures AllObjects(FilterInstances(lower, instances))
    ensures FilterInstances(lower, FilterInstances(lower, instances)) == FilterInstances(lower, instances)
  {
    var once := FilterInstances(lower, instances);
    forall i | 0 <= i < |once| ensures FilterInstances(lower, once)[i] == once[i] {
      FilterInstanceIdempotent(lower, instances[i].value.fields);
    }
  }

  /** Filtering twice is filtering once, size check included. */
  lemma SanitizeIdempotent(lower: Lower, document: Json)
    requires Sanitize(lower, document).Ok?
    ensures Sanitize(lower, Sanitize(lower, document).value) == Sanitize(lower, document)
  {
    SanitizeShape(lower, document);
    FilterInstancesIdempotent(lower, InstancesOf(document));
    SanitizeAssembled(lower, GeneratedAt(document.fields), FilterInstances(lower, InstancesOf(document)));
  }

  // ---- Equal documents are filtered alike ----

  lemma AlignedSame(fs: seq<Field>, gs: seq<Field>)
    requires Distinct(gs) && |fs| == |gs|
    requires forall i | 0 <= i < |fs| :: fs[i].key == gs[i].key && Same(fs[i].value, gs[i].value)
    ensures Same(Obj(fs), Obj(gs))
  {
    forall i | 0 <= i < |fs| ensures Get(gs, fs[i].key).Some? && Same(fs[i].value, Get(gs, fs[i].key).value) {
      GetAt(gs, i);
    }
    forall j | 0 <= j < |gs| ensures HasKey(fs, gs[j].key) {
      assert fs[j].key == gs[j].key;
    }
  }

  predicate SameOption(a: Option<Json>, b: Option<Json>)
  {
    match (a, b)
    case (None, None) => true
    case (Some(v), Some(w)) => Same(v, w)
    case _ => false
  }

  /** Objects that agree key by key are equal. */
  lemma SameByKeys(fs: seq<Field>, gs: seq<Field>)
    requires Distinct(fs) && forall k :: SameOption(Get(fs, k), Get(gs, k))
    ensures Same(Obj(fs), Obj(gs))
  {
    forall i | 0 <= i < |fs| ensures Get(gs, fs[i].key).Some? && Same(fs[i].value, Get(gs, fs[i].key).value) {
      GetAt(fs, i);
      assert SameOption(Get(fs, fs[i].key), Get(gs, fs[i].key));
    }
    forall j | 0 <= j < |gs| ensures HasKey(fs, gs[j].key) {
      assert HasKey(gs, gs[j].key);
      assert SameOption(Get(fs, gs[j].key), Get(gs, gs[j].key));
    }
  }

  lemma {:induction false} KeepMembers(lower: Lower, keys: seq<string>, source: seq<Field>, f: Field)
    requires f in Keep(lower, keys, source)
    ensures f.key in keys && Get(source, f.key).Some? && f.value == Prune(lower, Get(source, f.key).value)
  {
    if f in Keep(lower, keys[1..], source) {
      KeepMembers(lower, keys[1..], source, f);
    }
  }

  lemma {:induction false} KeepDistinct(lower: Lower, keys: seq<string>, source: seq<Field>)
    requires forall i, j | 0 <= i < j < |keys| :: keys[i] != keys[j]
    ensures Distinct(Keep(lower, keys, source))
  {
    if keys != [] {
      var rest := Keep(lower, keys[1..], source);
      KeepDistinct(lower, keys[1..], source);
      forall k | 0 <= k < |rest| ensures rest[k].key != keys[0] {
        KeepMembers(lower, keys[1..], source, rest[k]);
      }
    }
  }

  lemma FilterInstanceWellFormed(lower: Lower, source: seq<Field>)
    requires WellFormed(Obj(source))
    ensures WellFormed(Obj(FilterInstance(lower, source)))
  {
    var kept := Keep(lower, INSTANCE_FIELDS, source);
    KeepDistinct(lower, INSTANCE_FIELDS, source);
    NoErrorField();
    forall i | 0 <= i < |kept| ensures WellFormed(kept[i].value) && kept[i].key != "error" {
      KeepMembers(lower, INSTANCE_FIELDS, source, kept[i]);
      GetWellFormed(source, kept[i].key);
      PruneWellFormed(lower, Get(source, kept[i].key).value);
    }
  }

  lemma GetWellFormed(fs: seq<Field>, key: string)
    requires WellFormed(Obj(fs)) && Get(fs, key).Some?
    ensures WellFormed(Get(fs, key).value)
  {
    var i :| 0 <= i < |fs| && fs[i] == Field(key, Get(fs, key).value);
    assert WellFormed(fs[i].value);
  }

  lemma FilterInstancesWellFormed(lower: Lower, instances: seq<Field>)
    requires WellFormed(Obj(instances)) && AllObjects(instances)
    ensures WellFormed(Obj(FilterInstances(lower, instances)))
  {
    var filtered := FilterInstances(lower, instances);
    forall i | 0 <= i < |filtered| ensures WellFormed(filtered[i].value) {
      FilterInstanceWellFormed(lower, instances[i].value.fields);
    }
  }

  lemma PartsWellFormed(document: Json)
    requires WellFormed(document) && document.Obj?
    ensures WellFormed(GeneratedAt(document.fields)) && WellFormed(Obj(InstancesOf(document)))
  {
    if Get(document.fields, "generated_at").Some? { GetWellFormed(document.fields, "generated_at"); }
    if Get(document.fields, "instances").Some? { GetWellFormed(document.fields, "instances"); }
  }

  lemma AssembleWellFormed(generatedAt: Json, instances: seq<Field>)
    requires WellFormed(generatedAt) && WellFormed(Obj(instances))
    ensures WellFormed(Assemble(generatedAt, instances))
  {
    GetAssembled(generatedAt, instances);
  }

  lemma SanitizeWellFormed(lower: Lower, document: Json)
    requires WellFormed(document) && Sanitize(lower, document).Ok?
    ensures WellFormed(Sanitize(lower, document).value)
  {
    SanitizeShape(lower, document);
    PartsWellFormed(document);
    FilterInstancesWellFormed(lower, InstancesOf(document));
    AssembleWellFormed(GeneratedAt(document.fields), FilterInstances(lower, InstancesOf(document)));
  }

  lemma SameTruthy(a: Json, b: Json)
    requires Same(a, b)
    ensures Truthy(a) == Truthy(b)
  {
    if a.Obj? && a.fields != [] { assert Get(b.fields, a.fields[0].key).Some?; }
    if b.Obj? && b.fields != [] { assert HasKey(a.fields, b.fields[0].key); }
  }

  lemma SameGetOption(fs: seq<Field>, gs: seq<Field>, key: string)
    requires Distinct(fs) && Same(Obj(fs), Obj(gs))
    ensures SameOption(Get(fs, key), Get(gs, key))
  {
    SameGet(fs, gs, key);
  }

  lemma FilterInstanceRespectsSame(lower: Lower, a: seq<Field>, b: seq<Field>)
    requires WellFormed(Obj(a)) && Same(Obj(a), Obj(b))
    ensures Same(Obj(FilterInstance(lower, a)), Obj(FilterInstance(lower, b)))
  {
    FilterInstanceWellFormed(lower, a);
    SameGetOption(a, b, "error");
    if Get(a, "error").Some? { SameTruthy(Get(a, "error").value, Get(b, "error").value); }
    forall k ensures SameOption(Get(FilterInstance(lower, a), k), Get(FilterInstance(lower, b), k)) {
      GetFiltered(lower, a, k);
      GetFiltered(lower, b, k);
      SameGetOption(a, b, k);
      if Get(a, k).Some? { PruneRespectsSame(lower, Get(a, k).value, Get(b, k).value); }
    }
    SameByKeys(FilterInstance(lower, a), FilterInstance(lower, b));
  }

  lemma SameInstancesAreObjects(a: seq<Field>, b: seq<Field>)
    requires WellFormed(Obj(a)) && WellFormed(Obj(b)) && Same(Obj(a), Obj(b)) && AllObjects(a)
    ensures AllObjects(b)
  {
    forall j | 0 <= j < |b| ensures b[j].value.Obj? {
      assert HasKey(a, b[j].key);
      var i :| 0 <= i < |a| && a[i].key == b[j].key;
      GetAt(b, j);
      assert Same(a[i].value, Get(b, a[i].key).value);
    }
  }

  lemma SameFilteredInstance(lower: Lower, a: seq<Field>, b: seq<Field>, i: nat)
    requires WellFormed(Obj(a)) && WellFormed(Obj(b)) && Same(Obj(a), Obj(b)) && AllObjects(a) && AllObjects(b)
    requires i < |a|
    ensures var fa, fb := FilterInstances(lower, a), FilterInstances(lower, b);
            Get(fb, fa[i].key).Some? && Same(fa[i].value, Get(fb, fa[i].key).value)
  {
    var fb := FilterInstances(lower, b);
    assert Distinct(fb);
    var j :| 0 <= j < |b| && b[j] == Field(a[i].key, Get(b, a[i].key).value);
    GetAt(fb, j);
    FilterInstanceRespectsSame(lower, a[i].value.fields, b[j].value.fields);
  }

  lemma {:induction false} FilterInstancesRespectSame(lower: Lower, a: seq<Field>, b: seq<Field>)
    requires WellFormed(Obj(a)) && WellFormed(Obj(b)) && Same(Obj(a), Obj(b)) && AllObjects(a)
    ensures AllObjects(b)
    ensures Same(Obj(FilterInstances(lower, a)), Obj(FilterInstances(lower, b)))
  {
    SameInstancesAreObjects(a, b);
    var fa, fb := FilterInstances(lower, a), FilterInstances(lower, b);
    forall i | 0 <= i < |fa| ensures Get(fb, fa[i].key).Some? && Same(fa[i].value, Get(fb, fa[i].key).value) {
      SameFilteredInstance(lower, a, b, i);
    }
    forall j | 0 <= j < |fb| ensures HasKey(fa, fb[j].key) {
      assert HasKey(a, b[j].key);
      var i :| 0 <= i < |a| && a[i].key == b[j].key;
      assert fa[i].key == fb[j].key;
    }
  }

  lemma SameParts(a: Json, b: Json)
    requires WellFormed(a) && a.Obj? && Same(a, b)
    ensures b.Obj? && Same(GeneratedAt(a.fields), GeneratedAt(b.fields))
    ensures Get(a.fields, "schema_version") == Some(Num(1)) ==> Get(b.fields, "schema_version") == Some(Num(1))
    ensures Get(a.fields, "instances").Some? && Get(a.fields, "instances").value.Obj? ==>
              && Get(b.fields, "instances").Some? && Get(b.fields, "instances").value.Obj?
              && Same(Obj(InstancesOf(a)), Obj(InstancesOf(b)))
  {
    SameGetOption(a.fields, b.fields, "schema_version");
    SameGetOption(a.fields, b.fields, "instances");
    SameGetOption(a.fields, b.fields, "generated_at");
  }

  lemma SameAssembled(g: Json, fs: seq<Field>, h: Json, gs: seq<Field>)
    requires Same(g, h) && Same(Obj(fs), Obj(gs))
    ensures Same(Assemble(g, fs), Assemble(h, gs))
  {
    GetAssembled(h, gs);
    AlignedSame(Assemble(g, fs).fields, Assemble(h, gs).fields);
  }

  lemma SameLimited(a: Json, b: Json)
    requires WellFormed(a) && WellFormed(b) && Same(a, b)
    ensures Limited(a).Ok? == Limited(b).Ok?
  {
    CanonicalIffSame(a, b);
  }

  lemma SameFiltered(lower: Lower, a: Json, b: Json)
    requires WellFormed(a) && WellFormed(b) && a.Obj? && b.Obj? && Same(Obj(InstancesOf(a)), Obj(InstancesOf(b)))
    requires Same(GeneratedAt(a.fields), GeneratedAt(b.fields)) && AllObjects(InstancesOf(a))
    requires WellFormed(Obj(InstancesOf(a))) && WellFormed(Obj(InstancesOf(b)))
    ensures AllObjects(InstancesOf(b))
    ensures Same(Assemble(GeneratedAt(a.fields), FilterInstances(lower, InstancesOf(a))),
                 Assemble(GeneratedAt(b.fields), FilterInstances(lower, InstancesOf(b))))
  {
    FilterInstancesRespectSame(lower, InstancesOf(a), InstancesOf(b));
    SameAssembled(GeneratedAt(a.fields), FilterInstances(lower, InstancesOf(a)),
                  GeneratedAt(b.fields), FilterInstances(lower, InstancesOf(b)));
  }

  /** The filter depends only on what Python's `==` sees, so decoding and re-encoding cannot change its verdict. */
  lemma SanitizeRespectsSame(lower: Lower, a: Json, b: Json)
    requires WellFormed(a) && WellFormed(b) && Same(a, b) && Sanitize(lower, a).Ok?
    ensures Sanitize(lower, b).Ok? && Same(Sanitize(lower, a).value, Sanitize(lower, b).value)
  {
    var ia, ib := InstancesOf(a), InstancesOf(b);
    SanitizeShape(lower, a);
    SameParts(a, b);
    PartsWellFormed(a);
    PartsWellFormed(b);
    SameFiltered(lower, a, b);
    FilterInstancesWellFormed(lower, ib);
    AssembleWellFormed(GeneratedAt(b.fields), FilterInstances(lower, ib));
    SanitizeWellFormed(lower, a);
    var ra, rb := Assemble(GeneratedAt(a.fields), FilterInstances(lower, ia)),
                  Assemble(GeneratedAt(b.fields), FilterInstances(lower, ib));
    SameLimited(ra, rb);
  }
}
