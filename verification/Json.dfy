/**
 JSON documents as Python holds them after `json.loads`: an object keeps its fields in insertion
 order, its keys are distinct, and equality ignores the order. Strings are sequences of Unicode
 scalar values.
 */
module Json {
  import opened Prelude
  import opened Sorting

  datatype Json =
    | Null
    | Bool(b: bool)
    | Num(n: int)
    | Str(s: string)
    | Arr(items: seq<Json>)
    | Obj(fields: seq<Field>)

  datatype Field = Field(key: string, value: Json)

  predicate Distinct(fs: seq<Field>)
  {
    forall i, j | 0 <= i < j < |fs| :: fs[i].key != fs[j].key
  }

  /** Every object inside `v` is a dict: no key occurs twice. */
  predicate WellFormed(v: Json)
  {
    match v
    case Arr(xs) => forall i | 0 <= i < |xs| :: WellFormed(xs[i])
    case Obj(fs) => Distinct(fs) && forall i | 0 <= i < |fs| :: WellFormed(fs[i].value)
    case _ => true
  }

  predicate HasKey(fs: seq<Field>, key: string)
  {
    exists i :: 0 <= i < |fs| && fs[i].key == key
  }

  /** Python's `d.get(key)`. */
  function Get(fs: seq<Field>, key: string): (r: Option<Json>)
    ensures r.Some? <==> HasKey(fs, key)
    ensures r.Some? ==> exists i :: 0 <= i < |fs| && fs[i] == Field(key, r.value)
  {
    if fs == [] then None
    else if fs[0].key == key then assert fs[0] == Field(key, fs[0].value); Some(fs[0].value)
    else
      var r := Get(fs[1..], key);
      assert HasKey(fs, key) ==> HasKey(fs[1..], key) by {
        if HasKey(fs, key) {
          var i :| 0 <= i < |fs| && fs[i].key == key;
          assert fs[1..][i - 1].key == key;
        }
      }
      assert forall i | 0 <= i < |fs[1..]| :: fs[1..][i] == fs[i + 1];
      r
  }

  lemma GetAt(fs: seq<Field>, i: nat)
    requires Distinct(fs) && i < |fs|
    ensures Get(fs, fs[i].key) == Some(fs[i].value)
  {
    assert HasKey(fs, fs[i].key);
    var j :| 0 <= j < |fs| && fs[j] == Field(fs[i].key, Get(fs, fs[i].key).value);
    assert j == i;
  }

  /** Python's `==` on documents: arrays by position, objects by key. */
  predicate Same(a: Json, b: Json)
  {
    match (a, b)
    case (Arr(xs), Arr(ys)) =>
      |xs| == |ys| && forall i | 0 <= i < |xs| :: Same(xs[i], ys[i])
    case (Obj(fs), Obj(gs)) =>
      && (forall i | 0 <= i < |fs| :: Get(gs, fs[i].key).Some? && Same(fs[i].value, Get(gs, fs[i].key).value))
      && (forall j | 0 <= j < |gs| :: HasKey(fs, gs[j].key))
    case _ => a == b
  }

  // ---- Normal form: every object sorted ----

  function NormalItems(xs: seq<Json>): (r: seq<Json>)
    ensures |r| == |xs|
    ensures forall i | 0 <= i < |xs| :: r[i] == Normal(xs[i])
    decreases xs
  {
    if xs == [] then [] else [Normal(xs[0])] + NormalItems(xs[1..])
  }

  function NormalFields(fs: seq<Field>): (r: seq<Field>)
    ensures |r| == |fs|
    ensures forall i | 0 <= i < |fs| :: r[i] == Field(fs[i].key, Normal(fs[i].value))
    decreases fs
  {
    if fs == [] then [] else [Field(fs[0].key, Normal(fs[0].value))] + NormalFields(fs[1..])
  }

  function KeyOf(f: Field): string { f.key }

  /** `sort_keys=True` at one level. */
  function SortFields(fs: seq<Field>): seq<Field>
  {
    SortBy(KeyOf, fs)
  }

  function Normal(v: Json): Json
    decreases v
  {
    match v
    case Arr(xs) => Arr(NormalItems(xs))
    case Obj(fs) => Obj(SortFields(NormalFields(fs)))
    case _ => v
  }

  lemma SortedFields(fs: seq<Field>)
    requires Distinct(fs)
    ensures forall f :: f in SortFields(fs) <==> f in fs
    ensures |SortFields(fs)| == |fs| && Distinct(SortFields(fs)) && AscendingBy(KeyOf, SortFields(fs))
  {
    SortMembers(KeyOf, fs);
    SortAscending(KeyOf, fs);
    AscendingDistinct(KeyOf, SortFields(fs));
    assert DistinctBy(KeyOf, SortFields(fs));
  }

  lemma {:induction false} NormalWellFormed(v: Json)
    requires WellFormed(v)
    ensures WellFormed(Normal(v))
    decreases v
  {
    match v
    case Arr(xs) =>
      forall i | 0 <= i < |xs| ensures WellFormed(Normal(xs[i])) { NormalWellFormed(xs[i]); }
    case Obj(fs) =>
      var ns := NormalFields(fs);
      SortedFields(ns);
      forall i | 0 <= i < |fs| ensures WellFormed(Normal(fs[i].value)) { NormalWellFormed(fs[i].value); }
      forall k | 0 <= k < |SortFields(ns)| ensures WellFormed(SortFields(ns)[k].value) {
        assert SortFields(ns)[k] in ns;
      }
    case _ =>
  }

  /** Equal documents, and only those, have the same normal form. */
  lemma {:induction false} SameIffNormal(a: Json, b: Json)
    requires WellFormed(a) && WellFormed(b)
    ensures Same(a, b) <==> Normal(a) == Normal(b)
    decreases a
  {
    match (a, b)
    case (Arr(xs), Arr(ys)) =>
      if |xs| == |ys| {
        forall i | 0 <= i < |xs| ensures Same(xs[i], ys[i]) <==> NormalItems(xs)[i] == NormalItems(ys)[i] {
          SameIffNormal(xs[i], ys[i]);
        }
        if Same(a, b) {
          assert NormalItems(xs) == NormalItems(ys);
        }
      } else {
        assert |NormalItems(xs)| != |NormalItems(ys)|;
      }
    case (Obj(fs), Obj(gs)) =>
      forall i | 0 <= i < |fs| && Get(gs, fs[i].key).Some?
        ensures Same(fs[i].value, Get(gs, fs[i].key).value)
           <==> Normal(fs[i].value) == Normal(Get(gs, fs[i].key).value)
      {
        SameIffNormal(fs[i].value, Get(gs, fs[i].key).value);
      }
      if Same(a, b) { MatchedObjectsNormal(fs, gs); }
      if Normal(a) == Normal(b) { NormalObjectsMatch(fs, gs); }
    case _ =>
  }

  lemma MatchedFieldsNormal(fs: seq<Field>, gs: seq<Field>, f: Field)
    requires Distinct(gs)
    requires forall i | 0 <= i < |fs| ::
             Get(gs, fs[i].key).Some? && Normal(fs[i].value) == Normal(Get(gs, fs[i].key).value)
    requires forall j | 0 <= j < |gs| :: HasKey(fs, gs[j].key)
    ensures f in NormalFields(fs) <==> f in NormalFields(gs)
  {
    var ns, ms := NormalFields(fs), NormalFields(gs);
    if f in ns {
      var i :| 0 <= i < |ns| && ns[i] == f;
      var j :| 0 <= j < |gs| && gs[j] == Field(fs[i].key, Get(gs, fs[i].key).value);
      assert ms[j] == f;
    }
    if f in ms {
      var j :| 0 <= j < |ms| && ms[j] == f;
      var i :| 0 <= i < |fs| && fs[i].key == gs[j].key;
      GetAt(gs, j);
      assert ns[i] == f;
    }
  }

  lemma NormalFieldsDistinct(fs: seq<Field>)
    requires Distinct(fs)
    ensures DistinctBy(KeyOf, NormalFields(fs))
  {
  }

  lemma {:induction false} MatchedObjectsNormal(fs: seq<Field>, gs: seq<Field>)
    requires Distinct(fs) && Distinct(gs)
    requires forall i | 0 <= i < |fs| ::
             Get(gs, fs[i].key).Some? && Normal(fs[i].value) == Normal(Get(gs, fs[i].key).value)
    requires forall j | 0 <= j < |gs| :: HasKey(fs, gs[j].key)
    ensures Normal(Obj(fs)) == Normal(Obj(gs))
  {
    forall f ensures f in NormalFields(fs) <==> f in NormalFields(gs) {
      MatchedFieldsNormal(fs, gs, f);
    }
    NormalFieldsDistinct(fs);
    NormalFieldsDistinct(gs);
    SortedAlike(KeyOf, NormalFields(fs), NormalFields(gs));
  }

  lemma NormalObjectsMatch(fs: seq<Field>, gs: seq<Field>)
    requires Distinct(fs) && Distinct(gs) && Normal(Obj(fs)) == Normal(Obj(gs))
    ensures forall i | 0 <= i < |fs| ::
            Get(gs, fs[i].key).Some? && Normal(fs[i].value) == Normal(Get(gs, fs[i].key).value)
    ensures forall j | 0 <= j < |gs| :: HasKey(fs, gs[j].key)
  {
    var ns, ms := NormalFields(fs), NormalFields(gs);
    SortedFields(ns);
    SortedFields(ms);
    forall i | 0 <= i < |fs|
      ensures Get(gs, fs[i].key).Some? && Normal(fs[i].value) == Normal(Get(gs, fs[i].key).value)
    {
      assert ns[i] in SortFields(ms);
      var j :| 0 <= j < |ms| && ms[j] == ns[i];
      GetAt(gs, j);
    }
    forall j | 0 <= j < |gs| ensures HasKey(fs, gs[j].key) {
      assert ms[j] in SortFields(ns);
      var i :| 0 <= i < |ns| && ns[i] == ms[j];
      assert fs[i].key == gs[j].key;
    }
  }

  lemma {:induction false} NormalIdempotent(v: Json)
    requires WellFormed(v)
    ensures Normal(Normal(v)) == Normal(v)
    decreases v
  {
    match v
    case Arr(xs) =>
      forall i | 0 <= i < |xs| ensures Normal(Normal(xs[i])) == Normal(xs[i]) { NormalIdempotent(xs[i]); }
      assert NormalItems(NormalItems(xs)) == NormalItems(xs);
    case Obj(fs) =>
      var ns := NormalFields(fs);
      var ss := SortFields(ns);
      SortedFields(ns);
      forall i | 0 <= i < |fs| ensures Normal(Normal(fs[i].value)) == Normal(fs[i].value) {
        NormalIdempotent(fs[i].value);
      }
      forall k | 0 <= k < |ss| ensures Normal(ss[k].value) == ss[k].value {
        assert ss[k] in ns;
      }
      assert NormalFields(ss) == ss;
      SortedFields(ss);
      AscendingUnique(KeyOf, SortFields(ss), ss);
    case _ =>
  }

  lemma NormalSame(v: Json)
    requires WellFormed(v)
    ensures WellFormed(Normal(v)) && Same(v, Normal(v)) && Same(Normal(v), v)
  {
    NormalWellFormed(v);
    NormalIdempotent(v);
    SameIffNormal(v, Normal(v));
    SameIffNormal(Normal(v), v);
  }

  /** Equal objects listed with the same keys in the same order are equal field by field. */
  lemma SameAligned(fs: seq<Field>, gs: seq<Field>)
    requires Distinct(gs) && |fs| == |gs| && Same(Obj(fs), Obj(gs))
    requires forall i | 0 <= i < |fs| :: fs[i].key == gs[i].key
    ensures forall i | 0 <= i < |fs| :: Same(fs[i].value, gs[i].value)
  {
    forall i | 0 <= i < |fs| ensures Same(fs[i].value, gs[i].value) {
      GetAt(gs, i);
    }
  }

  /** Equal objects agree on every key. */
  lemma SameGet(fs: seq<Field>, gs: seq<Field>, key: string)
    requires Distinct(fs) && Same(Obj(fs), Obj(gs))
    ensures Get(fs, key).Some? <==> Get(gs, key).Some?
    ensures Get(fs, key).Some? ==> Same(Get(fs, key).value, Get(gs, key).value)
  {
    if HasKey(fs, key) {
      var i :| 0 <= i < |fs| && fs[i].key == key;
      GetAt(fs, i);
    }
    if HasKey(gs, key) {
      var j :| 0 <= j < |gs| && gs[j].key == key;
      assert HasKey(fs, gs[j].key);
    }
  }

  lemma SameSymmetric(a: Json, b: Json)
    requires WellFormed(a) && WellFormed(b) && Same(a, b)
    ensures Same(b, a)
  {
    SameIffNormal(a, b);
    SameIffNormal(b, a);
  }

  lemma SameTransitive(a: Json, b: Json, c: Json)
    requires WellFormed(a) && WellFormed(b) && WellFormed(c) && Same(a, b) && Same(b, c)
    ensures Same(a, c)
  {
    SameIffNormal(a, b);
    SameIffNormal(b, c);
    SameIffNormal(a, c);
  }
}
