/**
 The privacy filter on snapshots. `lower` stands for Python's `str.lower`; nothing is assumed of it.
 */
module Privacy {
  import opened Prelude
  import opened Json

  const PRIVATE_SNAPSHOT_KEYS: set<string> :=
    {"address", "api_key", "filename", "host", "hostname", "ip", "message", "socket_path", "url"}

  type Lower = string -> string

  predicate Private(lower: Lower, key: string)
  {
    lower(key) in PRIVATE_SNAPSHOT_KEYS
  }

  // ---- Values: prune every private key at any depth ----

  function Prune(lower: Lower, v: Json): Json
    decreases v
  {
    match v
    case Arr(xs) => Arr(PruneItems(lower, xs))
    case Obj(fs) => Obj(PruneFields(lower, fs))
    case _ => v
  }

  function PruneItems(lower: Lower, xs: seq<Json>): (r: seq<Json>)
    ensures |r| == |xs| && forall i | 0 <= i < |xs| :: r[i] == Prune(lower, xs[i])
    decreases xs
  {
    if xs == [] then [] else [Prune(lower, xs[0])] + PruneItems(lower, xs[1..])
  }

  function PruneFields(lower: Lower, fs: seq<Field>): seq<Field>
    decreases fs
  {
    if fs == [] then []
    else
      (if Private(lower, fs[0].key) then [] else [Field(fs[0].key, Prune(lower, fs[0].value))])
      + PruneFields(lower, fs[1..])
  }

  function PruneOption(lower: Lower, v: Option<Json>): Option<Json>
  {
    match v case None => None case Some(w) => Some(Prune(lower, w))
  }

  lemma {:induction false} GetPruned(lower: Lower, fs: seq<Field>, key: string)
    ensures Get(PruneFields(lower, fs), key)
         == if Private(lower, key) then None else PruneOption(lower, Get(fs, key))
  {
    if fs != [] {
      GetPruned(lower, fs[1..], key);
      var rest := PruneFields(lower, fs[1..]);
      if !Private(lower, fs[0].key) {
        assert ([Field(fs[0].key, Prune(lower, fs[0].value))] + rest)[1..] == rest;
      } else {
        assert [] + rest == rest;
      }
    }
  }

  lemma {:induction false} PrunedMember(lower: Lower, fs: seq<Field>, f: Field)
    ensures f in PruneFields(lower, fs) <==>
            exists i :: 0 <= i < |fs| && !Private(lower, fs[i].key) && f == Field(fs[i].key, Prune(lower, fs[i].value))
  {
    if fs != [] {
      PrunedMember(lower, fs[1..], f);
      assert forall i | 0 <= i < |fs[1..]| :: fs[1..][i] == fs[i + 1];
      assert forall i | 1 <= i < |fs| :: fs[i] == fs[1..][i - 1];
    }
  }

  lemma {:induction false} PruneWellFormed(lower: Lower, v: Json)
    requires WellFormed(v)
    ensures WellFormed(Prune(lower, v))
    decreases v
  {
    match v
    case Arr(xs) =>
      forall i | 0 <= i < |xs| ensures WellFormed(Prune(lower, xs[i])) { PruneWellFormed(lower, xs[i]); }
    case Obj(fs) =>
      forall i | 0 <= i < |fs| ensures WellFormed(Prune(lower, fs[i].value)) { PruneWellFormed(lower, fs[i].value); }
      PruneFieldsDistinct(lower, fs);
      forall k | 0 <= k < |PruneFields(lower, fs)| ensures WellFormed(PruneFields(lower, fs)[k].value) {
        PrunedMember(lower, fs, PruneFields(lower, fs)[k]);
      }
    case _ =>
  }

  lemma {:induction false} PruneFieldsDistinct(lower: Lower, fs: seq<Field>)
    requires Distinct(fs)
    ensures Distinct(PruneFields(lower, fs))
  {
    if fs != [] {
      var rest := PruneFields(lower, fs[1..]);
      PruneFieldsDistinct(lower, fs[1..]);
      forall k | 0 <= k < |rest| ensures rest[k].key != fs[0].key {
        PrunedMember(lower, fs[1..], rest[k]);
      }
    }
  }

  // ---- Paths ----

  datatype Step = Key(key: string) | Index(i: nat)

  function At(v: Json, path: seq<Step>): Option<Json>
    decreases |path|
  {
    if path == [] then Some(v)
    else match (v, path[0])
      case (Obj(fs), Key(k)) =>
        (match Get(fs, k) case None => None case Some(w) => At(w, path[1..]))
      case (Arr(xs), Index(i)) => if i < |xs| then At(xs[i], path[1..]) else None
      case _ => None
  }

  predicate Clean(lower: Lower, path: seq<Step>)
  {
    forall i | 0 <= i < |path| && path[i].Key? :: !Private(lower, path[i].key)
  }

  /** Pruning keeps exactly the paths without a private key, and at each of them the pruned value. */
  lemma {:induction false} PruneIsExact(lower: Lower, v: Json, path: seq<Step>)
    ensures At(Prune(lower, v), path)
         == if Clean(lower, path) then PruneOption(lower, At(v, path)) else None
    decreases |path|
  {
    if path != [] {
      var rest := path[1..];
      assert Clean(lower, path) <==>
             (path[0].Key? ==> !Private(lower, path[0].key)) && Clean(lower, rest) by {
        assert forall i | 1 <= i < |path| :: path[i] == rest[i - 1];
        assert forall i | 0 <= i < |rest| :: rest[i] == path[i + 1];
      }
      match (v, path[0])
      case (Obj(fs), Key(k)) =>
        GetPruned(lower, fs, k);
        if Get(fs, k).Some? { PruneIsExact(lower, Get(fs, k).value, rest); }
      case (Arr(xs), Index(i)) =>
        if i < |xs| { PruneIsExact(lower, xs[i], rest); }
      case _ =>
    }
  }

  /** No private key at any depth. */
  predicate Public(lower: Lower, v: Json)
  {
    match v
    case Arr(xs) => forall i | 0 <= i < |xs| :: Public(lower, xs[i])
    case Obj(fs) => forall i | 0 <= i < |fs| :: !Private(lower, fs[i].key) && Public(lower, fs[i].value)
    case _ => true
  }

  lemma {:induction false} PruneIsPublic(lower: Lower, v: Json)
    ensures Public(lower, Prune(lower, v))
    decreases v
  {
    match v
    case Arr(xs) =>
      forall i | 0 <= i < |xs| ensures Public(lower, Prune(lower, xs[i])) { PruneIsPublic(lower, xs[i]); }
    case Obj(fs) =>
      forall i | 0 <= i < |fs| ensures Public(lower, Prune(lower, fs[i].value)) { PruneIsPublic(lower, fs[i].value); }
      forall k | 0 <= k < |PruneFields(lower, fs)|
        ensures !Private(lower, PruneFields(lower, fs)[k].key) && Public(lower, PruneFields(lower, fs)[k].value)
      {
        PrunedMember(lower, fs, PruneFields(lower, fs)[k]);
      }
    case _ =>
  }

  /** The values the filter leaves alone are exactly those without a private key. */
  lemma {:induction false} FixedIffPublic(lower: Lower, v: Json)
    ensures Prune(lower, v) == v <==> Public(lower, v)
    decreases v
  {
    if Prune(lower, v) == v {
      PruneIsPublic(lower, v);
    }
    if Public(lower, v) {
      match v
      case Arr(xs) =>
        forall i | 0 <= i < |xs| ensures Prune(lower, xs[i]) == xs[i] { FixedIffPublic(lower, xs[i]); }
        assert PruneItems(lower, xs) == xs;
      case Obj(fs) => PublicFieldsFixed(lower, fs);
      case _ =>
    }
  }

  lemma {:induction false} PublicFieldsFixed(lower: Lower, fs: seq<Field>)
    requires forall i | 0 <= i < |fs| :: !Private(lower, fs[i].key) && Public(lower, fs[i].value)
    ensures PruneFields(lower, fs) == fs
    decreases fs
  {
    if fs != [] {
      FixedIffPublic(lower, fs[0].value);
      PublicFieldsFixed(lower, fs[1..]);
      assert fs == [fs[0]] + fs[1..];
    }
  }

  lemma PruneIdempotent(lower: Lower, v: Json)
    ensures Prune(lower, Prune(lower, v)) == Prune(lower, v)
  {
    PruneIsPublic(lower, v);
    FixedIffPublic(lower, Prune(lower, v));
  }

  /** A field that survives in `fs` survives in any `gs` with the same keys, at the pruned value found there. */
  lemma PrunedMatch(lower: Lower, fs: seq<Field>, gs: seq<Field>, p: Field)
    requires p in PruneFields(lower, fs)
    requires forall i | 0 <= i < |fs| :: Get(gs, fs[i].key).Some?
    ensures exists i :: 0 <= i < |fs| && p == Field(fs[i].key, Prune(lower, fs[i].value))
                        && Get(PruneFields(lower, gs), p.key) == Some(Prune(lower, Get(gs, fs[i].key).value))
  {
    PrunedMember(lower, fs, p);
    var i :| 0 <= i < |fs| && !Private(lower, fs[i].key) && p == Field(fs[i].key, Prune(lower, fs[i].value));
    GetPruned(lower, gs, fs[i].key);
  }

  lemma PrunedKeys(lower: Lower, fs: seq<Field>, gs: seq<Field>)
    requires forall j | 0 <= j < |gs| :: HasKey(fs, gs[j].key)
    ensures forall k | 0 <= k < |PruneFields(lower, gs)| ::
            HasKey(PruneFields(lower, fs), PruneFields(lower, gs)[k].key)
  {
    var qs := PruneFields(lower, gs);
    forall k | 0 <= k < |qs| ensures HasKey(PruneFields(lower, fs), qs[k].key) {
      PrunedMember(lower, gs, qs[k]);
      GetPruned(lower, fs, qs[k].key);
    }
  }

  /** Equal dicts are pruned to equal dicts. */
  lemma {:induction false} PruneRespectsSame(lower: Lower, a: Json, b: Json)
    requires Same(a, b)
    ensures Same(Prune(lower, a), Prune(lower, b))
    decreases a
  {
    match (a, b)
    case (Arr(xs), Arr(ys)) =>
      forall i | 0 <= i < |xs| ensures Same(Prune(lower, xs[i]), Prune(lower, ys[i])) {
        PruneRespectsSame(lower, xs[i], ys[i]);
      }
    case (Obj(fs), Obj(gs)) =>
      var ps, qs := PruneFields(lower, fs), PruneFields(lower, gs);
      forall k | 0 <= k < |ps| ensures Get(qs, ps[k].key).Some? && Same(ps[k].value, Get(qs, ps[k].key).value) {
        PrunedMatch(lower, fs, gs, ps[k]);
        var i :| 0 <= i < |fs| && ps[k] == Field(fs[i].key, Prune(lower, fs[i].value))
                 && Get(qs, ps[k].key) == Some(Prune(lower, Get(gs, fs[i].key).value));
        PruneRespectsSame(lower, fs[i].value, Get(gs, fs[i].key).value);
      }
      PrunedKeys(lower, fs, gs);
    case _ =>
  }
}
