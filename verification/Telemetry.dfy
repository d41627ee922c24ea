/** Folding partial printer updates into one status, and what the folded status means. */
module Telemetry {
  import opened Prelude

  /** A reported object: a dict of fields, or anything else JSON allows. */
  datatype Value<V> = Object(fields: map<string, V>) | Other(v: V)

  type Status<V> = map<string, Value<V>>

  function Combine<V>(current: Option<Value<V>>, update: Value<V>): Value<V>
  {
    if update.Object? && current.Some? && current.value.Object?
    then Object(current.value.fields + update.fields)
    else update
  }

  function Lookup<V>(s: Status<V>, name: string): Option<Value<V>>
  {
    if name in s then Some(s[name]) else None
  }

  /** `merge_status` as a function of the two dicts. */
  function Merge<V>(current: Status<V>, update: Status<V>): (r: Status<V>)
  {
    map name | name in current.Keys + update.Keys ::
      if name in update then Combine(Lookup(current, name), update[name]) else current[name]
  }

  function Apply<V>(s: Status<V>, log: seq<Status<V>>): Status<V>
  {
    if log == [] then s else Merge(Apply(s, log[..|log| - 1]), log[|log| - 1])
  }

  function Fold<V>(log: seq<Status<V>>): Status<V>
  {
    Apply(map[], log)
  }

  // ---- The meaning of a folded status ----

  ghost predicate Mentions<V>(log: seq<Status<V>>, name: string, i: int)
  {
    0 <= i < |log| && name in log[i]
  }

  ghost predicate ResetAt<V>(log: seq<Status<V>>, name: string, i: int)
  {
    Mentions(log, name, i) && log[i][name].Other?
  }

  ghost predicate SetsAt<V>(log: seq<Status<V>>, name: string, field: string, i: int)
  {
    Mentions(log, name, i) && log[i][name].Object? && field in log[i][name].fields
  }

  ghost predicate HasReset<V>(log: seq<Status<V>>, name: string)
  {
    exists i :: ResetAt(log, name, i)
  }

  ghost predicate LastMention<V>(log: seq<Status<V>>, name: string, i: int)
  {
    Mentions(log, name, i) && forall j :: Mentions(log, name, j) ==> j <= i
  }

  /** The update at `i` is the last to set `field` of `name`, and nothing reset `name` since. */
  ghost predicate LatestField<V>(log: seq<Status<V>>, name: string, field: string, i: int)
  {
    && SetsAt(log, name, field, i)
    && (forall j :: SetsAt(log, name, field, j) ==> j <= i)
    && (forall j :: ResetAt(log, name, j) ==> j < i)
  }

  /** Each field has the value of its latest update since the last reset, and there are no other fields. */
  ghost predicate FieldsMean<V>(log: seq<Status<V>>, name: string, fields: map<string, V>)
  {
    && (forall f | f in fields :: exists i :: LatestField(log, name, f, i) && fields[f] == log[i][name].fields[f])
    && (forall f, i | LatestField(log, name, f, i) :: f in fields)
  }

  /** The value of `name` according to the log, without folding anything. */
  ghost predicate Meaning<V>(log: seq<Status<V>>, name: string, value: Option<Value<V>>)
  {
    match value
    case None => forall i :: !Mentions(log, name, i)
    case Some(Other(_)) => exists i :: LastMention(log, name, i) && log[i][name] == value.value
    case Some(Object(fields)) =>
      (exists i :: LastMention(log, name, i) && log[i][name].Object?) && FieldsMean(log, name, fields)
  }

  /** The log leaves no choice. */
  lemma MeaningUnique<V>(log: seq<Status<V>>, name: string, a: Option<Value<V>>, b: Option<Value<V>>)
    requires Meaning(log, name, a) && Meaning(log, name, b)
    ensures a == b
  {
    if a.Some? && b.Some? && a.value.Object? && b.value.Object? {
      var fs, gs := a.value.fields, b.value.fields;
      forall f ensures f in fs <==> f in gs {}
      forall f | f in fs ensures fs[f] == gs[f] {
        var i :| LatestField(log, name, f, i) && fs[f] == log[i][name].fields[f];
        var j :| LatestField(log, name, f, j) && gs[f] == log[j][name].fields[f];
        assert i == j;
      }
      assert fs == gs;
    }
  }

  lemma Extended<V>(log: seq<Status<V>>, u: Status<V>, name: string)
    ensures forall i :: Mentions(log + [u], name, i) <==> Mentions(log, name, i) || (i == |log| && name in u)
    ensures forall i :: ResetAt(log + [u], name, i) <==>
              ResetAt(log, name, i) || (i == |log| && name in u && u[name].Other?)
    ensures forall f, i :: SetsAt(log + [u], name, f, i)
              <==> SetsAt(log, name, f, i) || (i == |log| && name in u && u[name].Object? && f in u[name].fields)
  {
    assert forall i | 0 <= i < |log| :: (log + [u])[i] == log[i];
  }

  lemma MeaningUnmentioned<V>(log: seq<Status<V>>, u: Status<V>, name: string, value: Option<Value<V>>)
    requires Meaning(log, name, value) && name !in u
    ensures Meaning(log + [u], name, value)
  {
    Extended(log, u, name);
    if value.Some? {
      var i :| LastMention(log, name, i)
        && if value.value.Object? then log[i][name].Object? else log[i][name] == value.value;
      assert LastMention(log + [u], name, i);
      if value.value.Object? {
        forall f, i ensures LatestField(log + [u], name, f, i) <==> LatestField(log, name, f, i) {}
      }
    }
  }

  lemma FieldsExtended<V>(log: seq<Status<V>>, u: Status<V>, name: string, fields: map<string, V>)
    requires name in u && u[name].Object? && FieldsMean(log, name, fields)
    ensures FieldsMean(log + [u], name, fields + u[name].fields)
  {
    var log': seq<Status<V>>, fields' := log + [u], fields + u[name].fields;
    Extended(log, u, name);
    forall f | f in fields' ensures exists i :: LatestField(log', name, f, i) && fields'[f] == log'[i][name].fields[f] {
      if f in u[name].fields {
        assert LatestField(log', name, f, |log|);
      } else {
        var i :| LatestField(log, name, f, i) && fields[f] == log[i][name].fields[f];
        assert LatestField(log', name, f, i);
      }
    }
    forall f, i | LatestField(log', name, f, i) ensures f in fields' {
      if i < |log| { assert LatestField(log, name, f, i); }
    }
  }

  /** No field is left from before a reset, or from before the object was first reported. */
  lemma NoFieldsYet<V>(log: seq<Status<V>>, name: string, value: Option<Value<V>>)
    requires Meaning(log, name, value) && !(value.Some? && value.value.Object?)
    ensures FieldsMean(log, name, map[])
  {
    if value.Some? {
      var i :| LastMention(log, name, i) && log[i][name] == value.value;
      assert ResetAt(log, name, i);
    }
    forall f, i ensures !LatestField(log, name, f, i) {}
  }

  lemma MeaningStep<V>(log: seq<Status<V>>, u: Status<V>, name: string, value: Option<Value<V>>)
    requires Meaning(log, name, value) && name in u
    ensures Meaning(log + [u], name, Some(Combine(value, u[name])))
  {
    Extended(log, u, name);
    assert LastMention(log + [u], name, |log|);
    if u[name].Object? {
      if value.Some? && value.value.Object? {
        FieldsExtended(log, u, name, value.value.fields);
      } else {
        NoFieldsYet(log, name, value);
        FieldsExtended(log, u, name, map[]);
        assert map[] + u[name].fields == u[name].fields;
      }
    }
  }

  /** The folded status says of every object what the log means: its last value if that is not an object,
      and otherwise each field's latest value since the last reset. */
  lemma {:induction false} FoldMeaning<V>(log: seq<Status<V>>, name: string)
    ensures Meaning(log, name, Lookup(Fold(log), name))
  {
    if log != [] {
      var n := |log| - 1;
      var u := log[n];
      FoldMeaning(log[..n], name);
      assert log == log[..n] + [u];
      if name in u {
        MeaningStep(log[..n], u, name, Lookup(Fold(log[..n]), name));
      } else {
        MeaningUnmentioned(log[..n], u, name, Lookup(Fold(log[..n]), name));
      }
    }
  }

  /** The snapshots a consumer is given: the fold of every prefix of the log. */
  function Yields<V>(log: seq<Status<V>>): seq<Status<V>>
  {
    if log == [] then [] else Yields(log[..|log| - 1]) + [Fold(log)]
  }

  /** So each snapshot means exactly the updates up to its own. */
  lemma {:induction false} SnapshotMeaning<V>(log: seq<Status<V>>, i: nat, name: string)
    requires i < |log|
    ensures |Yields(log)| == |log| && Meaning(log[..i + 1], name, Lookup(Yields(log)[i], name))
  {
    if log[1..] == [] {
      assert log[..0] == [] && log[..1] == log;
      FoldMeaning(log, name);
    } else if i == |log| - 1 {
      SnapshotMeaning(log[..|log| - 1], 0, name);
      assert log[..i + 1] == log;
      FoldMeaning(log, name);
    } else {
      SnapshotMeaning(log[..|log| - 1], i, name);
      assert log[..|log| - 1][..i + 1] == log[..i + 1];
    }
  }

  // ---- Merging a batch first ----

  lemma HasResetStep<V>(log: seq<Status<V>>, name: string)
    requires log != []
    ensures var n := |log| - 1;
            HasReset(log, name) <==> HasReset(log[..n], name) || (name in log[n] && log[n][name].Other?)
  {
    var n := |log| - 1;
    if HasReset(log, name) {
      var i :| ResetAt(log, name, i);
      if i < n { assert ResetAt(log[..n], name, i); }
    }
    if HasReset(log[..n], name) {
      var i :| ResetAt(log[..n], name, i);
      assert ResetAt(log, name, i);
    }
    if name in log[n] && log[n][name].Other? { assert ResetAt(log, name, n); }
  }

  function CombineOption<V>(current: Option<Value<V>>, update: Option<Value<V>>): Option<Value<V>>
  {
    match update case None => current case Some(u) => Some(Combine(current, u))
  }

  lemma LookupMerge<V>(s: Status<V>, u: Status<V>, name: string)
    ensures Lookup(Merge(s, u), name) == CombineOption(Lookup(s, name), Lookup(u, name))
  {
  }

  lemma CombineAssociates<V>(a: Option<Value<V>>, b: Option<Value<V>>, c: Option<Value<V>>)
    requires !(b.Some? && b.value.Other?)
    ensures CombineOption(CombineOption(a, b), c) == CombineOption(a, CombineOption(b, c))
  {
    if a.Some? && a.value.Object? && b.Some? && c.Some? && c.value.Object? {
      assert (a.value.fields + b.value.fields) + c.value.fields == a.value.fields + (b.value.fields + c.value.fields);
    }
  }

  lemma FoldOne<V>(u: Status<V>)
    ensures Fold([u]) == u
  {
    var none: Status<V> := map[];
    assert [u][..0] == [];
    assert Merge(none, u) == u;
    assert Apply(none, [u]) == Merge(Apply(none, []), u);
  }

  lemma OtherMeansReset<V>(log: seq<Status<V>>, name: string)
    requires name in Fold(log) && Fold(log)[name].Other?
    ensures HasReset(log, name)
  {
    FoldMeaning(log, name);
    var i :| LastMention(log, name, i) && log[i][name] == Fold(log)[name];
    assert ResetAt(log, name, i);
  }

  /** One by one, a reset in the log hides the old status; merged as a batch, it may not. */
  lemma {:induction false} OneByOne<V>(s: Status<V>, log: seq<Status<V>>, name: string)
    ensures Lookup(Apply(s, log), name)
         == if HasReset(log, name) then Lookup(Fold(log), name)
            else CombineOption(Lookup(s, name), Lookup(Fold(log), name))
    ensures HasReset(log, name) ==> name in Fold(log)
  {
    if log != [] {
      var before, u := log[..|log| - 1], log[|log| - 1];
      OneByOne(s, before, name);
      HasResetStep(log, name);
      LookupMerge(Apply(s, before), u, name);
      LookupMerge(Fold(before), u, name);
      if !HasReset(before, name) {
        if name in Fold(before) && Fold(before)[name].Other? { OtherMeansReset(before, name); }
        CombineAssociates(Lookup(s, name), Lookup(Fold(before), name), Lookup(u, name));
      }
    }
  }

  /** What a batch could keep by mistake: a field the old status had, gone by a reset inside the batch,
      of an object the batch then reports again. */
  ghost predicate Resurrects<V>(s: Status<V>, log: seq<Status<V>>, name: string)
  {
    && HasReset(log, name) && name in s && name in Fold(log)
    && s[name].Object? && Fold(log)[name].Object?
    && !(s[name].fields.Keys <= Fold(log)[name].fields.Keys)
  }

  lemma Absorbed<V>(stored: map<string, V>, latest: map<string, V>)
    ensures stored + latest == latest <==> stored.Keys <= latest.Keys
  {
    assert (stored + latest).Keys == stored.Keys + latest.Keys;
    if stored + latest == latest { assert stored.Keys + latest.Keys == latest.Keys; }
  }

  lemma BatchAgrees<V>(s: Status<V>, log: seq<Status<V>>, name: string)
    ensures Lookup(Apply(s, log), name) == Lookup(Merge(s, Fold(log)), name) <==> !Resurrects(s, log, name)
  {
    OneByOne(s, log, name);
    LookupMerge(s, Fold(log), name);
    if HasReset(log, name) && name in s && s[name].Object? && Fold(log)[name].Object? {
      Absorbed(s[name].fields, Fold(log)[name].fields);
    }
  }

  /** Exactly when merging a batch first and applying it once equals applying the updates one by one. */
  lemma BatchIffNothingResurrects<V>(s: Status<V>, log: seq<Status<V>>)
    ensures Apply(s, log) == Merge(s, Fold(log)) <==> forall name :: !Resurrects(s, log, name)
  {
    var one, batch := Apply(s, log), Merge(s, Fold(log));
    forall name ensures Lookup(one, name) == Lookup(batch, name) <==> !Resurrects(s, log, name) {
      BatchAgrees(s, log, name);
    }
    if forall name :: !Resurrects(s, log, name) {
      forall name ensures name in one <==> name in batch { assert Lookup(one, name) == Lookup(batch, name); }
      forall name | name in one ensures one[name] == batch[name] { assert Lookup(one, name) == Lookup(batch, name); }
    }
  }

  /** In particular it does when every update reports objects only. */
  lemma ObjectBatches<V>(s: Status<V>, log: seq<Status<V>>)
    requires forall i, name | Mentions(log, name, i) :: log[i][name].Object?
    ensures Apply(s, log) == Merge(s, Fold(log))
  {
    BatchIffNothingResurrects(s, log);
  }

  lemma ApplyTwo<V>(s: Status<V>, a: Status<V>, b: Status<V>)
    ensures Apply(s, [a, b]) == Merge(Merge(s, a), b)
  {
    assert [a, b][..1] == [a] && [a][..0] == [];
    assert Apply(s, [a]) == Merge(Apply(s, []), a);
  }

  /** A fan, then the fan gone, then a fan with another field. */
  function RunningFan(): Status<int>
  {
    map["fan" := Object(map["rpm" := 900])]
  }

  function FanReturns(): seq<Status<int>>
  {
    [map["fan" := Other(0)], map["fan" := Object(map["speed" := 1])]]
  }

  lemma FanOneByOne()
    ensures Apply(RunningFan(), FanReturns()) == map["fan" := Object(map["speed" := 1])]
  {
    ApplyTwo(RunningFan(), FanReturns()[0], FanReturns()[1]);
    assert Merge(RunningFan(), FanReturns()[0]) == map["fan" := Other(0)];
  }

  lemma FanBatched()
    ensures Merge(RunningFan(), Fold(FanReturns())) == map["fan" := Object(map["rpm" := 900, "speed" := 1])]
  {
    ApplyTwo(map[], FanReturns()[0], FanReturns()[1]);
    assert Fold(FanReturns()) == map["fan" := Object(map["speed" := 1])];
    assert map["rpm" := 900] + map["speed" := 1] == map["rpm" := 900, "speed" := 1];
  }

  /** And in general it does not: a sensor that goes away and comes back must not keep its old reading. */
  lemma BatchesCanDiffer()
    ensures var s: Status<int> := map["fan" := Object(map["rpm" := 900])];
            var log: seq<Status<int>> := [map["fan" := Other(0)], map["fan" := Object(map["speed" := 1])]];
            && Apply(s, log) == map["fan" := Object(map["speed" := 1])]
            && Merge(s, Fold(log)) == map["fan" := Object(map["rpm" := 900, "speed" := 1])]
  {
    FanOneByOne();
    FanBatched();
  }

  // ---- The program ----

  /** What a message on the printer's socket amounts to: an answer, a status update, both or neither. */
  datatype Incoming<V> =
    | Malformed
    | Message(id: Option<int>, failed: bool, result: Option<Option<Status<V>>>, update: Option<Status<V>>)

  datatype Failure = Disconnected | BadMessage | Refused | NotAnObject

  /** The first message that ends a wait for the answer to `id`. */
  function AnswerAt<V>(inbox: seq<Incoming<V>>, id: int): (k: nat)
    ensures k <= |inbox|
    ensures forall i | 0 <= i < k :: inbox[i].Message? && inbox[i].id != Some(id)
    ensures k < |inbox| ==> inbox[k].Malformed? || inbox[k].id == Some(id)
  {
    if inbox == [] || inbox[0].Malformed? || inbox[0].id == Some(id) then 0 else 1 + AnswerAt(inbox[1..], id)
  }

  function AnswerOf<V>(m: Incoming<V>): Result<Option<Status<V>>, Failure>
  {
    if m.Malformed? then Err(BadMessage)
    else if m.failed then Err(Refused)
    else match m.result case None => Err(NotAnObject) case Some(reply) => Ok(reply)
  }

  /** The status updates among messages, up to the first that breaks the stream. */
  function UpdatesOf<V>(inbox: seq<Incoming<V>>): seq<Status<V>>
  {
    if inbox == [] || inbox[0].Malformed? then []
    else (match inbox[0].update case None => [] case Some(u) => [u]) + UpdatesOf(inbox[1..])
  }

  class StatusTable<V> {
    var objects: Status<V>

    constructor ()
      ensures objects == map[]
    {
      objects := map[];
    }

    /** One pass over the update, in any order. */
    method MergeStatus(update: Status<V>)
      modifies this
      ensures objects == Merge(old(objects), update)
    {
      var names := update.Keys;
      while names != {}
        invariant names <= update.Keys
        invariant objects.Keys == old(objects).Keys + (update.Keys - names)
        invariant forall n | n in objects ::
                    objects[n] == if n in update && n !in names then Combine(Lookup(old(objects), n), update[n])
                                  else old(objects)[n]
        decreases names
      {
        var name :| name in names;
        if update[name].Object? && name in objects && objects[name].Object? {
          objects := objects[name := Object(objects[name].fields + update[name].fields)];
        } else {
          objects := objects[name := update[name]];
        }
        names := names - {name};
      }
    }
  }

  class Monitor<V> {
    var inbox: seq<Incoming<V>>
    var requestId: nat
    /** The numbers of the requests written so far. */
    ghost var sent: seq<nat>

    ghost predicate Valid()
      reads this
    {
      && (forall n | n in sent :: 1 <= n <= requestId)
      && (forall i, j | 0 <= i < j < |sent| :: sent[i] < sent[j])
    }

    constructor (inbox: seq<Incoming<V>>)
      ensures Valid() && this.inbox == inbox && requestId == 0 && sent == []
    {
      this.inbox, requestId, sent := inbox, 0, [];
    }

    /** The answer is the first message carrying this request's own number, which no earlier request had;
        everything before it is dropped. */
    method Request() returns (r: Result<Option<Status<V>>, Failure>)
      requires Valid()
      modifies this
      ensures Valid() && requestId == old(requestId) + 1 && sent == old(sent) + [requestId]
      ensures requestId !in old(sent)
      ensures var k := AnswerAt(old(inbox), requestId);
              if k == |old(inbox)| then r == Err(Disconnected) && inbox == []
              else r == AnswerOf(old(inbox)[k]) && inbox == old(inbox)[k + 1..]
    {
      requestId := requestId + 1;
      sent := sent + [requestId];
      assert Valid() by {
        assert forall m | m in sent :: m in old(sent) || m == requestId;
        assert forall i | 0 <= i < |old(sent)| :: old(sent)[i] in old(sent);
      }
      ghost var n := 0;
      while inbox != []
        invariant 0 <= n <= |old(inbox)| && inbox == old(inbox)[n..]
        invariant AnswerAt(old(inbox), requestId) == n + AnswerAt(inbox, requestId)
        invariant Valid() && requestId == old(requestId) + 1 && sent == old(sent) + [requestId]
        decreases |inbox|
      {
        var message := inbox[0];
        inbox := inbox[1..];
        if message.Malformed? || message.id == Some(requestId) {
          return AnswerOf(message);
        }
        n := n + 1;
      }
      return Err(Disconnected);
    }

    /** After the subscription answered with an initial status: one snapshot for it, and one after each
        update, each of everything reported so far. */
    method Follow(initial: Option<Status<V>>) returns (yielded: seq<Status<V>>)
      requires Valid()
      modifies this`inbox
      ensures Valid() && yielded == Yields([if initial.Some? then initial.value else map[]] + UpdatesOf(old(inbox)))
    {
      var status := new StatusTable<V>();
      ghost var log: seq<Status<V>> := [if initial.Some? then initial.value else map[]];
      FoldOne(log[0]);
      if initial.Some? {
        assert Merge(map[], initial.value) == initial.value;
        status.MergeStatus(initial.value);
      }
      yielded := [status.objects];
      assert log[..0] == [] && Yields(log) == yielded;
      while inbox != []
        invariant fresh(status)
        invariant status.objects == Fold(log) && yielded == Yields(log)
        invariant log + UpdatesOf(inbox) == old([if initial.Some? then initial.value else map[]] + UpdatesOf(inbox))
        decreases |inbox|
      {
        var message := inbox[0];
        if message.Malformed? {
          assert log + UpdatesOf(inbox) == log;
          return;
        }
        inbox := inbox[1..];
        if message.update.Some? {
          status.MergeStatus(message.update.value);
          assert (log + [message.update.value])[..|log|] == log;
          log := log + [message.update.value];
          yielded := yielded + [status.objects];
        }
      }
      assert log + UpdatesOf(inbox) == log;
    }
  }
}
