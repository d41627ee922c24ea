/**
 The service's write-behind cache: updates change memory at once and the status file at most about
 once per interval, through a pending timer or an explicit flush. Every section the program runs under
 its lock is one step, since none of them waits inside the lock. Times are whole microseconds of a
 clock that is positive and never goes back.
 */
module WriteBehind {
  import opened Prelude

  datatype Kind = Immediate | Deferred | Flushed
  datatype Write = Write(at: int, kind: Kind)

  /** The store's fields and its file. `timer` is the pending flush task's due time; `lastWrite` is 0
      before the first write; the file is None as long as it is whatever an earlier process left. */
  datatype Store<P> = Store(
    instances: map<string, P>, dirty: bool, lastWrite: int, timer: Option<int>, file: Option<map<string, P>>)

  datatype Version<P> = Version(at: int, instances: map<string, P>)

  /** A store with its past: the version after each update, how many of them are on file, when each
      write happened, and when each flush still between its halves began. */
  datatype World<P> = World(
    store: Store<P>, clock: int, flushes: seq<int>, versions: seq<Version<P>>, saved: nat, writes: seq<Write>)

  datatype Op<P> = Update(id: string, payload: P) | Fire | FlushBegin | FlushEnd(i: nat)
  datatype Event<P> = Event(now: int, op: Op<P>)

  function NewStore<P>(): Store<P>
  {
    Store(map[], false, 0, None, None)
  }

  function Initial<P>(): World<P>
  {
    World(NewStore(), 1, [], [], 0, [])
  }

  function Written<P>(s: Store<P>, now: int): Store<P>
  {
    s.(dirty := false, lastWrite := now, file := Some(s.instances))
  }

  /** An update writes at once when the last write is an interval ago, and otherwise sees to a timer. */
  predicate Due<P>(interval: int, s: Store<P>, now: int)
  {
    s.lastWrite == 0 || now - s.lastWrite >= interval
  }

  function Updated<P>(interval: int, s: Store<P>, now: int, id: string, payload: P): Store<P>
  {
    var changed := s.(instances := s.instances[id := payload], dirty := true);
    if Due(interval, s, now) then Written(changed, now)
    else if s.timer == None then changed.(timer := Some(s.lastWrite + interval))
    else changed
  }

  function Settled<P>(s: Store<P>, now: int): Store<P>
  {
    if s.dirty then Written(s, now) else s
  }

  ghost predicate Legal<P>(w: World<P>, e: Event<P>)
  {
    && e.now >= w.clock
    && (e.op.Fire? ==> w.store.timer.Some? && e.now >= w.store.timer.value)
    && (e.op.FlushEnd? ==> e.op.i < |w.flushes|)
  }

  ghost function Settle<P>(w: World<P>, now: int, kind: Kind): World<P>
  {
    w.(store := Settled(w.store, now), clock := now, saved := |w.versions|,
       writes := if w.store.dirty then w.writes + [Write(now, kind)] else w.writes)
  }

  ghost function Next<P>(interval: int, w: World<P>, e: Event<P>): World<P>
    requires Legal(w, e)
  {
    match e.op
    case Update(id, payload) =>
      var store := Updated(interval, w.store, e.now, id, payload);
      var versions := w.versions + [Version(e.now, store.instances)];
      if store.dirty then w.(store := store, clock := e.now, versions := versions)
      else w.(store := store, clock := e.now, versions := versions, saved := |versions|,
              writes := w.writes + [Write(e.now, Immediate)])
    case Fire => Settle(w, e.now, Deferred).(store := Settled(w.store, e.now).(timer := None))
    case FlushBegin =>
      if w.store.timer == None then Settle(w, e.now, Flushed)
      else w.(store := w.store.(timer := None), clock := e.now, flushes := w.flushes + [e.now])
    case FlushEnd(i) =>
      Settle(w, e.now, Flushed).(flushes := w.flushes[..i] + w.flushes[i + 1..])
  }

  // ---- No update is lost ----

  ghost predicate OnFile<P>(w: World<P>)
  {
    && w.saved <= |w.versions|
    && w.store.instances == (if w.versions == [] then map[] else w.versions[|w.versions| - 1].instances)
    && w.store.file == (if w.saved == 0 then None else Some(w.versions[w.saved - 1].instances))
    && (w.store.dirty <==> w.saved < |w.versions|)
    && (w.store.dirty ==> w.store.timer.Some? || w.flushes != [])
  }

  lemma StepKeepsOnFile<P>(interval: int, w: World<P>, e: Event<P>)
    requires OnFile(w) && Legal(w, e)
    ensures OnFile(Next(interval, w, e))
  {
    if e.op.FlushEnd? { assert w.flushes != []; }
  }

  ghost predicate Reaches<P>(interval: int, w: World<P>, events: seq<Event<P>>, final: World<P>)
    decreases |events|
  {
    if events == [] then final == w
    else Legal(w, events[0]) && Reaches(interval, Next(interval, w, events[0]), events[1..], final)
  }

  lemma {:induction false} RunKeepsOnFile<P>(interval: int, w: World<P>, events: seq<Event<P>>, final: World<P>)
    requires OnFile(w) && Reaches(interval, w, events, final)
    ensures OnFile(final)
    decreases |events|
  {
    if events != [] {
      StepKeepsOnFile(interval, w, events[0]);
      RunKeepsOnFile(interval, Next(interval, w, events[0]), events[1..], final);
    }
  }

  /** In every interleaving: a store that is not dirty has its memory on file, and a dirty one has a
      pending timer or a flush in progress, which will write. */
  lemma NoUpdateIsLost<P>(interval: int, events: seq<Event<P>>, w: World<P>)
    requires Reaches(interval, Initial<P>(), events, w)
    ensures !w.store.dirty ==> w.store.file == if w.versions == [] then None else Some(w.store.instances)
    ensures w.store.dirty ==> w.store.timer.Some? || w.flushes != []
    ensures forall e | Legal(w, e) && (e.op.Fire? || e.op.FlushEnd?) ::
              Next(interval, w, e).versions == w.versions
              && (w.versions != [] ==> Next(interval, w, e).store.file == Some(w.store.instances))
  {
    RunKeepsOnFile(interval, Initial<P>(), events, w);
    forall e | Legal(w, e) && (e.op.Fire? || e.op.FlushEnd?)
      ensures Next(interval, w, e).versions == w.versions
      ensures w.versions != [] ==> Next(interval, w, e).store.file == Some(w.store.instances)
    {
      StepKeepsOnFile(interval, w, e);
    }
  }

  // ---- How far the file can lag ----

  /** At `now`, no timer is more than `late` overdue and no flush is stuck between its halves for longer. */
  ghost predicate Punctual<P>(late: nat, w: World<P>, now: int)
  {
    && (w.store.timer.Some? ==> now <= w.store.timer.value + late)
    && (forall i | 0 <= i < |w.flushes| :: now <= w.flushes[i] + late)
  }

  ghost predicate PunctualRun<P>(interval: int, late: nat, w: World<P>, events: seq<Event<P>>, final: World<P>)
    decreases |events|
  {
    if events == [] then final == w
    else
      && Legal(w, events[0]) && Punctual(late, w, events[0].now)
      && PunctualRun(interval, late, Next(interval, w, events[0]), events[1..], final)
  }

  /** The oldest update that is not on file. */
  ghost function Unsaved<P>(w: World<P>): int
    requires w.saved < |w.versions|
  {
    w.versions[w.saved].at
  }

  ghost predicate Timely<P>(interval: int, late: nat, w: World<P>)
  {
    && OnFile(w)
    && (w.store.timer.Some? ==> w.store.timer.value <= w.store.lastWrite + interval)
    && w.store.lastWrite <= w.clock
    && (w.saved < |w.versions| ==> w.store.lastWrite <= Unsaved(w) <= w.clock)
    && (w.saved < |w.versions| && w.store.timer == None ==>
          exists i :: 0 <= i < |w.flushes| && w.flushes[i] <= Unsaved(w) + interval + late)
  }

  lemma StepKeepsTimely<P>(interval: int, late: nat, w: World<P>, e: Event<P>)
    requires Timely(interval, late, w) && Legal(w, e) && Punctual(late, w, e.now)
    ensures Timely(interval, late, Next(interval, w, e))
  {
    StepKeepsOnFile(interval, w, e);
    var w' := Next(interval, w, e);
    if e.op.FlushBegin? && w.saved < |w.versions| && w.store.timer.Some? {
      assert w'.flushes[|w.flushes|] == e.now;
    }
  }

  lemma {:induction false} PunctualRunKeepsTimely<P>(interval: int, late: nat, w: World<P>, events: seq<Event<P>>,
                                                     final: World<P>)
    requires Timely(interval, late, w) && PunctualRun(interval, late, w, events, final)
    ensures Timely(interval, late, final)
    decreases |events|
  {
    if events != [] {
      StepKeepsTimely(interval, late, w, events[0]);
      PunctualRunKeepsTimely(interval, late, Next(interval, w, events[0]), events[1..], final);
    }
  }

  /** If timers and flushes are at most `late` late, every update is on file an interval and `late` after it
      was made, or one more `late` while a flush that cancelled its timer is in progress. */
  lemma FileLag<P>(interval: int, late: nat, events: seq<Event<P>>, w: World<P>, now: int)
    requires interval >= 0 && PunctualRun(interval, late, Initial<P>(), events, w)
    requires now >= w.clock && Punctual(late, w, now)
    requires w.saved < |w.versions|
    ensures w.store.timer.Some? ==> now <= Unsaved(w) + interval + late
    ensures now <= Unsaved(w) + interval + 2 * late
    ensures w.store.file == if w.saved == 0 then None else Some(w.versions[w.saved - 1].instances)
  {
    PunctualRunKeepsTimely(interval, late, Initial<P>(), events, w);
  }

  // ---- How often the file is written ----

  ghost predicate Plain<P>(events: seq<Event<P>>)
  {
    forall i | 0 <= i < |events| :: events[i].op.Update? || events[i].op.Fire?
  }

  /** The two writes are closer than the interval. */
  predicate Close(interval: int, a: Write, b: Write)
  {
    b.at - a.at < interval
  }

  ghost predicate GapsOk(interval: int, writes: seq<Write>, clock: int)
  {
    && (forall i | 0 <= i < |writes| :: 0 < writes[i].at <= clock && writes[i].kind != Flushed)
    && (forall i, j | 0 <= i < j < |writes| :: writes[i].at <= writes[j].at)
    && (forall i, j | 0 <= i < j < |writes| && Close(interval, writes[i], writes[j]) ::
          j == i + 1 && writes[i].kind == Immediate && writes[j].kind == Deferred)
  }

  ghost predicate Rate<P>(interval: int, w: World<P>)
  {
    && w.flushes == [] && w.clock > 0
    && w.store.lastWrite == (if w.writes == [] then 0 else w.writes[|w.writes| - 1].at)
    && GapsOk(interval, w.writes, w.clock)
    && (w.store.timer.Some? ==> forall i | 0 <= i < |w.writes| && w.writes[i].kind == Deferred ::
          w.writes[i].at + interval <= w.store.timer.value)
  }

  /** A write that a plain step adds is close to the one before it only if that one was immediate and
      this one is deferred. */
  lemma NewWrite<P>(interval: int, w: World<P>, e: Event<P>)
    requires Rate(interval, w) && Legal(w, e) && (e.op.Update? || e.op.Fire?)
    ensures var writes, n := Next(interval, w, e).writes, |w.writes|;
            writes == w.writes
            || (&& |writes| == n + 1 && writes[..n] == w.writes
                && writes[n].at == e.now && writes[n].kind != Flushed
                && (n > 0 && Close(interval, writes[n - 1], writes[n]) ==>
                      writes[n - 1].kind == Immediate && writes[n].kind == Deferred))
  {
    var n := |w.writes|;
    if e.op.Fire? && w.store.dirty && n > 0 {
      assert w.writes[n - 1].kind == Deferred ==> w.writes[n - 1].at + interval <= w.store.timer.value;
    }
  }

  lemma AppendKeepsGaps(interval: int, writes: seq<Write>, x: Write)
    requires forall i | 0 <= i < |writes| :: writes[i].at <= x.at
    requires forall i, j | 0 <= i < j < |writes| :: writes[i].at <= writes[j].at
    requires forall i, j | 0 <= i < j < |writes| && Close(interval, writes[i], writes[j]) ::
               j == i + 1 && writes[i].kind == Immediate && writes[j].kind == Deferred
    requires writes != [] && Close(interval, writes[|writes| - 1], x) ==>
               writes[|writes| - 1].kind == Immediate && x.kind == Deferred
    ensures var all := writes + [x]; forall i, j | 0 <= i < j < |all| && Close(interval, all[i], all[j]) ::
               j == i + 1 && all[i].kind == Immediate && all[j].kind == Deferred
  {
    var all, n := writes + [x], |writes|;
    forall i | 0 <= i < n && Close(interval, all[i], x)
      ensures i == n - 1 && all[i].kind == Immediate && x.kind == Deferred
    {
      assert writes[i].at <= writes[n - 1].at;
      assert Close(interval, writes[n - 1], x);
      assert i < n - 1 ==> Close(interval, writes[i], writes[n - 1]);
    }
  }

  lemma StepKeepsGaps<P>(interval: int, w: World<P>, e: Event<P>)
    requires Rate(interval, w) && Legal(w, e) && (e.op.Update? || e.op.Fire?)
    ensures GapsOk(interval, Next(interval, w, e).writes, e.now)
  {
    var writes, n := Next(interval, w, e).writes, |w.writes|;
    NewWrite(interval, w, e);
    if writes != w.writes {
      AppendKeepsGaps(interval, w.writes, writes[n]);
      assert writes == w.writes + [writes[n]];
    }
  }

  lemma StepKeepsRate<P>(interval: int, w: World<P>, e: Event<P>)
    requires Rate(interval, w) && Legal(w, e) && (e.op.Update? || e.op.Fire?)
    ensures Rate(interval, Next(interval, w, e))
  {
    StepKeepsGaps(interval, w, e);
    assert Next(interval, w, e).clock == e.now;
  }

  lemma {:induction false} RunKeepsRate<P>(interval: int, w: World<P>, events: seq<Event<P>>, final: World<P>)
    requires Rate(interval, w) && Plain(events) && Reaches(interval, w, events, final)
    ensures Rate(interval, final)
    decreases |events|
  {
    if events != [] {
      StepKeepsRate(interval, w, events[0]);
      RunKeepsRate(interval, Next(interval, w, events[0]), events[1..], final);
    }
  }

  /** Without explicit flushes, a window shorter than the interval holds at most two writes, and if two,
      an immediate one and then a deferred one. */
  lemma WindowHoldsTwoWrites<P>(interval: int, events: seq<Event<P>>, w: World<P>, i: nat, j: nat)
    requires Plain(events) && Reaches(interval, Initial<P>(), events, w)
    requires i < j < |w.writes| && w.writes[j].at - w.writes[i].at < interval
    ensures j == i + 1 && w.writes[i].kind == Immediate && w.writes[j].kind == Deferred
  {
    RunKeepsRate(interval, Initial<P>(), events, w);
    assert Close(interval, w.writes[i], w.writes[j]);
  }

  ghost predicate Spaced(interval: int, writes: seq<Write>)
  {
    forall i | 0 <= i < |writes| - 1 :: writes[i + 1].at - writes[i].at >= interval
  }

  // ---- Which schedules write too often ----

  ghost predicate StepsTo<P>(interval: int, w: World<P>, e: Event<P>, w': World<P>)
  {
    Legal(w, e) && w' == Next(interval, w, e)
  }

  /** A run with the states between its events. */
  ghost predicate Trace<P>(interval: int, ws: seq<World<P>>, events: seq<Event<P>>)
  {
    |ws| == |events| + 1 && forall n | 0 <= n < |events| :: StepsTo(interval, ws[n], events[n], ws[n + 1])
  }

  /** Every run has such states. */
  lemma {:induction false} ReachesHasTrace<P>(interval: int, w: World<P>, events: seq<Event<P>>, final: World<P>)
    requires Reaches(interval, w, events, final)
    ensures exists ws :: Trace(interval, ws, events) && ws[0] == w && ws[|events|] == final
    decreases |events|
  {
    if events == [] {
      assert Trace(interval, [w], events);
    } else {
      var next := Next(interval, w, events[0]);
      ReachesHasTrace(interval, next, events[1..], final);
      var rest :| Trace(interval, rest, events[1..]) && rest[0] == next && rest[|events| - 1] == final;
      var ws := [w] + rest;
      forall n | 0 <= n < |events| ensures StepsTo(interval, ws[n], events[n], ws[n + 1]) {
        if n > 0 { assert StepsTo(interval, rest[n - 1], events[1..][n - 1], rest[n]); }
      }
      assert Trace(interval, ws, events);
    }
  }

  /** The schedule of a write that comes too soon: at `i` an update writes at once although a timer is pending,
      at `j` another update finds that timer in place, and at `k`, within an interval of `i`, it fires. */
  ghost predicate Overtaken<P>(interval: int, ws: seq<World<P>>, events: seq<Event<P>>, i: int, j: int, k: int)
    requires Trace(interval, ws, events)
  {
    && 0 <= i < j < k < |events|
    && Overtakes(interval, ws[i], events[i])
    && events[j].op.Update?
    && events[k].op.Fire? && (forall m | i < m < k :: !events[m].op.Fire?)
    && events[k].now - events[i].now < interval
  }

  ghost predicate Overtakes<P>(interval: int, w: World<P>, e: Event<P>)
  {
    e.op.Update? && Due(interval, w.store, e.now) && w.store.timer.Some?
  }

  lemma {:induction false} RateAlong<P>(interval: int, ws: seq<World<P>>, events: seq<Event<P>>, n: nat)
    requires Trace(interval, ws, events) && ws[0] == Initial() && Plain(events) && n <= |events|
    ensures Rate(interval, ws[n])
  {
    if n > 0 {
      RateAlong(interval, ws, events, n - 1);
      assert StepsTo(interval, ws[n - 1], events[n - 1], ws[n]);
      StepKeepsRate(interval, ws[n - 1], events[n - 1]);
    }
  }

  /** A write too close to the one before it: the flush task wakes to unsaved updates within an interval. */
  ghost predicate Premature<P>(interval: int, w: World<P>, e: Event<P>)
  {
    e.op.Fire? && w.store.dirty && w.store.lastWrite != 0 && e.now - w.store.lastWrite < interval
  }

  lemma StepSpacing<P>(interval: int, w: World<P>, e: Event<P>)
    requires Rate(interval, w) && Legal(w, e) && (e.op.Update? || e.op.Fire?)
    ensures Spaced(interval, Next(interval, w, e).writes) <==> Spaced(interval, w.writes) && !Premature(interval, w, e)
  {
    var writes, n := Next(interval, w, e).writes, |w.writes|;
    NewWrite(interval, w, e);
    assert forall i | 0 <= i < n :: writes[i] == w.writes[i];
    assert n > 0 && |writes| > n ==>
             (Premature(interval, w, e) <==> writes[n - 1 + 1].at - writes[n - 1].at < interval);
  }

  lemma {:induction false} SpacedAlong<P>(interval: int, ws: seq<World<P>>, events: seq<Event<P>>, n: nat)
    requires Trace(interval, ws, events) && ws[0] == Initial() && Plain(events) && n <= |events|
    ensures Spaced(interval, ws[n].writes) <==> forall k | 0 <= k < n :: !Premature(interval, ws[k], events[k])
  {
    if n > 0 {
      SpacedAlong(interval, ws, events, n - 1);
      RateAlong(interval, ws, events, n - 1);
      assert StepsTo(interval, ws[n - 1], events[n - 1], ws[n]);
      StepSpacing(interval, ws[n - 1], events[n - 1]);
    }
  }

  /** The write at event `i` is the last before state `n`: unsaved updates came after it, and a timer from
      before it was pending when it was made and has not fired since. */
  ghost predicate LastWrittenAt<P>(interval: int, ws: seq<World<P>>, events: seq<Event<P>>, n: nat, i: int)
    requires Trace(interval, ws, events) && n <= |events|
  {
    && 0 <= i < n && events[i].now == ws[n].store.lastWrite
    && (ws[n].store.dirty ==> exists j :: i < j < n && events[j].op.Update?)
    && (ws[n].store.timer.Some? && ws[n].store.timer.value < ws[n].store.lastWrite + interval ==>
          Overtakes(interval, ws[i], events[i]) && forall m | i < m < n :: !events[m].op.Fire?)
  }

  lemma LastWriteStep<P>(interval: int, ws: seq<World<P>>, events: seq<Event<P>>, n: nat, i: int)
    requires Trace(interval, ws, events) && Plain(events) && n < |events| && Rate(interval, ws[n])
    requires ws[n].store.lastWrite != 0 ==> LastWrittenAt(interval, ws, events, n, i)
    ensures ws[n + 1].store.lastWrite != 0 ==>
              LastWrittenAt(interval, ws, events, n + 1, if |ws[n + 1].writes| > |ws[n].writes| then n else i)
  {
    assert StepsTo(interval, ws[n], events[n], ws[n + 1]);
    if |ws[n + 1].writes| == |ws[n].writes| && ws[n].store.lastWrite != 0 {
      if ws[n].store.dirty {
        var j :| i < j < n && events[j].op.Update?;
        assert i < j < n + 1;
      }
      assert events[n].op.Update? ==> i < n < n + 1 && events[n].op.Update?;
    }
  }

  lemma {:induction false} LastWriteAlong<P>(interval: int, ws: seq<World<P>>, events: seq<Event<P>>, n: nat)
    requires Trace(interval, ws, events) && ws[0] == Initial() && Plain(events) && n <= |events|
    ensures ws[n].store.lastWrite != 0 ==> exists i :: LastWrittenAt(interval, ws, events, n, i)
  {
    if n > 0 {
      LastWriteAlong(interval, ws, events, n - 1);
      RateAlong(interval, ws, events, n - 1);
      var i := if ws[n - 1].store.lastWrite != 0 then var i :| LastWrittenAt(interval, ws, events, n - 1, i); i else 0;
      LastWriteStep(interval, ws, events, n - 1, i);
    }
  }

  lemma PrematureIsOvertaken<P>(interval: int, ws: seq<World<P>>, events: seq<Event<P>>, k: nat)
    requires Trace(interval, ws, events) && ws[0] == Initial() && Plain(events)
    requires k < |events| && Premature(interval, ws[k], events[k])
    ensures exists i, j :: Overtaken(interval, ws, events, i, j, k)
  {
    assert StepsTo(interval, ws[k], events[k], ws[k + 1]);
    LastWriteAlong(interval, ws, events, k);
    var i :| LastWrittenAt(interval, ws, events, k, i);
    var j :| i < j < k && events[j].op.Update?;
    assert Overtaken(interval, ws, events, i, j, k);
  }

  lemma {:induction false} TimesAscend<P>(interval: int, ws: seq<World<P>>, events: seq<Event<P>>, a: nat, b: nat)
    requires Trace(interval, ws, events) && a <= b < |events|
    ensures events[a].now <= events[b].now
  {
    if a < b {
      TimesAscend(interval, ws, events, a, b - 1);
      assert StepsTo(interval, ws[b - 1], events[b - 1], ws[b]) && StepsTo(interval, ws[b], events[b], ws[b + 1]);
    }
  }

  /** From the overtaking update to the firing, nothing writes and the timer stays. */
  lemma {:induction false} OvertakenStays<P>(interval: int, ws: seq<World<P>>, events: seq<Event<P>>, i: int, j: int,
                                             k: int, n: int)
    requires Trace(interval, ws, events) && ws[0] == Initial() && Plain(events)
    requires Overtaken(interval, ws, events, i, j, k) && i < n <= k
    ensures ws[n].store.lastWrite == events[i].now != 0 && ws[n].store.timer.Some? && (j < n ==> ws[n].store.dirty)
  {
    var m := n - 1;
    assert StepsTo(interval, ws[m], events[m], ws[n]);
    if m > i {
      OvertakenStays(interval, ws, events, i, j, k, m);
      TimesAscend(interval, ws, events, m, k);
    } else {
      RateAlong(interval, ws, events, i);
    }
  }

  /** Exactly which schedules break the once per interval: those in which an overtaken timer fires, with an
      update in between, within an interval of the update that overtook it. */
  lemma SpacedIff<P>(interval: int, ws: seq<World<P>>, events: seq<Event<P>>)
    requires Trace(interval, ws, events) && ws[0] == Initial() && Plain(events)
    ensures Spaced(interval, ws[|events|].writes) <==> !exists i, j, k :: Overtaken(interval, ws, events, i, j, k)
  {
    SpacedAlong(interval, ws, events, |events|);
    forall k | 0 <= k < |events| && Premature(interval, ws[k], events[k])
      ensures exists i, j :: Overtaken(interval, ws, events, i, j, k)
    {
      PrematureIsOvertaken(interval, ws, events, k);
    }
    forall i, j, k | Overtaken(interval, ws, events, i, j, k) ensures Premature(interval, ws[k], events[k]) {
      OvertakenStays(interval, ws, events, i, j, k, k);
    }
  }

  /** Every due timer has run before a later update. */
  ghost predicate DueFirst<P>(w: World<P>, e: Event<P>)
  {
    e.op.Update? && w.store.timer.Some? ==> e.now < w.store.timer.value
  }

  ghost predicate DueFirstRun<P>(ws: seq<World<P>>, events: seq<Event<P>>)
    requires |ws| > |events|
  {
    forall n | 0 <= n < |events| :: DueFirst(ws[n], events[n])
  }

  /** Then a pending timer is always the last write's own. */
  lemma {:induction false} OwnTimerAlong<P>(interval: int, ws: seq<World<P>>, events: seq<Event<P>>, n: nat)
    requires Trace(interval, ws, events) && ws[0] == Initial() && Plain(events) && DueFirstRun(ws, events)
    requires n <= |events|
    ensures ws[n].store.timer.Some? ==>
              ws[n].store.lastWrite != 0 && ws[n].store.timer.value == ws[n].store.lastWrite + interval
  {
    if n > 0 {
      OwnTimerAlong(interval, ws, events, n - 1);
      assert StepsTo(interval, ws[n - 1], events[n - 1], ws[n]) && DueFirst(ws[n - 1], events[n - 1]);
    }
  }

  /** The documented once per interval: true when due timers run before later updates. */
  lemma OncePerInterval<P>(interval: int, ws: seq<World<P>>, events: seq<Event<P>>)
    requires Trace(interval, ws, events) && ws[0] == Initial() && Plain(events) && DueFirstRun(ws, events)
    ensures Spaced(interval, ws[|events|].writes)
  {
    forall i | 0 <= i < |events| ensures !Overtakes(interval, ws[i], events[i]) {
      OwnTimerAlong(interval, ws, events, i);
      assert DueFirst(ws[i], events[i]);
    }
    SpacedIff(interval, ws, events);
  }

  /** And not in general: a timer two microseconds late, overtaken by an update that writes at once and
      followed by one that does not, writes a second time two microseconds later. */
  lemma TwiceInTwoMicroseconds()
    ensures var second := 1_000_000;
            var events := [Event(1, Update("x", 0)), Event(2, Update("x", 1)), Event(second + 1, Update("x", 2)),
                           Event(second + 2, Update("x", 3)), Event(second + 3, Fire)];
            exists w :: Reaches(second, Initial<int>(), events, w)
                     && w.writes == [Write(1, Immediate), Write(second + 1, Immediate), Write(second + 3, Deferred)]
                     && !Spaced(second, w.writes)
  {
    var second := 1_000_000;
    var e1, e2, e3 := Event(1, Update("x", 0)), Event(2, Update("x", 1)), Event(second + 1, Update("x", 2));
    var e4, e5: Event<int> := Event(second + 2, Update("x", 3)), Event(second + 3, Fire);
    var w1 := Next(second, Initial<int>(), e1);
    assert w1.store.lastWrite == 1 && w1.writes == [Write(1, Immediate)] && w1.store.timer == None;
    var w2 := Next(second, w1, e2);
    assert w2.store.timer == Some(second + 1) && w2.store.lastWrite == 1 && w2.writes == w1.writes;
    var w3 := Next(second, w2, e3);
    assert w3.store.timer == Some(second + 1) && w3.store.lastWrite == second + 1;
    assert w3.writes == [Write(1, Immediate), Write(second + 1, Immediate)];
    var w4 := Next(second, w3, e4);
    assert w4.store.timer == Some(second + 1) && w4.store.dirty && w4.writes == w3.writes;
    var w5 := Next(second, w4, e5);
    assert w5.writes == [Write(1, Immediate), Write(second + 1, Immediate), Write(second + 3, Deferred)];
    assert w5.writes[1 + 1].at - w5.writes[1].at < second;
    ReachesStep(second, w4, e5, [], w5);
    ReachesStep(second, w3, e4, [e5], w5);
    ReachesStep(second, w2, e3, [e4, e5], w5);
    ReachesStep(second, w1, e2, [e3, e4, e5], w5);
    ReachesStep(second, Initial<int>(), e1, [e2, e3, e4, e5], w5);
  }

  lemma ReachesStep<P>(interval: int, w: World<P>, e: Event<P>, rest: seq<Event<P>>, final: World<P>)
    requires Legal(w, e) && Reaches(interval, Next(interval, w, e), rest, final)
    ensures Reaches(interval, w, [e] + rest, final)
  {
    assert ([e] + rest)[1..] == rest;
  }

  // ---- The program ----

  /** The cache with its fields; each method is one section between two points where the program waits. */
  class SnapshotStore<P> {
    const minimumWriteInterval: int
    var instances: map<string, P>
    var dirty: bool
    var lastWriteTime: int
    var flushTask: Option<int>
    var file: Option<map<string, P>>
    ghost var world: World<P>

    ghost predicate Valid()
      reads this
    {
      world.store == Store(instances, dirty, lastWriteTime, flushTask, file) && OnFile(world)
    }

    constructor (minimumWriteInterval: int)
      ensures Valid() && world == Initial() && this.minimumWriteInterval == minimumWriteInterval
    {
      this.minimumWriteInterval := minimumWriteInterval;
      instances, dirty, lastWriteTime, flushTask, file := map[], false, 0, None, None;
      world := Initial();
    }

    method WriteLocked(now: int)
      modifies this`dirty, this`lastWriteTime, this`file
      ensures !dirty && lastWriteTime == now && file == Some(instances)
    {
      file := Some(instances);
      dirty := false;
      lastWriteTime := now;
    }

    method Update(now: int, id: string, payload: P)
      requires Valid() && now >= world.clock
      modifies this
      ensures Valid() && world == Next(minimumWriteInterval, old(world), Event(now, Op.Update(id, payload)))
      ensures instances == old(instances)[id := payload]
    {
      StepKeepsOnFile(minimumWriteInterval, world, Event(now, Op.Update(id, payload)));
      world := Next(minimumWriteInterval, world, Event(now, Op.Update(id, payload)));
      instances := instances[id := payload];
      dirty := true;
      var elapsed := now - lastWriteTime;
      if lastWriteTime == 0 || elapsed >= minimumWriteInterval {
        WriteLocked(now);
      } else if flushTask == None {
        flushTask := Some(now + (minimumWriteInterval - elapsed));
      }
    }

    /** The flush task, once its sleep is over. */
    method FlushAfter(now: int)
      requires Valid() && now >= world.clock && flushTask.Some? && now >= flushTask.value
      modifies this
      ensures Valid() && world == Next(minimumWriteInterval, old(world), Event(now, Fire))
      ensures instances == old(instances) && (old(world).versions != [] ==> file == Some(instances))
    {
      StepKeepsOnFile(minimumWriteInterval, world, Event(now, Fire));
      world := Next(minimumWriteInterval, world, Event(now, Fire));
      if dirty {
        WriteLocked(now);
      }
      flushTask := None;
    }

    /** The first half of `flush`, up to waiting for the task it cancelled; without a task there is nothing
        to wait for and the flush is done. */
    method BeginFlush(now: int) returns (waiting: bool)
      requires Valid() && now >= world.clock
      modifies this
      ensures Valid() && world == Next(minimumWriteInterval, old(world), Event(now, FlushBegin))
      ensures waiting <==> |world.flushes| > |old(world).flushes|
      ensures instances == old(instances) && (!waiting && old(world).versions != [] ==> file == Some(instances))
    {
      StepKeepsOnFile(minimumWriteInterval, world, Event(now, FlushBegin));
      world := Next(minimumWriteInterval, world, Event(now, FlushBegin));
      waiting := flushTask.Some?;
      flushTask := None;
      if !waiting {
        if dirty {
          WriteLocked(now);
        }
      }
    }

    /** The second half, for the flush that is `i`-th among those waiting. */
    method EndFlush(now: int, ghost i: nat)
      requires Valid() && now >= world.clock && i < |world.flushes|
      modifies this
      ensures Valid() && world == Next(minimumWriteInterval, old(world), Event(now, FlushEnd(i)))
      ensures instances == old(instances) && (old(world).versions != [] ==> file == Some(instances))
    {
      StepKeepsOnFile(minimumWriteInterval, world, Event(now, FlushEnd(i)));
      world := Next(minimumWriteInterval, world, Event(now, FlushEnd(i)));
      if dirty {
        WriteLocked(now);
      }
    }
  }
}
