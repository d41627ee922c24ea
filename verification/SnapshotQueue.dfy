/** The drop-oldest queue between the monitor and the relay worker, against a log with a cursor. */
module SnapshotQueue {
  import opened Prelude

  const MAX_CAPACITY := 64

  /** Everything ever put, and the positions in it that were handed out. */
  datatype Log<T> = Log(puts: seq<T>, got: seq<nat>)

  function Cursor<T>(l: Log<T>): nat
  {
    if l.got == [] then 0 else l.got[|l.got| - 1] + 1
  }

  /** The oldest put still available: not before anything handed out, and no more than `capacity` puts ago. */
  function Oldest<T>(l: Log<T>, capacity: nat): nat
  {
    if Cursor(l) + capacity < |l.puts| then |l.puts| - capacity else Cursor(l)
  }

  ghost predicate InOrder<T>(l: Log<T>)
  {
    && (forall i | 0 <= i < |l.got| :: l.got[i] < |l.puts|)
    && (forall i, j | 0 <= i < j < |l.got| :: l.got[i] < l.got[j])
  }

  lemma OldestInRange<T>(l: Log<T>, capacity: nat)
    requires InOrder(l)
    ensures Cursor(l) <= Oldest(l, capacity) <= |l.puts|
    ensures |l.puts| - Oldest(l, capacity) <= capacity
  {
    if l.got != [] { assert l.got[|l.got| - 1] < |l.puts|; }
  }

  /** What a reader can still get, oldest first. */
  ghost function Held<T>(l: Log<T>, capacity: nat): seq<T>
    requires InOrder(l)
  {
    OldestInRange(l, capacity);
    l.puts[Oldest(l, capacity)..]
  }

  ghost function UpTo(n: nat): (s: set<nat>)
    ensures |s| == n && forall i :: i in s <==> 0 <= i < n
  {
    if n == 0 then {} else UpTo(n - 1) + {n - 1}
  }

  /** The puts nobody will ever get. */
  ghost function Skipped<T>(l: Log<T>, capacity: nat): set<nat>
  {
    set i | i in UpTo(Oldest(l, capacity)) && i !in l.got
  }

  ghost function Put<T>(l: Log<T>, x: T): Log<T>
  {
    l.(puts := l.puts + [x])
  }

  /** A reader takes the oldest available put; on an empty queue it waits. */
  ghost function Take<T>(l: Log<T>, capacity: nat): Log<T>
  {
    if Oldest(l, capacity) < |l.puts| then l.(got := l.got + [Oldest(l, capacity)]) else l
  }

  lemma PutKeepsOrder<T>(l: Log<T>, capacity: nat, x: T)
    requires InOrder(l) && capacity > 0
    ensures InOrder(Put(l, x))
    ensures Held(Put(l, x), capacity)
         == (if |Held(l, capacity)| == capacity then Held(l, capacity)[1..] else Held(l, capacity)) + [x]
  {
    OldestInRange(l, capacity);
  }

  lemma TakeKeepsOrder<T>(l: Log<T>, capacity: nat)
    requires InOrder(l) && Held(l, capacity) != []
    ensures InOrder(Take(l, capacity))
    ensures Held(Take(l, capacity), capacity) == Held(l, capacity)[1..]
    ensures l.puts[Oldest(l, capacity)] == Held(l, capacity)[0]
  {
    OldestInRange(l, capacity);
    forall i | 0 <= i < |l.got| ensures l.got[i] < Oldest(l, capacity) {
      assert i < |l.got| - 1 ==> l.got[i] < l.got[|l.got| - 1];
    }
  }

  lemma {:induction false} DistinctCount(xs: seq<nat>, s: set<nat>)
    requires forall i, j | 0 <= i < j < |xs| :: xs[i] < xs[j]
    requires forall x :: x in s <==> x in xs
    ensures |s| == |xs|
  {
    if xs == [] {
      assert s == {};
    } else {
      var n := |xs| - 1;
      forall x ensures x in s - {xs[n]} <==> x in xs[..n] {
        if x in xs[..n] { assert x < xs[n]; }
      }
      DistinctCount(xs[..n], s - {xs[n]});
    }
  }

  /** Conservation: every put was handed out, or was skipped, or is still held, and is only one of these. */
  lemma EveryPutIsAccounted<T>(l: Log<T>, capacity: nat)
    requires InOrder(l)
    ensures |l.puts| == |l.got| + |Skipped(l, capacity)| + |Held(l, capacity)|
    ensures |Held(l, capacity)| <= capacity
  {
    OldestInRange(l, capacity);
    var before := UpTo(Oldest(l, capacity));
    var taken := set i | i in l.got;
    DistinctCount(l.got, taken);
    forall i | i in taken ensures i in before {
      var k :| 0 <= k < |l.got| && l.got[k] == i;
      assert k < |l.got| - 1 ==> l.got[k] < l.got[|l.got| - 1];
    }
    assert Skipped(l, capacity) == before - taken;
  }

  // ---- Runs ----

  datatype QueueOp<T> = PutOp(x: T) | TakeOp

  ghost function Step<T>(capacity: nat, l: Log<T>, op: QueueOp<T>): Log<T>
  {
    match op
    case PutOp(x) => Put(l, x)
    case TakeOp => Take(l, capacity)
  }

  ghost function RunOps<T>(capacity: nat, l: Log<T>, ops: seq<QueueOp<T>>): Log<T>
    decreases |ops|
  {
    if ops == [] then l else RunOps(capacity, Step(capacity, l, ops[0]), ops[1..])
  }

  ghost function PutOf<T>(op: QueueOp<T>): seq<T>
  {
    if op.PutOp? then [op.x] else []
  }

  ghost function PutsOf<T>(ops: seq<QueueOp<T>>): seq<T>
  {
    if ops == [] then [] else PutOf(ops[0]) + PutsOf(ops[1..])
  }

  lemma StepKeepsOrder<T>(capacity: nat, l: Log<T>, op: QueueOp<T>)
    requires InOrder(l) && capacity > 0
    ensures InOrder(Step(capacity, l, op)) && Step(capacity, l, op).puts == l.puts + PutOf(op)
  {
    if op.PutOp? {
      PutKeepsOrder(l, capacity, op.x);
    } else if Held(l, capacity) != [] {
      TakeKeepsOrder(l, capacity);
    }
  }

  lemma {:induction false} RunsStayInOrder<T>(capacity: nat, l: Log<T>, ops: seq<QueueOp<T>>)
    requires InOrder(l) && capacity > 0
    ensures InOrder(RunOps(capacity, l, ops))
    ensures RunOps(capacity, l, ops).puts == l.puts + PutsOf(ops)
    decreases |ops|
  {
    if ops == [] {
    } else {
      var next := Step(capacity, l, ops[0]);
      StepKeepsOrder(capacity, l, ops[0]);
      RunsStayInOrder(capacity, next, ops[1..]);
      assert next.puts + PutsOf(ops[1..]) == l.puts + (PutOf(ops[0]) + PutsOf(ops[1..]));
    }
  }

  lemma FromEmpty<T>(capacity: nat, ops: seq<QueueOp<T>>)
    requires capacity > 0
    ensures InOrder(RunOps(capacity, Log([], []), ops)) && RunOps(capacity, Log([], []), ops).puts == PutsOf(ops)
  {
    RunsStayInOrder<T>(capacity, Log([], []), ops);
    assert [] + PutsOf(ops) == PutsOf(ops);
  }

  lemma HeldAreLatest<T>(l: Log<T>, capacity: nat)
    requires InOrder(l)
    ensures |Held(l, capacity)| <= |l.puts| && Held(l, capacity) == l.puts[|l.puts| - |Held(l, capacity)|..]
  {
    OldestInRange(l, capacity);
  }

  /** Whatever readers and writers do, values come out in the order they went in and none twice, every put
      is accounted for once, and what is held is exactly the latest puts. */
  lemma RunsConserve<T>(capacity: nat, ops: seq<QueueOp<T>>)
    requires capacity > 0
    ensures var final := RunOps(capacity, Log([], []), ops);
            && InOrder(final) && final.puts == PutsOf(ops)
            && |final.puts| == |final.got| + |Skipped(final, capacity)| + |Held(final, capacity)|
            && |Held(final, capacity)| <= capacity
            && Held(final, capacity) == final.puts[|final.puts| - |Held(final, capacity)|..]
  {
    var final := RunOps<T>(capacity, Log([], []), ops);
    FromEmpty(capacity, ops);
    EveryPutIsAccounted(final, capacity);
    HeldAreLatest(final, capacity);
  }

  // ---- The program ----

  class BoundedSnapshotQueue<T> {
    const capacity: nat
    var queue: seq<T>
    var droppedCount: nat
    ghost var log: Log<T>

    ghost predicate Valid()
      reads this
    {
      && 1 <= capacity <= MAX_CAPACITY
      && InOrder(log)
      && queue == Held(log, capacity)
      && droppedCount == |Skipped(log, capacity)|
    }

    constructor (capacity: nat)
      requires 1 <= capacity <= MAX_CAPACITY
      ensures Valid() && log == Log([], []) && this.capacity == capacity
    {
      this.capacity := capacity;
      queue, droppedCount, log := [], 0, Log([], []);
    }

    method PutLatest(snapshot: T)
      requires Valid()
      modifies this
      ensures Valid() && log == Put(old(log), snapshot)
    {
      EveryPutIsAccounted(log, capacity);
      PutKeepsOrder(log, capacity, snapshot);
      ghost var before := queue;
      while |queue| >= capacity
        invariant queue == before || (|before| == capacity && queue == before[1..])
        invariant droppedCount == old(droppedCount) + |before| - |queue|
        invariant log == old(log)
      {
        queue := queue[1..];
        droppedCount := droppedCount + 1;
      }
      queue := queue + [snapshot];
      log := Put(log, snapshot);
      EveryPutIsAccounted(log, capacity);
    }

    /** None means the reader is still waiting. */
    method Get() returns (r: Option<T>)
      requires Valid()
      modifies this
      ensures Valid() && log == Take(old(log), capacity)
      ensures r == if old(queue) == [] then None else Some(old(queue)[0])
      ensures r.Some? ==> log.got != [] && r.value == log.puts[log.got[|log.got| - 1]]
    {
      OldestInRange(log, capacity);
      if queue == [] {
        return None;
      }
      EveryPutIsAccounted(log, capacity);
      TakeKeepsOrder(log, capacity);
      r := Some(queue[0]);
      queue := queue[1..];
      log := Take(log, capacity);
      EveryPutIsAccounted(log, capacity);
    }

    method QSize() returns (n: nat)
      requires Valid()
      ensures n == |Held(log, capacity)| && n <= capacity
    {
      OldestInRange(log, capacity);
      n := |queue|;
    }
  }

  /** The capacity a configuration may ask for. */
  method MakeQueue<T>(capacity: int) returns (queue: Option<BoundedSnapshotQueue<T>>)
    ensures queue.Some? <==> 1 <= capacity <= MAX_CAPACITY
    ensures queue.Some? ==>
              && fresh(queue.value) && queue.value.Valid() && queue.value.log == Log([], [])
              && queue.value.capacity == capacity
  {
    if !(1 <= capacity <= MAX_CAPACITY) {
      return None;
    }
    var made := new BoundedSnapshotQueue<T>(capacity);
    return Some(made);
  }
}
