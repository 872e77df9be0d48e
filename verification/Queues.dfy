/** The queues of operations that are ready to run, one for each device and one for the
    control flow interpreter. */
module Queues {
  import opened Models
  import opened Scheduling
  import opened Partitions
  import opened Trackers

  type Queues = seq<seq<nat>>

  /** The queue of an operation; the last one is for interpreted control flow. */
  function QueueOf(m: Model, i: nat, deviceCount: nat): nat
    requires i < |m.operations|
  {
    match m.operations[i].placement
    case OnDevice(d) => d
    case _ => deviceCount
  }

  /** Every device is one of the first ones, here and in the models referred to. */
  ghost predicate DevicesBelow(m: Model, n: nat) {
    forall i :: 0 <= i < |m.operations| ==> PlacedBelow(m.operations[i].placement, n)
  }

  ghost predicate PlacedBelow(p: Placement, n: nat) {
    match p
    case OnDevice(d) => d < n
    case InterpretIf(t, e) => DevicesBelow(t, n) && DevicesBelow(e, n)
    case InterpretWhile(c, b) => DevicesBelow(c, n) && DevicesBelow(b, n)
  }

  // What is known after the operations in `order`.
  ghost function KnownAfter(m: Model, order: seq<nat>): set<nat>
    requires InRange(order, |m.operations|)
  {
    KnownSet(m) + OutputsOf(Pick(m, order))
  }

  /** The operations in `order` can run in this order. */
  ghost predicate CanRun(m: Model, order: seq<nat>)
    ensures CanRun(m, order) ==> InRange(order, |m.operations|)
  {
    InRange(order, |m.operations|) && Distinct(order) && Ordered(Pick(m, order), KnownSet(m))
  }

  lemma PickAppend(m: Model, order: seq<nat>, i: nat)
    requires InRange(order, |m.operations|) && i < |m.operations|
    ensures InRange(order + [i], |m.operations|)
    ensures Pick(m, order + [i]) == Pick(m, order) + [m.operations[i]]
    ensures KnownAfter(m, order + [i]) == KnownAfter(m, order) + AsSet(m.operations[i].outputs)
  {
    assert forall x :: x in order + [i] ==> x in order || x == i;
    assert Pick(m, order + [i]) == Pick(m, order) + [m.operations[i]];
    OutputsOfConcatenation(Pick(m, order), [m.operations[i]]);
    assert OutputsOf([m.operations[i]][1..]) == {};
  }

  lemma {:induction false} OrderedAppend(ops: seq<Operation>, op: Operation, known: set<nat>)
    requires Ordered(ops, known)
    requires forall x :: x in op.inputs ==> x in known + OutputsOf(ops)
    requires Distinct(op.outputs) && forall x :: x in op.outputs ==> x !in known + OutputsOf(ops)
    ensures Ordered(ops + [op], known)
  {
    if ops == [] {
      assert ops + [op] == [op] && [op][1..] == [];
    } else {
      assert (ops + [op])[1..] == ops[1..] + [op];
      assert known + AsSet(ops[0].outputs) + OutputsOf(ops[1..]) == known + OutputsOf(ops);
      OrderedAppend(ops[1..], op, known + AsSet(ops[0].outputs));
    }
  }

  // ----- outputs belong to one operation -----

  /** An operation of a valid model writes what no other operation writes. */
  lemma {:induction false} OutputsDiffer(ops: seq<Operation>, known: set<nat>, i: nat, j: nat)
    requires Ordered(ops, known) && i < j < |ops|
    ensures Distinct(ops[i].outputs) && Distinct(ops[j].outputs)
    ensures forall x :: x in ops[i].outputs ==> x !in ops[j].outputs
  {
    if i == 0 {
      LaterOutputs(ops[1..], known + AsSet(ops[0].outputs), j - 1);
      assert ops[1..][j - 1] == ops[j];
    } else {
      OutputsDiffer(ops[1..], known + AsSet(ops[0].outputs), i - 1, j - 1);
    }
  }

  lemma {:induction false} LaterOutputs(ops: seq<Operation>, known: set<nat>, j: nat)
    requires Ordered(ops, known) && j < |ops|
    ensures Distinct(ops[j].outputs) && forall x :: x in ops[j].outputs ==> x !in known
  {
    if j > 0 { LaterOutputs(ops[1..], known + AsSet(ops[0].outputs), j - 1); }
  }

  /** What an operation that has not run yet writes is not known. */
  lemma OutputsAreUnknown(m: Model, order: seq<nat>, i: nat)
    requires ShallowValid(m) && InRange(order, |m.operations|) && i < |m.operations| && i !in order
    ensures Distinct(m.operations[i].outputs)
    ensures forall x :: x in m.operations[i].outputs ==> x !in KnownAfter(m, order)
  {
    LaterOutputs(m.operations, KnownSet(m), i);
    OutputsOfMembers(Pick(m, order));
    forall x | x in m.operations[i].outputs && x in OutputsOf(Pick(m, order)) ensures false {
      var p :| 0 <= p < |order| && x in Pick(m, order)[p].outputs;
      var j := order[p];
      assert j in order;
      if i < j { OutputsDiffer(m.operations, KnownSet(m), i, j); } else { OutputsDiffer(m.operations, KnownSet(m), j, i); }
    }
  }

  /** An operation whose inputs are all known can run next. */
  lemma RunsNext(m: Model, order: seq<nat>, i: nat)
    requires ShallowValid(m) && CanRun(m, order) && i < |m.operations| && i !in order
    requires forall x :: x in m.operations[i].inputs ==> x in KnownAfter(m, order)
    ensures CanRun(m, order + [i])
  {
    hide ShallowValid, Ordered;
    PickAppend(m, order, i);
    OutputsAreUnknown(m, order, i);
    OrderedAppend(Pick(m, order), m.operations[i], KnownSet(m));
  }

  // ----- the queues -----

  /** The queues hold, each once, the pending operations. */
  ghost predicate Hold(queues: Queues, m: Model, deviceCount: nat, pending: set<nat>) {
    && |queues| == deviceCount + 1
    && (forall i :: i in pending ==> i < |m.operations|)
    && forall q :: 0 <= q < |queues| ==> HoldsQueue(queues[q], q, m, deviceCount, pending)
  }

  ghost predicate HoldsQueue(queue: seq<nat>, q: nat, m: Model, deviceCount: nat, pending: set<nat>) {
    && Distinct(queue)
    && forall i: nat :: i in queue <==> i in pending && i < |m.operations| && QueueOf(m, i, deviceCount) == q
  }

  /** Ready operations that have not been placed. */
  ghost function Pending(counts: seq<nat>, order: seq<nat>): set<nat> {
    set i | 0 <= i < |counts| && counts[i] == 0 && i !in order
  }

  lemma NothingHeld(m: Model, deviceCount: nat)
    ensures Hold(seq(deviceCount + 1, _ => []), m, deviceCount, {})
  {
  }

  // Puts an operation on its queue.
  method Enqueue(queues: Queues, m: Model, deviceCount: nat, i: nat, ghost pending: set<nat>) returns (r: Queues)
    requires Hold(queues, m, deviceCount, pending) && i < |m.operations| && i !in pending
    requires QueueOf(m, i, deviceCount) <= deviceCount
    ensures Hold(r, m, deviceCount, pending + {i})
  {
    var q := QueueOf(m, i, deviceCount);
    r := queues[q := queues[q] + [i]];
    forall p | 0 <= p < |r| ensures HoldsQueue(r[p], p, m, deviceCount, pending + {i}) {
      assert HoldsQueue(queues[p], p, m, deviceCount, pending);
      if p == q { DistinctAppend(queues[q], i); }
    }
  }

  lemma DistinctAppend(xs: seq<nat>, x: nat)
    requires Distinct(xs) && x !in xs
    ensures Distinct(xs + [x])
  {
  }

  method EnqueueAll(queues: Queues, m: Model, deviceCount: nat, xs: seq<nat>, ghost pending: set<nat>) returns (r: Queues)
    requires Hold(queues, m, deviceCount, pending) && Distinct(xs)
    requires forall i :: i in xs ==> i < |m.operations| && i !in pending && QueueOf(m, i, deviceCount) <= deviceCount
    ensures Hold(r, m, deviceCount, pending + AsSet(xs))
  {
    r := queues;
    assert pending + AsSet(xs[..0]) == pending;
    for j := 0 to |xs|
      invariant Hold(r, m, deviceCount, pending + AsSet(xs[..j]))
    {
      assert xs[j] in xs && xs[j] !in xs[..j] && xs[..j + 1] == xs[..j] + [xs[j]];
      assert pending + AsSet(xs[..j]) + {xs[j]} == pending + AsSet(xs[..j + 1]);
      r := Enqueue(r, m, deviceCount, xs[j], pending + AsSet(xs[..j]));
    }
    assert xs[..|xs|] == xs;
  }

  // Takes the first operation of a queue.
  method Pop(queues: Queues, m: Model, deviceCount: nat, q: nat, ghost pending: set<nat>) returns (i: nat, r: Queues)
    requires Hold(queues, m, deviceCount, pending) && q < |queues| && queues[q] != []
    ensures i == queues[q][0] && i in pending && i < |m.operations| && QueueOf(m, i, deviceCount) == q
    ensures Hold(r, m, deviceCount, pending - {i})
  {
    i := queues[q][0];
    assert HoldsQueue(queues[q], q, m, deviceCount, pending) && i in queues[q];
    r := queues[q := queues[q][1..]];
    forall p | 0 <= p < |r| ensures HoldsQueue(r[p], p, m, deviceCount, pending - {i}) {
      assert HoldsQueue(queues[p], p, m, deviceCount, pending);
      if p == q {
        assert forall x :: x in queues[q] <==> x == i || x in queues[q][1..];
      }
    }
  }

  // The last queue that is not empty: control flow first, then devices in reverse order.
  method FindNextDeviceToProcess(queues: Queues) returns (q: int)
    ensures -1 <= q < |queues|
    ensures q >= 0 ==> queues[q] != []
    ensures forall p :: q < p < |queues| ==> queues[p] == []
  {
    q := |queues| - 1;
    while q >= 0
      invariant -1 <= q < |queues|
      invariant forall p :: q < p < |queues| ==> queues[p] == []
    {
      if queues[q] != [] { return; }
      q := q - 1;
    }
  }

  lemma EmptyQueues(queues: Queues, m: Model, deviceCount: nat, pending: set<nat>)
    requires Hold(queues, m, deviceCount, pending) && (forall p :: 0 <= p < |queues| ==> queues[p] == [])
    requires forall i :: 0 <= i < |m.operations| ==> QueueOf(m, i, deviceCount) <= deviceCount
    ensures pending == {}
  {
    if pending != {} {
      var i :| i in pending;
      HeldIsQueued(queues, m, deviceCount, pending, i);
    }
  }

  lemma HeldIsQueued(queues: Queues, m: Model, deviceCount: nat, pending: set<nat>, i: nat)
    requires Hold(queues, m, deviceCount, pending) && i in pending && QueueOf(m, i, deviceCount) <= deviceCount
    ensures i in queues[QueueOf(m, i, deviceCount)]
  {
    var q := QueueOf(m, i, deviceCount);
    assert HoldsQueue(queues[q], q, m, deviceCount, pending);
  }

  // ----- nothing is left over -----

  /** The producer of an operand that is not known from the start comes before its
      readers in a valid model. */
  lemma {:induction false} ProducerIsEarlier(ops: seq<Operation>, known: set<nat>, i: nat, x: nat) returns (j: nat)
    requires Ordered(ops, known) && i < |ops| && x in ops[i].inputs && x !in known
    ensures j < i && x in ops[j].outputs
  {
    if x in ops[0].outputs {
      j := 0;
    } else {
      j := ProducerIsEarlier(ops[1..], known + AsSet(ops[0].outputs), i - 1, x);
      j := j + 1;
    }
  }

  /** When every ready operation has been placed, every operation has been. */
  lemma {:induction false} AllArePlaced(m: Model, order: seq<nat>, counts: seq<nat>, i: nat)
    requires ShallowValid(m) && InRange(order, |m.operations|)
    requires |counts| == |m.operations| && forall l :: 0 <= l < |counts| ==> counts[l] == Unknown(m.operations[l].inputs, KnownAfter(m, order))
    requires Pending(counts, order) == {}
    requires i < |m.operations|
    ensures i in order
    decreases i
  {
    forall x | x in m.operations[i].inputs ensures x in KnownAfter(m, order) {
      if x !in KnownSet(m) {
        var j := ProducerIsEarlier(m.operations, KnownSet(m), i, x);
        AllArePlaced(m, order, counts, j);
        OutputsOfMembers(Pick(m, order));
        var p :| 0 <= p < |order| && order[p] == j;
        assert x in Pick(m, order)[p].outputs;
      }
    }
    UnknownIsNone(m.operations[i].inputs, KnownAfter(m, order));
    assert i !in Pending(counts, order);
  }
}
