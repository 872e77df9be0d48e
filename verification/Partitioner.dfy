/** The partitioner: operations are grouped by device as they become ready, and the
    models of interpreted control flow operations are partitioned in their turn. */
module Partitioner {
  import opened Models
  import opened Sequences
  import opened Scheduling
  import opened FlatPlans
  import opened Partitions
  import opened Runs
  import opened ExecutionSteps
  import opened Trackers
  import opened Queues

  // ----- steps before temporaries are made outputs -----

  // A step with no temporaries among its outputs.
  function Drafted(step: LogicalStep): LogicalStep {
    if step.ExecutionStep? then step.(stepOutputs := Only(Written(step.operations), step.model, SubgraphOutput)) else step
  }

  function Draft(code: seq<LogicalStep>): (r: seq<LogicalStep>)
    ensures |r| == |code| && forall p :: 0 <= p < |code| ==> r[p] == Drafted(code[p])
  {
    seq(|code|, p requires 0 <= p < |code| => Drafted(code[p]))
  }

  lemma DraftConcatenation(a: seq<LogicalStep>, b: seq<LogicalStep>)
    ensures Draft(a + b) == Draft(a) + Draft(b)
  {
  }

  ghost predicate AllFit(gs: seq<Group>, m: Model) {
    forall i :: 0 <= i < |gs| ==> GroupFits(gs[i], m)
  }

  lemma EmitSplits(m: Model, boundary: set<nat>, gs: seq<Group>, mi: nat, base: nat, next: nat)
    requires AllFit(gs, m) && gs != []
    ensures AllFit(gs[1..], m) && GroupFits(gs[0], m)
    ensures EmitGroups(m, boundary, gs, mi, base, next) ==
            EmitGroup(m, boundary, gs[0], mi, base, next) + EmitGroups(m, boundary, gs[1..], mi, base + GroupSize(gs[0]), next + GroupModels(gs[0]))
  {
    hide EmitGroup, GroupFits, GroupSize, GroupModels;
  }

  /** The draft does not depend on what is read across the boundary. */
  lemma {:induction false} DraftIgnoresBoundary(m: Model, a: set<nat>, b: set<nat>, gs: seq<Group>, mi: nat, base: nat, next: nat)
    requires AllFit(gs, m)
    ensures Draft(EmitGroups(m, a, gs, mi, base, next)) == Draft(EmitGroups(m, b, gs, mi, base, next))
  {
    hide Draft, EmitGroup, EmitGroups, GroupFits, GroupSize, GroupModels;
    if gs == [] {
      NothingEmitted(m, a, mi, base, next);
      NothingEmitted(m, b, mi, base, next);
    } else {
      var g, rest := gs[0], gs[1..];
      var base', next' := base + GroupSize(g), next + GroupModels(g);
      EmitSplits(m, a, gs, mi, base, next);
      EmitSplits(m, b, gs, mi, base, next);
      GroupIgnoresBoundary(m, a, b, g, mi, base, next);
      DraftIgnoresBoundary(m, a, b, rest, mi, base', next');
      DraftConcatenation(EmitGroup(m, a, g, mi, base, next), EmitGroups(m, a, rest, mi, base', next'));
      DraftConcatenation(EmitGroup(m, b, g, mi, base, next), EmitGroups(m, b, rest, mi, base', next'));
    }
  }

  lemma NothingEmitted(m: Model, boundary: set<nat>, mi: nat, base: nat, next: nat)
    ensures EmitGroups(m, boundary, [], mi, base, next) == []
  {
  }

  lemma GroupIgnoresBoundary(m: Model, a: set<nat>, b: set<nat>, g: Group, mi: nat, base: nat, next: nat)
    requires GroupFits(g, m)
    ensures Draft(EmitGroup(m, a, g, mi, base, next)) == Draft(EmitGroup(m, b, g, mi, base, next))
  {
    hide Schedules, Emit, CodeSize, ModelCount, StepInputs, StepOutputs;
  }

  lemma {:induction false} EmitAppend(m: Model, boundary: set<nat>, gs: seq<Group>, g: Group, mi: nat, base: nat, next: nat)
    requires AllFit(gs, m) && GroupFits(g, m)
    ensures AllFit(gs + [g], m)
    ensures EmitGroups(m, boundary, gs + [g], mi, base, next) ==
            EmitGroups(m, boundary, gs, mi, base, next) + EmitGroup(m, boundary, g, mi, base + CodeSize(gs), next + ModelCount(gs))
    ensures AddedModels(m, gs + [g]) == AddedModels(m, gs) + ModelsOfGroup(m, g)
    ensures CodeSize(gs + [g]) == CodeSize(gs) + GroupSize(g) && ModelCount(gs + [g]) == ModelCount(gs) + GroupModels(g)
  {
    hide EmitGroup, ModelsOfGroup, GroupFits, GroupSize, GroupModels;
    RestOfOne(g);
    if gs == [] {
      NothingJoined([g]);
    } else {
      EmitAppend(m, boundary, gs[1..], g, mi, base + GroupSize(gs[0]), next + GroupModels(gs[0]));
      RestOfJoined(gs, [g]);
    }
  }

  lemma {:induction false} OrderAppend(gs: seq<Group>, g: Group)
    ensures Order(gs + [g]) == Order(gs) + OpsOf(g)
  {
    hide OpsOf;
    RestOfOne(g);
    if gs == [] {
      NothingJoined([g]);
      NothingJoined(OpsOf(g));
    } else {
      OrderAppend(gs[1..], g);
      RestOfJoined(gs, [g]);
      Regrouped(OpsOf(gs[0]), Order(gs[1..]), OpsOf(g));
    }
  }

  // ----- what a step model has seen -----

  /** A step has seen only operands that are known. */
  lemma {:induction false} SeenIsKnown(ops: seq<Operation>, known: set<nat>)
    requires Ordered(ops, known)
    ensures Seen(ops) <= known + OutputsOf(ops)
  {
    if ops != [] { SeenIsKnown(ops[1..], known + AsSet(ops[0].outputs)); }
  }

  class ExecutionPlan {
    var steps: seq<LogicalStep>
    var sourceModels: seq<Model>

    constructor ()
      ensures steps == [] && sourceModels == []
    {
      steps, sourceModels := [], [];
    }

    method AddModel(m: Model) returns (index: nat)
      modifies this`sourceModels
      ensures index == |old(sourceModels)| && sourceModels == old(sourceModels) + [m]
    {
      index := |sourceModels|;
      sourceModels := sourceModels + [m];
    }

    method SetStep(index: nat, step: LogicalStep)
      requires index < |steps|
      modifies this`steps
      ensures steps == old(steps)[index := step]
    {
      steps := steps[index := step];
    }

    method SetSteps(steps: seq<LogicalStep>)
      modifies this`steps
      ensures this.steps == steps
    {
      this.steps := steps;
    }

    method AddStep(step: LogicalStep)
      modifies this`steps
      ensures steps == old(steps) + [step]
    {
      steps := steps + [step];
    }
  }

  // ----- the state of the partitioning of one model -----

  /** Operations are placed in an order in which they can run, the tracker has counted
      what they made known, and the ready ones that have not been placed are queued. */
  ghost predicate Partitioning(m: Model, deviceCount: nat, tracker: OperandTracker, queues: Queues, order: seq<nat>)
    reads tracker
  {
    && ShallowValid(m) && DevicesBelow(m, deviceCount)
    && tracker.model == m && CanRun(m, order)
    && tracker.Counts(KnownAfter(m, order)) && tracker.ListsReaders(|m.operations|)
    && Hold(queues, m, deviceCount, Pending(tracker.unknownInputCount, order))
    && PlacedAreReady(tracker.unknownInputCount, order)
  }

  ghost predicate PlacedAreReady(counts: seq<nat>, order: seq<nat>) {
    forall i :: i in order ==> i < |counts| && counts[i] == 0
  }

  method Begin(m: Model, deviceCount: nat) returns (tracker: OperandTracker, queues: Queues)
    requires ShallowValid(m) && DevicesBelow(m, deviceCount)
    ensures fresh(tracker) && Partitioning(m, deviceCount, tracker, queues, [])
  {
    hide Ordered, Unknown, Readers, Hold;
    tracker := new OperandTracker(m);
    forall i | 0 <= i < |m.operations| ensures InRange(m.operations[i].inputs, |m.operands|) {
      assert OperationFits(m.operations[i], m.operands);
    }
    var ready := tracker.Init();
    NothingHeld(m, deviceCount);
    DevicesAreBelow(m, deviceCount);
    queues := EnqueueAll(seq(deviceCount + 1, _ => []), m, deviceCount, ready, {});
    assert {} + AsSet(ready) == Pending(tracker.unknownInputCount, []);
    NothingRun(m);
  }

  lemma DevicesAreBelow(m: Model, n: nat)
    requires DevicesBelow(m, n)
    ensures forall i :: 0 <= i < |m.operations| ==> QueueOf(m, i, n) <= n
  {
    forall i | 0 <= i < |m.operations| ensures QueueOf(m, i, n) <= n {
      assert PlacedBelow(m.operations[i].placement, n);
    }
  }

  lemma NothingRun(m: Model)
    ensures CanRun(m, []) && KnownAfter(m, []) == KnownSet(m)
  {
    assert Pick(m, []) == [];
  }

  /** Places the first operation of a queue. */
  method Place(m: Model, deviceCount: nat, tracker: OperandTracker, queues: Queues, q: nat, ghost order: seq<nat>)
    returns (i: nat, r: Queues)
    requires Partitioning(m, deviceCount, tracker, queues, order) && q < |queues| && queues[q] != []
    modifies tracker
    ensures i == queues[q][0] && i < |m.operations| && i !in order && QueueOf(m, i, deviceCount) == q
    ensures q < |r| && forall j :: j in queues[q] ==> j == i || j in r[q]
    ensures Partitioning(m, deviceCount, tracker, r, order + [i])
  {
    hide Ordered, Unknown, Readers, Hold, ShallowValid, DevicesBelow;
    ghost var before := tracker.unknownInputCount;
    i, r := Pop(queues, m, deviceCount, q, Pending(before, order));
    CanPlace(m, order, before, i);
    PickAppend(m, order, i);
    OutputsAreUnknown(m, order, i);
    var ready := tracker.MarkProcessed(i, KnownAfter(m, order));
    DevicesAreBelow(m, deviceCount);
    ReadyAreNew(order, i, before, tracker.unknownInputCount, ready);
    r := EnqueueAll(r, m, deviceCount, ready, Pending(before, order) - {i});
    StillQueued(queues, r, m, deviceCount, q, i, Pending(before, order), Pending(tracker.unknownInputCount, order + [i]));
  }

  lemma StillQueued(queues: Queues, r: Queues, m: Model, deviceCount: nat, q: nat, i: nat, pending: set<nat>, pending': set<nat>)
    requires q < |queues| && Hold(queues, m, deviceCount, pending) && Hold(r, m, deviceCount, pending')
    requires pending <= pending' + {i}
    ensures q < |r| && forall j :: j in queues[q] ==> j == i || j in r[q]
  {
    hide QueueOf;
    assert HoldsQueue(queues[q], q, m, deviceCount, pending) && HoldsQueue(r[q], q, m, deviceCount, pending');
  }

  lemma CanPlace(m: Model, order: seq<nat>, counts: seq<nat>, i: nat)
    requires ShallowValid(m) && CanRun(m, order) && i in Pending(counts, order)
    requires |counts| == |m.operations| && forall l :: 0 <= l < |counts| ==> counts[l] == Unknown(m.operations[l].inputs, KnownAfter(m, order))
    ensures i < |m.operations| && CanRun(m, order + [i])
  {
    hide Ordered, ShallowValid, Unknown;
    UnknownIsNone(m.operations[i].inputs, KnownAfter(m, order));
    RunsNext(m, order, i);
  }

  lemma ReadyAreNew(order: seq<nat>, i: nat, before: seq<nat>, after: seq<nat>, ready: seq<nat>)
    requires NewlyReady(ready, before, after) && PlacedAreReady(before, order) && i in Pending(before, order)
    ensures forall x :: x in ready ==> x < |after| && x !in Pending(before, order) - {i}
    ensures Pending(before, order) - {i} + AsSet(ready) == Pending(after, order + [i])
    ensures PlacedAreReady(after, order + [i])
    ensures Distinct(ready)
  {
  }

  /** The first operation of a queue can be placed next. */
  lemma FrontCanRun(m: Model, deviceCount: nat, tracker: OperandTracker, queues: Queues, q: nat, order: seq<nat>)
    requires Partitioning(m, deviceCount, tracker, queues, order) && q < |queues| && queues[q] != []
    ensures queues[q][0] < |m.operations| && QueueOf(m, queues[q][0], deviceCount) == q
    ensures CanRun(m, order + [queues[q][0]])
  {
    hide Ordered, Unknown, Readers, ShallowValid, DevicesBelow, CanRun;
    var i := queues[q][0];
    assert HoldsQueue(queues[q], q, m, deviceCount, Pending(tracker.unknownInputCount, order)) && i in queues[q];
    CanPlace(m, order, tracker.unknownInputCount, i);
  }

  // ----- a step for one device -----

  /** What an operation writes is new to those that it comes after. */
  lemma {:induction false} OutputsAreNew(ops: seq<Operation>, op: Operation, known: set<nat>)
    requires Ordered(ops + [op], known)
    ensures Distinct(op.outputs) && forall x :: x in op.outputs ==> x !in Seen(ops) && x !in op.inputs && x !in known
  {
    if ops == [] {
      assert ops + [op] == [op];
    } else {
      assert (ops + [op])[1..] == ops[1..] + [op];
      OutputsAreNew(ops[1..], op, known + AsSet(ops[0].outputs));
    }
  }

  lemma PickConcatenation(m: Model, a: seq<nat>, b: seq<nat>)
    requires InRange(a, |m.operations|) && InRange(b, |m.operations|)
    ensures InRange(a + b, |m.operations|) && Pick(m, a + b) == Pick(m, a) + Pick(m, b)
  {
  }

  lemma OutputsAreNewInStep(m: Model, order: seq<nat>, ops: seq<nat>, i: nat)
    requires CanRun(m, order + ops + [i])
    ensures InRange(ops, |m.operations|) && i < |m.operations|
    ensures Distinct(m.operations[i].outputs)
    ensures forall x :: x in m.operations[i].outputs ==> x !in Seen(Pick(m, ops)) && x !in m.operations[i].inputs
  {
    hide Ordered, Seen, Pick, OutputsOf, KnownSet;
    assert i in order + ops + [i];
    assert forall x :: x in order || x in ops ==> x in order + ops + [i];
    var a, b, op := Pick(m, order), Pick(m, ops), m.operations[i];
    PickAppend(m, order + ops, i);
    PickConcatenation(m, order, ops);
    assert a + b + [op] == a + (b + [op]);
    OrderedConcatenation(a, b + [op], KnownSet(m));
    OutputsAreNew(b, op, KnownSet(m) + OutputsOf(a));
  }

  lemma {:induction false} DistinctIsShort(xs: seq<nat>, n: nat)
    requires Distinct(xs) && InRange(xs, n)
    ensures |xs| <= n
  {
    if xs == [] {
    } else if n - 1 in xs {
      var p :| 0 <= p < |xs| && xs[p] == n - 1;
      var rest := xs[..p] + xs[p + 1..];
      assert forall x :: x in rest ==> x in xs && x != n - 1;
      DistinctIsShort(rest, n - 1);
    } else {
      assert xs[0] in xs;
      DistinctIsShort(xs, n - 1);
    }
  }

  /** Forms one step from everything that its device can run by now. */
  method DeviceRound(plan: ExecutionPlan, m: Model, mi: nat, d: nat, deviceCount: nat, tracker: OperandTracker, queues: Queues,
                     ghost order: seq<nat>)
    returns (r: Queues, ghost ops: seq<nat>)
    requires Partitioning(m, deviceCount, tracker, queues, order) && d < deviceCount && queues[d] != []
    modifies plan`steps, tracker
    ensures Partitioning(m, deviceCount, tracker, r, order + ops)
    ensures GroupFits(Partition(d, ops), m) && ops != [] && d < |r| && r[d] == []
    ensures forall i :: i in queues[d] ==> i in ops
    ensures plan.steps == old(plan.steps) + Draft(EmitGroup(m, {}, Partition(d, ops), mi, 0, 0))
  {
    hide Ordered, Hold, Partitioning, ShallowValid, StepInputs, Written, Only, Seen, OperationFits;
    var builder := new ExecutionStepBuilder(m, mi);
    r, ops := queues, [];
    assert order + ops == order;
    StartsAnew(m, deviceCount, tracker, queues, order);
    while r[d] != []
      invariant plan.steps == old(plan.steps)
      invariant builder.source == m && builder.sourceModelIndex == mi && builder.Valid()
      invariant |r| == deviceCount + 1 && Partitioning(m, deviceCount, tracker, r, order + ops)
      invariant InRange(ops, |m.operations|) && builder.added == Pick(m, ops)
      invariant forall i :: i in ops ==> m.operations[i].placement == OnDevice(d)
      invariant r[d] == [] ==> ops != []
      invariant forall i :: i in queues[d] ==> i in ops || i in r[d]
      decreases |m.operations| - |order + ops|
    {
      FrontCanRun(m, deviceCount, tracker, r, d, order + ops);
      OutputsAreNewInStep(m, order, ops, r[d][0]);
      OperationsFit(m, deviceCount, tracker, r, order + ops);
      var ok := builder.AddOperation(m.operations[r[d][0]]);
      ghost var o := ops;
      PickAppend(m, ops, r[d][0]);
      var i;
      i, r := Place(m, deviceCount, tracker, r, d, order + ops);
      ops := ops + [i];
      Regrouped(order, o, [i]);
      StartsAnew(m, deviceCount, tracker, r, order + ops);
    }
    var step := builder.Finish();
    plan.AddStep(step);
    PartitionDraft(m, mi, d, ops);
  }

  lemma StartsAnew(m: Model, deviceCount: nat, tracker: OperandTracker, queues: Queues, order: seq<nat>)
    requires Partitioning(m, deviceCount, tracker, queues, order)
    ensures |queues| == deviceCount + 1 && |order| <= |m.operations|
  {
    DistinctIsShort(order, |m.operations|);
  }

  lemma OperationsFit(m: Model, deviceCount: nat, tracker: OperandTracker, queues: Queues, order: seq<nat>)
    requires Partitioning(m, deviceCount, tracker, queues, order)
    ensures forall i :: 0 <= i < |m.operations| ==> OperationFits(m.operations[i], m.operands)
  {
  }

  lemma PartitionDraft(m: Model, mi: nat, d: nat, ops: seq<nat>)
    requires GroupFits(Partition(d, ops), m)
    ensures Draft(EmitGroup(m, {}, Partition(d, ops), mi, 0, 0)) ==
            [ExecutionStep(mi, m, Pick(m, ops), StepInputs(m, Pick(m, ops)), Only(Written(Pick(m, ops)), m, SubgraphOutput))]
  {
  }

  // ----- interpreted control flow -----

  lemma DraftOfOne(step: LogicalStep)
    requires !step.ExecutionStep?
    ensures Draft([step]) == [step]
  {
  }

  lemma DraftBetween(head: LogicalStep, code: seq<LogicalStep>, jump: LogicalStep)
    requires !head.ExecutionStep? && !jump.ExecutionStep?
    ensures Draft([head] + code + [jump]) == [head] + Draft(code) + [jump]
  {
    hide Draft;
    DraftConcatenation([head] + code, [jump]);
    DraftConcatenation([head], code);
    DraftOfOne(head);
    DraftOfOne(jump);
  }

  lemma DraftTwoParts(head: LogicalStep, a: seq<LogicalStep>, jump: LogicalStep, b: seq<LogicalStep>, last: LogicalStep)
    requires !head.ExecutionStep? && !jump.ExecutionStep? && !last.ExecutionStep?
    ensures Draft([head] + a + [jump] + b + [last]) == [head] + Draft(a) + [jump] + Draft(b) + [last]
  {
    hide Draft;
    DraftConcatenation([head] + a + [jump] + b, [last]);
    DraftConcatenation([head] + a + [jump], b);
    DraftBetween(head, a, jump);
    DraftOfOne(last);
  }

  lemma Patched<T>(s: seq<T>, x: T, code: seq<T>, y: T)
    ensures (s + [x] + code)[|s| := y] == s + ([y] + code)
  {
  }

  lemma PatchedLoop<T>(s: seq<T>, x: T, a: seq<T>, jump: T, b: seq<T>, head: T)
    ensures (s + [x] + a + [jump] + b + [jump])[|s| := head] == s + ([head] + a + [jump] + b + [jump])
  {
    Patched(s, x, a + [jump] + b + [jump], head);
    assert s + [x] + a + [jump] + b + [jump] == s + [x] + (a + [jump] + b + [jump]);
    assert [head] + (a + [jump] + b + [jump]) == [head] + a + [jump] + b + [jump];
  }

  lemma PatchedBranch<T>(s: seq<T>, x: T, a: seq<T>, z: T, b: seq<T>, jump: T, head: T)
    ensures (s + [x] + a + [z] + b)[|s| + 1 + |a| := jump][|s| := head] == s + ([head] + a + [jump] + b)
  {
    Patched(s + [x] + a, z, b, jump);
    assert s + [x] + a + [z] + b == s + [x] + a + [z] + b;
    Patched(s, x, a + [jump] + b, head);
    assert s + [x] + a + ([jump] + b) == s + [x] + (a + [jump] + b);
    assert [head] + (a + [jump] + b) == [head] + a + [jump] + b;
  }

  lemma HeadIsIfStep(op: Operation, t: seq<Group>, mi: nat, base: nat, next: nat)
    requires op.placement.InterpretIf?
    ensures IfHead(op, t, mi, base, next).IfStep?
  {
  }

  lemma HeadIsWhileStep(op: Operation, c: seq<Group>, b: seq<Group>, mi: nat, base: nat, next: nat)
    requires op.placement.InterpretWhile?
    ensures WhileHead(op, c, b, mi, base, next).WhileStep?
  {
  }

  lemma BranchEmits(m: Model, boundary: set<nat>, mi: nat, i: nat, t: seq<Group>, e: seq<Group>, base: nat, next: nat)
    requires GroupFits(Branch(i, t, e), m)
    ensures i < |m.operations|
    ensures var p := m.operations[i].placement;
            && p.InterpretIf? && Schedules(t, p.thenModel) && Schedules(e, p.elseModel)
            && EmitGroup(m, boundary, Branch(i, t, e), mi, base, next) ==
               [IfHead(m.operations[i], t, mi, base, next)] + Emit(p.thenModel, t, next, base + 1, next + 2) +
               [GotoStep(base + 2 + CodeSize(t) + CodeSize(e))] +
               Emit(p.elseModel, e, next + 1, base + 2 + CodeSize(t), next + 2 + ModelCount(t))
  {
    hide Emit, Schedules, CodeSize, ModelCount, AddedModels, Draft, Pick, StepInputs, StepOutputs, IfHead, WhileHead, GroupSize, Ordered, Order, ModelsOfGroup;
  }

  lemma BranchAdds(m: Model, i: nat, t: seq<Group>, e: seq<Group>)
    requires GroupFits(Branch(i, t, e), m)
    ensures var p := m.operations[i].placement;
            && Schedules(t, p.thenModel) && Schedules(e, p.elseModel)
            && ModelsOfGroup(m, Branch(i, t, e)) == [p.thenModel, p.elseModel] + AddedModels(p.thenModel, t) + AddedModels(p.elseModel, e)
  {
    hide Schedules, ModelCount, AddedModels, Pick;
  }

  lemma LoopEmits(m: Model, boundary: set<nat>, mi: nat, i: nat, c: seq<Group>, b: seq<Group>, base: nat, next: nat)
    requires GroupFits(Loop(i, c, b), m)
    ensures i < |m.operations|
    ensures var p := m.operations[i].placement;
            && p.InterpretWhile? && Schedules(c, p.condModel) && Schedules(b, p.bodyModel)
            && EmitGroup(m, boundary, Loop(i, c, b), mi, base, next) ==
               [WhileHead(m.operations[i], c, b, mi, base, next)] + Emit(p.condModel, c, next, base + 1, next + 2) +
               [GotoStep(base)] +
               Emit(p.bodyModel, b, next + 1, base + 2 + CodeSize(c), next + 2 + ModelCount(c)) +
               [GotoStep(base)]
  {
    hide Emit, Schedules, CodeSize, ModelCount, AddedModels, Draft, Pick, StepInputs, StepOutputs, IfHead, WhileHead, GroupSize, Ordered, Order, ModelsOfGroup;
  }

  lemma LoopAdds(m: Model, i: nat, c: seq<Group>, b: seq<Group>)
    requires GroupFits(Loop(i, c, b), m)
    ensures var p := m.operations[i].placement;
            && Schedules(c, p.condModel) && Schedules(b, p.bodyModel)
            && ModelsOfGroup(m, Loop(i, c, b)) == [p.condModel, p.bodyModel] + AddedModels(p.condModel, c) + AddedModels(p.bodyModel, b)
  {
    hide Schedules, ModelCount, AddedModels, Pick;
  }

  lemma BranchDraft(m: Model, mi: nat, i: nat, t: seq<Group>, e: seq<Group>, base: nat, next: nat)
    requires GroupFits(Branch(i, t, e), m)
    ensures var p := m.operations[i].placement;
            Schedules(t, p.thenModel) && Schedules(e, p.elseModel)
            && Draft(EmitGroup(m, {}, Branch(i, t, e), mi, base, next)) ==
               [IfHead(m.operations[i], t, mi, base, next)] + Draft(Emit(p.thenModel, t, next, base + 1, next + 2)) +
               [GotoStep(base + 2 + CodeSize(t) + CodeSize(e))] +
               Draft(Emit(p.elseModel, e, next + 1, base + 2 + CodeSize(t), next + 2 + ModelCount(t)))
            && ModelsOfGroup(m, Branch(i, t, e)) == [p.thenModel, p.elseModel] + AddedModels(p.thenModel, t) + AddedModels(p.elseModel, e)
  {
    hide *;
    BranchEmits(m, {}, mi, i, t, e, base, next);
    BranchAdds(m, i, t, e);
    var p := m.operations[i].placement;
    HeadIsIfStep(m.operations[i], t, mi, base, next);
    var head, jump := IfHead(m.operations[i], t, mi, base, next), GotoStep(base + 2 + CodeSize(t) + CodeSize(e));
    var a := Emit(p.thenModel, t, next, base + 1, next + 2);
    var b := Emit(p.elseModel, e, next + 1, base + 2 + CodeSize(t), next + 2 + ModelCount(t));
    DraftConcatenation([head] + a + [jump], b);
    DraftBetween(head, a, jump);
  }

  lemma LoopDraft(m: Model, mi: nat, i: nat, c: seq<Group>, b: seq<Group>, base: nat, next: nat)
    requires GroupFits(Loop(i, c, b), m)
    ensures var p := m.operations[i].placement;
            Schedules(c, p.condModel) && Schedules(b, p.bodyModel)
            && Draft(EmitGroup(m, {}, Loop(i, c, b), mi, base, next)) ==
               [WhileHead(m.operations[i], c, b, mi, base, next)] + Draft(Emit(p.condModel, c, next, base + 1, next + 2)) +
               [GotoStep(base)] +
               Draft(Emit(p.bodyModel, b, next + 1, base + 2 + CodeSize(c), next + 2 + ModelCount(c))) +
               [GotoStep(base)]
            && ModelsOfGroup(m, Loop(i, c, b)) == [p.condModel, p.bodyModel] + AddedModels(p.condModel, c) + AddedModels(p.bodyModel, b)
  {
    hide *;
    LoopEmits(m, {}, mi, i, c, b, base, next);
    LoopAdds(m, i, c, b);
    var p := m.operations[i].placement;
    HeadIsWhileStep(m.operations[i], c, b, mi, base, next);
    DraftTwoParts(WhileHead(m.operations[i], c, b, mi, base, next), Emit(p.condModel, c, next, base + 1, next + 2), GotoStep(base),
                  Emit(p.bodyModel, b, next + 1, base + 2 + CodeSize(c), next + 2 + ModelCount(c)), GotoStep(base));
  }

  lemma IfFits(m: Model, i: nat, t: seq<Group>, e: seq<Group>)
    requires i < |m.operations| && m.operations[i].placement.InterpretIf?
    requires Schedules(t, m.operations[i].placement.thenModel) && Schedules(e, m.operations[i].placement.elseModel)
    ensures GroupFits(Branch(i, t, e), m)
  {
    hide Schedules;
  }

  lemma WhileFits(m: Model, i: nat, c: seq<Group>, b: seq<Group>)
    requires i < |m.operations| && m.operations[i].placement.InterpretWhile?
    requires Schedules(c, m.operations[i].placement.condModel) && Schedules(b, m.operations[i].placement.bodyModel)
    ensures GroupFits(Loop(i, c, b), m)
  {
    hide Schedules;
  }

  // The lists grown by the steps and models of a group.
  lemma BranchIsEmitted(m: Model, mi: nat, i: nat, t: seq<Group>, e: seq<Group>, s: seq<LogicalStep>, models0: seq<Model>,
                        head: LogicalStep, a: seq<LogicalStep>, jump: LogicalStep, b: seq<LogicalStep>,
                        steps: seq<LogicalStep>, models: seq<Model>)
    requires i < |m.operations| && m.operations[i].placement.InterpretIf?
    requires Schedules(t, m.operations[i].placement.thenModel) && Schedules(e, m.operations[i].placement.elseModel)
    requires head == IfHead(m.operations[i], t, mi, |s|, |models0|) && jump == GotoStep(|s| + 2 + CodeSize(t) + CodeSize(e))
    requires a == Draft(Emit(m.operations[i].placement.thenModel, t, |models0|, |s| + 1, |models0| + 2))
    requires b == Draft(Emit(m.operations[i].placement.elseModel, e, |models0| + 1, |s| + 2 + CodeSize(t), |models0| + 2 + ModelCount(t)))
    requires steps == s + ([head] + a + [jump] + b)
    requires var p := m.operations[i].placement;
             models == models0 + [p.thenModel] + [p.elseModel] + AddedModels(p.thenModel, t) + AddedModels(p.elseModel, e)
    ensures GroupFits(Branch(i, t, e), m)
    ensures steps == s + Draft(EmitGroup(m, {}, Branch(i, t, e), mi, |s|, |models0|)) && models == models0 + ModelsOfGroup(m, Branch(i, t, e))
  {
    hide *;
    IfFits(m, i, t, e);
    BranchDraft(m, mi, i, t, e, |s|, |models0|);
  }

  lemma LoopIsEmitted(m: Model, mi: nat, i: nat, c: seq<Group>, b: seq<Group>, s: seq<LogicalStep>, models0: seq<Model>,
                      head: LogicalStep, first: seq<LogicalStep>, jump: LogicalStep, second: seq<LogicalStep>,
                      steps: seq<LogicalStep>, models: seq<Model>)
    requires i < |m.operations| && m.operations[i].placement.InterpretWhile?
    requires Schedules(c, m.operations[i].placement.condModel) && Schedules(b, m.operations[i].placement.bodyModel)
    requires head == WhileHead(m.operations[i], c, b, mi, |s|, |models0|) && jump == GotoStep(|s|)
    requires first == Draft(Emit(m.operations[i].placement.condModel, c, |models0|, |s| + 1, |models0| + 2))
    requires second == Draft(Emit(m.operations[i].placement.bodyModel, b, |models0| + 1, |s| + 2 + CodeSize(c), |models0| + 2 + ModelCount(c)))
    requires steps == s + ([head] + first + [jump] + second + [jump])
    requires var p := m.operations[i].placement;
             models == models0 + [p.condModel] + [p.bodyModel] + AddedModels(p.condModel, c) + AddedModels(p.bodyModel, b)
    ensures GroupFits(Loop(i, c, b), m)
    ensures steps == s + Draft(EmitGroup(m, {}, Loop(i, c, b), mi, |s|, |models0|)) && models == models0 + ModelsOfGroup(m, Loop(i, c, b))
  {
    hide *;
    WhileFits(m, i, c, b);
    LoopDraft(m, mi, i, c, b, |s|, |models0|);
  }

  lemma ReferredModels(m: Model, i: nat, deviceCount: nat)
    requires Valid(m) && DevicesBelow(m, deviceCount) && i < |m.operations|
    ensures var op := m.operations[i];
            op.placement.InterpretIf? ==>
              && Valid(op.placement.thenModel) && DevicesBelow(op.placement.thenModel, deviceCount)
              && Valid(op.placement.elseModel) && DevicesBelow(op.placement.elseModel, deviceCount)
              && |op.inputs| >= IF_FIRST_INPUT
    ensures var op := m.operations[i];
            op.placement.InterpretWhile? ==>
              && Valid(op.placement.condModel) && DevicesBelow(op.placement.condModel, deviceCount)
              && Valid(op.placement.bodyModel) && DevicesBelow(op.placement.bodyModel, deviceCount)
              && |op.inputs| >= WHILE_FIRST_INPUT && |op.placement.condModel.outputIndexes| == 1
  {
    assert PlacedBelow(m.operations[i].placement, deviceCount) && ValidPlacement(m.operations[i].placement);
    hide ShallowValid, DevicesBelow;
    ModelFits(m);
    assert OperationFits(m.operations[i], m.operands);
  }

  ghost predicate Refers(p: Placement, first: Model, second: Model) {
    (p.InterpretIf? && p.thenModel == first && p.elseModel == second) || (p.InterpretWhile? && p.condModel == first && p.bodyModel == second)
  }

  lemma RefersToTwo(p: Placement)
    ensures p.InterpretIf? ==> Refers(p, p.thenModel, p.elseModel)
    ensures p.InterpretWhile? ==> Refers(p, p.condModel, p.bodyModel)
    ensures 0 <= IF_CONDITION < IF_FIRST_INPUT && 0 <= WHILE_FIRST_INPUT
  {
  }

  // Adds two models and emits both, after a step that is still to be set, with a step
  // between them.
  method EmitModels(plan: ExecutionPlan, first: Model, second: Model, head: LogicalStep, between: LogicalStep, deviceCount: nat,
                    ghost m: Model, ghost i: nat)
    returns (index: nat, afterFirst: nat, ghost a: seq<Group>, ghost b: seq<Group>)
    requires Valid(first) && Valid(second) && DevicesBelow(first, deviceCount) && DevicesBelow(second, deviceCount)
    requires i < |m.operations| && Refers(m.operations[i].placement, first, second)
    modifies plan
    ensures Schedules(a, first) && Schedules(b, second) && AllFit(a, first) && AllFit(b, second)
    ensures var base, next := |old(plan.steps)|, |old(plan.sourceModels)|;
            && index == next && afterFirst == base + 1 + CodeSize(a)
            && plan.steps == old(plan.steps) + [head] + Draft(Emit(first, a, next, base + 1, next + 2)) + [between]
                             + Draft(Emit(second, b, next + 1, base + 2 + CodeSize(a), next + 2 + ModelCount(a)))
            && plan.sourceModels == old(plan.sourceModels) + [first] + [second] + AddedModels(first, a) + AddedModels(second, b)
    decreases m, 0, 0
  {
    hide Valid, DevicesBelow, Emit, Schedules, AddedModels, CodeSize, ModelCount, Draft;
    ghost var models0 := plan.sourceModels;
    index := plan.AddModel(first);
    var secondIndex := plan.AddModel(second);
    assert plan.sourceModels == models0 + [first] + [second];
    plan.AddStep(head);
    a := PartitionTheWorkInternal(plan, first, index, deviceCount);
    ScheduleFits(first, a);
    afterFirst := |plan.steps|;
    plan.AddStep(between);
    b := PartitionTheWorkInternal(plan, second, secondIndex, deviceCount);
    ScheduleFits(second, b);
  }

  /** Emits the steps of an interpreted IF. */
  method EmitIf(plan: ExecutionPlan, m: Model, mi: nat, i: nat, deviceCount: nat) returns (ghost g: Group)
    requires Valid(m) && DevicesBelow(m, deviceCount)
    requires i < |m.operations| && m.operations[i].placement.InterpretIf?
    modifies plan
    ensures g.Branch? && g.op == i && GroupFits(g, m)
    ensures plan.steps == old(plan.steps) + Draft(EmitGroup(m, {}, g, mi, |old(plan.steps)|, |old(plan.sourceModels)|))
    ensures plan.sourceModels == old(plan.sourceModels) + ModelsOfGroup(m, g)
    decreases m, 0
  {
    hide *;
    RefersToTwo(m.operations[i].placement);
    var op := m.operations[i];
    var thenModel, elseModel := op.placement.thenModel, op.placement.elseModel;
    ReferredModels(m, i, deviceCount);
    var base := |plan.steps|;
    ghost var s, models0, next := plan.steps, plan.sourceModels, |plan.sourceModels|;
    ghost var x, z := IfStep((0, 0), 0, 0, [], [], [], [], [], []), GotoStep(0);
    var thenIndex, afterThen, t, e := EmitModels(plan, thenModel, elseModel, IfStep((0, 0), 0, 0, [], [], [], [], [], []), GotoStep(0), deviceCount, m, i);
    var elseIndex := thenIndex + 1;
    var head := IfStep((mi, op.inputs[IF_CONDITION]), base + 1, afterThen + 1,
                       Keys(mi, op.inputs[IF_FIRST_INPUT..]), Keys(mi, op.outputs),
                       Keys(thenIndex, thenModel.inputIndexes), Keys(thenIndex, thenModel.outputIndexes),
                       Keys(elseIndex, elseModel.inputIndexes), Keys(elseIndex, elseModel.outputIndexes));
    IfHeadIs(op, t, mi, base, next);
    ghost var a := Draft(Emit(thenModel, t, thenIndex, base + 1, next + 2));
    ghost var b := Draft(Emit(elseModel, e, elseIndex, base + 2 + CodeSize(t), next + 2 + ModelCount(t)));
    var jump := GotoStep(|plan.steps|);
    PatchedBranch(s, x, a, z, b, jump, head);
    plan.SetStep(afterThen, jump);
    plan.SetStep(base, head);
    g := Branch(i, t, e);
    BranchIsEmitted(m, mi, i, t, e, s, models0, head, a, jump, b, plan.steps, plan.sourceModels);
  }

  lemma IfHeadIs(op: Operation, t: seq<Group>, mi: nat, base: nat, next: nat)
    requires op.placement.InterpretIf? && |op.inputs| >= IF_FIRST_INPUT
    ensures var thenModel, elseModel := op.placement.thenModel, op.placement.elseModel;
            IfHead(op, t, mi, base, next) ==
            IfStep((mi, op.inputs[IF_CONDITION]), base + 1, base + 2 + CodeSize(t),
                   Keys(mi, op.inputs[IF_FIRST_INPUT..]), Keys(mi, op.outputs),
                   Keys(next, thenModel.inputIndexes), Keys(next, thenModel.outputIndexes),
                   Keys(next + 1, elseModel.inputIndexes), Keys(next + 1, elseModel.outputIndexes))
  {
    hide Keys, CodeSize;
  }

  lemma WhileHeadIs(op: Operation, c: seq<Group>, b: seq<Group>, mi: nat, base: nat, next: nat)
    requires op.placement.InterpretWhile? && |op.inputs| >= WHILE_FIRST_INPUT && |op.placement.condModel.outputIndexes| == 1
    ensures var condModel, bodyModel := op.placement.condModel, op.placement.bodyModel;
            WhileHead(op, c, b, mi, base, next) ==
            WhileStep(base + 1, base + 2 + CodeSize(c), base + 3 + CodeSize(c) + CodeSize(b),
                      Keys(mi, op.inputs[WHILE_FIRST_INPUT..]), Keys(mi, op.outputs),
                      Keys(next, condModel.inputIndexes), (next, condModel.outputIndexes[0]),
                      Keys(next + 1, bodyModel.inputIndexes), Keys(next + 1, bodyModel.outputIndexes))
  {
    hide Keys, CodeSize;
  }

  lemma ScheduleFits(m: Model, gs: seq<Group>)
    requires Schedules(gs, m)
    ensures forall i :: 0 <= i < |gs| ==> GroupFits(gs[i], m)
  {
    hide GroupFits;
  }

  lemma ModelFits(m: Model)
    requires ShallowValid(m)
    ensures forall i :: 0 <= i < |m.operations| ==> OperationFits(m.operations[i], m.operands)
  {
  }

  /** Emits the steps of an interpreted WHILE. */
  method EmitWhile(plan: ExecutionPlan, m: Model, mi: nat, i: nat, deviceCount: nat) returns (ghost g: Group)
    requires Valid(m) && DevicesBelow(m, deviceCount)
    requires i < |m.operations| && m.operations[i].placement.InterpretWhile?
    modifies plan
    ensures g.Loop? && g.op == i && GroupFits(g, m)
    ensures plan.steps == old(plan.steps) + Draft(EmitGroup(m, {}, g, mi, |old(plan.steps)|, |old(plan.sourceModels)|))
    ensures plan.sourceModels == old(plan.sourceModels) + ModelsOfGroup(m, g)
    decreases m, 0
  {
    hide *;
    RefersToTwo(m.operations[i].placement);
    var op := m.operations[i];
    var condModel, bodyModel := op.placement.condModel, op.placement.bodyModel;
    ReferredModels(m, i, deviceCount);
    var base := |plan.steps|;
    ghost var s, models0, next := plan.steps, plan.sourceModels, |plan.sourceModels|;
    ghost var x := WhileStep(0, 0, 0, [], [], [], (0, 0), [], []);
    var condIndex, afterCond, c, b := EmitModels(plan, condModel, bodyModel, WhileStep(0, 0, 0, [], [], [], (0, 0), [], []), GotoStep(base), deviceCount, m, i);
    var bodyIndex := condIndex + 1;
    plan.AddStep(GotoStep(base));
    ghost var first := Draft(Emit(condModel, c, condIndex, base + 1, next + 2));
    ghost var second := Draft(Emit(bodyModel, b, bodyIndex, base + 2 + CodeSize(c), next + 2 + ModelCount(c)));
    var head := WhileStep(base + 1, afterCond + 1, |plan.steps|,
                          Keys(mi, op.inputs[WHILE_FIRST_INPUT..]), Keys(mi, op.outputs),
                          Keys(condIndex, condModel.inputIndexes), (condIndex, condModel.outputIndexes[0]),
                          Keys(bodyIndex, bodyModel.inputIndexes), Keys(bodyIndex, bodyModel.outputIndexes));
    WhileHeadIs(op, c, b, mi, base, next);
    PatchedLoop(s, x, first, GotoStep(base), second, head);
    plan.SetStep(base, head);
    g := Loop(i, c, b);
    LoopIsEmitted(m, mi, i, c, b, s, models0, head, first, GotoStep(base), second, plan.steps, plan.sourceModels);
  }

  // ----- the whole model -----

  /** The plan has grown by the draft of the groups and by the models they refer to. */
  ghost predicate Planned(m: Model, mi: nat, gs: seq<Group>, steps0: seq<LogicalStep>, models0: seq<Model>,
                          steps: seq<LogicalStep>, models: seq<Model>)
    ensures Planned(m, mi, gs, steps0, models0, steps, models) ==> AllFit(gs, m)
  {
    && AllFit(gs, m)
    && steps == steps0 + Draft(EmitGroups(m, {}, gs, mi, |steps0|, |models0|))
    && models == models0 + AddedModels(m, gs)
  }

  lemma PlannedNothing(m: Model, mi: nat, steps: seq<LogicalStep>, models: seq<Model>)
    ensures Planned(m, mi, [], steps, models, steps, models)
  {
    NothingEmitted(m, {}, mi, |steps|, |models|);
  }

  lemma PlannedMore(m: Model, mi: nat, gs: seq<Group>, g: Group, steps0: seq<LogicalStep>, models0: seq<Model>,
                    steps: seq<LogicalStep>, models: seq<Model>, steps': seq<LogicalStep>, models': seq<Model>)
    requires Planned(m, mi, gs, steps0, models0, steps, models) && GroupFits(g, m)
    requires steps' == steps + Draft(EmitGroup(m, {}, g, mi, |steps|, |models|))
    requires models' == models + ModelsOfGroup(m, g)
    ensures Planned(m, mi, gs + [g], steps0, models0, steps', models')
  {
    hide GroupFits, EmitGroup, EmitGroups, AddedModels, ModelsOfGroup, CodeSize, ModelCount, GroupSize, GroupModels, Draft, Planned;
    PlannedIs(m, mi, gs, steps0, models0, steps, models);
    var a := EmitGroups(m, {}, gs, mi, |steps0|, |models0|);
    EmitAppend(m, {}, gs, g, mi, |steps0|, |models0|);
    var b := EmitGroup(m, {}, g, mi, |steps0| + CodeSize(gs), |models0| + ModelCount(gs));
    DraftConcatenation(a, b);
    IsPlanned(m, mi, gs + [g], steps0, models0, steps', models');
  }

  lemma PlannedIs(m: Model, mi: nat, gs: seq<Group>, steps0: seq<LogicalStep>, models0: seq<Model>, steps: seq<LogicalStep>, models: seq<Model>)
    requires Planned(m, mi, gs, steps0, models0, steps, models)
    ensures AllFit(gs, m)
    ensures steps == steps0 + Draft(EmitGroups(m, {}, gs, mi, |steps0|, |models0|)) && |steps| == |steps0| + CodeSize(gs)
    ensures models == models0 + AddedModels(m, gs) && |models| == |models0| + ModelCount(gs)
  {
    hide GroupFits, EmitGroups, AddedModels, CodeSize, ModelCount;
  }

  lemma IsPlanned(m: Model, mi: nat, gs: seq<Group>, steps0: seq<LogicalStep>, models0: seq<Model>, steps: seq<LogicalStep>, models: seq<Model>)
    requires AllFit(gs, m)
    requires steps == steps0 + Draft(EmitGroups(m, {}, gs, mi, |steps0|, |models0|)) && models == models0 + AddedModels(m, gs)
    ensures Planned(m, mi, gs, steps0, models0, steps, models)
  {
    hide GroupFits, EmitGroups, AddedModels, CodeSize, ModelCount;
  }

  /** Partitions a model: the plan grows by the steps of a schedule of the model. */
  method PartitionTheWorkInternal(plan: ExecutionPlan, m: Model, mi: nat, deviceCount: nat) returns (ghost gs: seq<Group>)
    requires Valid(m) && DevicesBelow(m, deviceCount)
    modifies plan
    ensures Schedules(gs, m)
    ensures plan.steps == old(plan.steps) + Draft(Emit(m, gs, mi, |old(plan.steps)|, |old(plan.sourceModels)|))
    ensures plan.sourceModels == old(plan.sourceModels) + AddedModels(m, gs)
    decreases m, 2
  {
    hide Valid, ShallowValid, Partitioning, Planned, Order, Hold, DevicesBelow, EmitGroup, GroupFits, ModelsOfGroup, GroupSize, GroupModels;
    ShallowlyValid(m);
    var tracker, queues := Begin(m, deviceCount);
    gs := [];
    PlannedNothing(m, mi, plan.steps, plan.sourceModels);
    NothingOrdered();
    ghost var steps0, models0 := plan.steps, plan.sourceModels;
    while true
      invariant fresh(tracker)
      invariant Partitioning(m, deviceCount, tracker, queues, Order(gs))
      invariant Planned(m, mi, gs, steps0, models0, plan.steps, plan.sourceModels)
      decreases |m.operations| - |Order(gs)|
    {
      StartsAnew(m, deviceCount, tracker, queues, Order(gs));
      var q := FindNextDeviceToProcess(queues);
      if q < 0 { break; }
      ghost var before := gs;
      if q < deviceCount {
        ghost var steps, ops := plan.steps, [];
        queues, ops := DeviceRound(plan, m, mi, q, deviceCount, tracker, queues, Order(gs));
        gs := gs + [Partition(q, ops)];
        OrderAppend(before, Partition(q, ops));
        PartitionIsPlanned(m, mi, before, q, ops, steps0, models0, steps, plan.steps, plan.sourceModels);
      } else {
        queues, gs := ControlRound(plan, m, mi, deviceCount, tracker, queues, gs, steps0, models0);
      }
      StartsAnew(m, deviceCount, tracker, queues, Order(gs));
    }
    AllArePlanned(m, mi, deviceCount, tracker, queues, gs, steps0, models0, plan.steps, plan.sourceModels);
  }

  /** Emits the interpreted operations that are ready. */
  method ControlRound(plan: ExecutionPlan, m: Model, mi: nat, deviceCount: nat, tracker: OperandTracker, queues: Queues,
                      ghost gs0: seq<Group>, ghost steps0: seq<LogicalStep>, ghost models0: seq<Model>)
    returns (r: Queues, ghost gs: seq<Group>)
    requires Valid(m) && DevicesBelow(m, deviceCount)
    requires Partitioning(m, deviceCount, tracker, queues, Order(gs0)) && deviceCount < |queues| && queues[deviceCount] != []
    requires Planned(m, mi, gs0, steps0, models0, plan.steps, plan.sourceModels)
    modifies plan, tracker
    ensures Partitioning(m, deviceCount, tracker, r, Order(gs)) && |Order(gs)| > |Order(gs0)|
    ensures deviceCount < |r| && r[deviceCount] == [] && forall i :: i in queues[deviceCount] ==> i in Order(gs)
    ensures Planned(m, mi, gs, steps0, models0, plan.steps, plan.sourceModels)
    decreases m, 1
  {
    hide Valid, ShallowValid, Partitioning, Planned, Order, Hold, DevicesBelow, EmitGroup, GroupFits, ModelsOfGroup, GroupSize, GroupModels;
    r, gs := queues, gs0;
    while r[deviceCount] != []
      invariant deviceCount < |r| && Partitioning(m, deviceCount, tracker, r, Order(gs))
      invariant |Order(gs)| > |Order(gs0)| || (r == queues && gs == gs0)
      invariant forall i :: i in queues[deviceCount] ==> i in Order(gs) || i in r[deviceCount]
      invariant Planned(m, mi, gs, steps0, models0, plan.steps, plan.sourceModels)
      decreases |m.operations| - |Order(gs)|
    {
      var i := r[deviceCount][0];
      FrontCanRun(m, deviceCount, tracker, r, deviceCount, Order(gs));
      IsInterpreted(m, i, deviceCount);
      ghost var g, before, steps, models := Partition(0, []), gs, plan.steps, plan.sourceModels;
      if m.operations[i].placement.InterpretIf? {
        g := EmitIf(plan, m, mi, i, deviceCount);
      } else {
        g := EmitWhile(plan, m, mi, i, deviceCount);
      }
      var _, queues' := Place(m, deviceCount, tracker, r, deviceCount, Order(gs));
      r, gs := queues', gs + [g];
      OrderAppend(before, g);
      PlannedMore(m, mi, before, g, steps0, models0, steps, models, plan.steps, plan.sourceModels);
      StartsAnew(m, deviceCount, tracker, r, Order(gs));
    }
  }

  lemma ShallowlyValid(m: Model)
    requires Valid(m)
    ensures ShallowValid(m)
  {
  }

  lemma NothingOrdered()
    ensures Order([]) == []
  {
  }

  lemma IsInterpreted(m: Model, i: nat, deviceCount: nat)
    requires DevicesBelow(m, deviceCount) && i < |m.operations| && QueueOf(m, i, deviceCount) == deviceCount
    ensures m.operations[i].placement.InterpretIf? || m.operations[i].placement.InterpretWhile?
  {
    assert PlacedBelow(m.operations[i].placement, deviceCount);
  }

  lemma PartitionIsPlanned(m: Model, mi: nat, gs: seq<Group>, d: nat, ops: seq<nat>, steps0: seq<LogicalStep>, models0: seq<Model>,
                           steps: seq<LogicalStep>, steps': seq<LogicalStep>, models: seq<Model>)
    requires Planned(m, mi, gs, steps0, models0, steps, models) && GroupFits(Partition(d, ops), m)
    requires steps' == steps + Draft(EmitGroup(m, {}, Partition(d, ops), mi, 0, 0))
    ensures Planned(m, mi, gs + [Partition(d, ops)], steps0, models0, steps', models)
  {
    hide Planned, Draft, StepInputs, StepOutputs;
    var g := Partition(d, ops);
    assert EmitGroup(m, {}, g, mi, 0, 0) == EmitGroup(m, {}, g, mi, |steps|, |models|);
    assert ModelsOfGroup(m, g) == [];
    hide EmitGroup, ModelsOfGroup;
    PlannedMore(m, mi, gs, g, steps0, models0, steps, models, steps', models);
  }

  /** When the queues are empty the plan holds a schedule of the whole model. */
  lemma AllArePlanned(m: Model, mi: nat, deviceCount: nat, tracker: OperandTracker, queues: Queues, gs: seq<Group>,
                      steps0: seq<LogicalStep>, models0: seq<Model>, steps: seq<LogicalStep>, models: seq<Model>)
    requires Partitioning(m, deviceCount, tracker, queues, Order(gs))
    requires forall p :: 0 <= p < |queues| ==> queues[p] == []
    requires Planned(m, mi, gs, steps0, models0, steps, models)
    ensures Schedules(gs, m)
    ensures steps == steps0 + Draft(Emit(m, gs, mi, |steps0|, |models0|))
    ensures models == models0 + AddedModels(m, gs)
  {
    hide Draft, EmitGroups, Order, Hold, GroupFits, BoundaryReads, AddedModels, Ordered, Unknown, Readers, ShallowValid, DevicesBelow;
    DevicesAreBelow(m, deviceCount);
    EmptyQueues(queues, m, deviceCount, Pending(tracker.unknownInputCount, Order(gs)));
    forall i | 0 <= i < |m.operations| ensures i in Order(gs) {
      AllArePlaced(m, Order(gs), tracker.unknownInputCount, i);
    }
    DraftIgnoresBoundary(m, {}, BoundaryReads(m, gs), gs, mi, |steps0|, |models0|);
  }
}
