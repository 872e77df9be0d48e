/** The flat plan: the logical steps that the partitioner emits for a schedule. */
module FlatPlans {
  import opened Models
  import opened Scheduling

  // (source model index, operand index within the model)
  type Key = (nat, nat)

  datatype LogicalStep =
    | ExecutionStep(sourceModelIndex: nat, model: Model, operations: seq<Operation>,
                    stepInputs: seq<nat>, stepOutputs: seq<nat>)
    | IfStep(condition: Key, thenStepIndex: nat, elseStepIndex: nat,
             outerInputs: seq<Key>, outerOutputs: seq<Key>,
             thenInputs: seq<Key>, thenOutputs: seq<Key>,
             elseInputs: seq<Key>, elseOutputs: seq<Key>)
    | WhileStep(condStepIndex: nat, bodyStepIndex: nat, exitStepIndex: nat,
                outerInputs: seq<Key>, outerOutputs: seq<Key>,
                condInputs: seq<Key>, condOutput: Key,
                bodyInputs: seq<Key>, bodyOutputs: seq<Key>)
    | GotoStep(target: nat)

  function Keys(mi: nat, operands: seq<nat>): (r: seq<Key>)
    ensures |r| == |operands|
    ensures forall i :: 0 <= i < |r| ==> r[i] == (mi, operands[i])
    ensures forall k :: k in r <==> k.0 == mi && k.1 in operands
    ensures Distinct(operands) ==> Distinct(r)
  {
    var r := seq(|operands|, i requires 0 <= i < |operands| => (mi, operands[i]));
    assert forall k: Key :: k.0 == mi && k.1 in operands ==> k in r by {
      forall k: Key | k.0 == mi && k.1 in operands ensures k in r {
        var i :| 0 <= i < |operands| && operands[i] == k.1;
        assert r[i] == k;
      }
    }
    r
  }

  // ----- the boundary of a step model -----

  /** The members of `xs` that are not in `seen`, each at its first occurrence. */
  function FirstSeen(xs: seq<nat>, seen: set<nat>): (r: seq<nat>)
    ensures Distinct(r)
    ensures forall x :: x in r <==> x in xs && x !in seen
  {
    if xs == [] then []
    else if xs[0] in seen then FirstSeen(xs[1..], seen)
    else [xs[0]] + FirstSeen(xs[1..], seen + {xs[0]})
  }

  /** The operands that are read before the operations have written them. */
  function Externals(ops: seq<Operation>, seen: set<nat>): (r: seq<nat>)
    ensures Distinct(r)
    ensures forall x :: x in r ==> x !in seen
  {
    if ops == [] then []
    else
      var a := FirstSeen(ops[0].inputs, seen);
      var b := Externals(ops[1..], seen + AsSet(ops[0].inputs) + AsSet(ops[0].outputs));
      assert forall i, j :: 0 <= i < |a| && 0 <= j < |b| ==> a[i] in a && b[j] in b && a[i] != b[j];
      a + b
  }

  function Written(ops: seq<Operation>): seq<nat> {
    if ops == [] then [] else ops[0].outputs + Written(ops[1..])
  }

  /** The members of `xs` with the given lifetime. */
  function Only(xs: seq<nat>, m: Model, l: Lifetime): (r: seq<nat>)
    ensures forall x :: x in r <==> x in xs && x < |m.operands| && m.operands[x].lifetime == l
    ensures Distinct(xs) ==> Distinct(r)
  {
    if xs == [] then []
    else
      var r := Only(xs[1..], m, l);
      assert Distinct(xs) ==> Distinct(xs[1..]) && xs[0] !in xs[1..];
      if xs[0] < |m.operands| && m.operands[xs[0]].lifetime == l then [xs[0]] + r else r
  }

  /** The members of `s` below `n`, in ascending order. */
  function Ascending(n: nat, s: set<nat>): (r: seq<nat>)
    ensures forall x :: x in r <==> x in s && x < n
    ensures Distinct(r)
  {
    if n == 0 then [] else Ascending(n - 1, s) + (if n - 1 in s then [n - 1] else [])
  }

  // Step model inputs: model inputs first, then temporaries, then model outputs
  // that an earlier partition wrote.
  function StepInputs(m: Model, ops: seq<Operation>): seq<nat> {
    var e := Externals(ops, {});
    Only(e, m, SubgraphInput) + Only(e, m, TemporaryVariable) + Only(e, m, SubgraphOutput)
  }

  // Step model outputs: model outputs first, then the temporaries that lie on a
  // partition boundary.
  function StepOutputs(m: Model, ops: seq<Operation>, boundary: set<nat>): seq<nat> {
    Only(Written(ops), m, SubgraphOutput) +
    Ascending(|m.operands|, AsSet(Only(Written(ops), m, TemporaryVariable)) * boundary)
  }

  /** What a partition reads from outside of it. */
  function GroupReads(m: Model, g: Group): set<nat> {
    if g.Partition? then
      if forall i :: i in g.ops ==> i < |m.operations| then AsSet(Externals(Pick(m, g.ops), {})) else {}
    else if g.op >= |m.operations| then {}
    else
      var op := m.operations[g.op];
      if g.Branch? && |op.inputs| >= IF_FIRST_INPUT then {op.inputs[IF_CONDITION]} + AsSet(op.inputs[IF_FIRST_INPUT..])
      else if g.Loop? && |op.inputs| >= WHILE_FIRST_INPUT then AsSet(op.inputs[WHILE_FIRST_INPUT..])
      else {}
  }

  function BoundaryReads(m: Model, gs: seq<Group>): set<nat> {
    if gs == [] then {} else GroupReads(m, gs[0]) + BoundaryReads(m, gs[1..])
  }

  // ----- emission -----

  function GroupSize(g: Group): nat {
    match g
    case Partition(_, _) => 1
    case Branch(_, t, e) => 2 + CodeSize(t) + CodeSize(e)
    case Loop(_, c, b) => 3 + CodeSize(c) + CodeSize(b)
  }

  function CodeSize(gs: seq<Group>): nat {
    if gs == [] then 0 else GroupSize(gs[0]) + CodeSize(gs[1..])
  }

  // The number of source models that a partition adds.
  function GroupModels(g: Group): nat {
    match g
    case Partition(_, _) => 0
    case Branch(_, t, e) => 2 + ModelCount(t) + ModelCount(e)
    case Loop(_, c, b) => 2 + ModelCount(c) + ModelCount(b)
  }

  function ModelCount(gs: seq<Group>): nat {
    if gs == [] then 0 else GroupModels(gs[0]) + ModelCount(gs[1..])
  }

  /** The steps of a source model with index `mi`, placed at step `base`, where the
      next source model to be added gets index `next`. */
  function Emit(m: Model, gs: seq<Group>, mi: nat, base: nat, next: nat): (r: seq<LogicalStep>)
    requires Schedules(gs, m)
    ensures |r| == CodeSize(gs)
    decreases gs, 3
  {
    EmitGroups(m, BoundaryReads(m, gs), gs, mi, base, next)
  }

  function EmitGroups(m: Model, boundary: set<nat>, gs: seq<Group>, mi: nat, base: nat, next: nat): (r: seq<LogicalStep>)
    requires forall i :: 0 <= i < |gs| ==> GroupFits(gs[i], m)
    ensures |r| == CodeSize(gs)
    decreases gs, 2
  {
    if gs == [] then []
    else
      EmitGroup(m, boundary, gs[0], mi, base, next) +
      EmitGroups(m, boundary, gs[1..], mi, base + GroupSize(gs[0]), next + GroupModels(gs[0]))
  }

  function EmitGroup(m: Model, boundary: set<nat>, g: Group, mi: nat, base: nat, next: nat): (r: seq<LogicalStep>)
    requires GroupFits(g, m)
    ensures |r| == GroupSize(g)
    decreases g, 2
  {
    match g
    case Partition(_, ops) =>
      var picked := Pick(m, ops);
      [ExecutionStep(mi, m, picked, StepInputs(m, picked), StepOutputs(m, picked, boundary))]
    case Branch(o, t, e) =>
      var op := m.operations[o];
      var tm, em := op.placement.thenModel, op.placement.elseModel;
      var j := base + 1 + CodeSize(t);
      [IfHead(op, t, mi, base, next)] +
      Emit(tm, t, next, base + 1, next + 2) +
      [GotoStep(j + 1 + CodeSize(e))] +
      Emit(em, e, next + 1, j + 1, next + 2 + ModelCount(t))
    case Loop(o, c, b) =>
      var op := m.operations[o];
      var cm, bm := op.placement.condModel, op.placement.bodyModel;
      var j := base + 1 + CodeSize(c);
      [WhileHead(op, c, b, mi, base, next)] +
      Emit(cm, c, next, base + 1, next + 2) +
      [GotoStep(base)] +
      Emit(bm, b, next + 1, j + 1, next + 2 + ModelCount(c)) +
      [GotoStep(base)]
  }

  function IfHead(op: Operation, thenPlan: seq<Group>, mi: nat, base: nat, next: nat): LogicalStep
    requires op.placement.InterpretIf?
  {
    var tm, em := op.placement.thenModel, op.placement.elseModel;
    IfStep(if |op.inputs| > IF_CONDITION then (mi, op.inputs[IF_CONDITION]) else (mi, 0),
           base + 1, base + 2 + CodeSize(thenPlan),
           if |op.inputs| >= IF_FIRST_INPUT then Keys(mi, op.inputs[IF_FIRST_INPUT..]) else [],
           Keys(mi, op.outputs),
           Keys(next, tm.inputIndexes), Keys(next, tm.outputIndexes),
           Keys(next + 1, em.inputIndexes), Keys(next + 1, em.outputIndexes))
  }

  function WhileHead(op: Operation, condPlan: seq<Group>, bodyPlan: seq<Group>, mi: nat, base: nat, next: nat): LogicalStep
    requires op.placement.InterpretWhile?
  {
    var cm, bm := op.placement.condModel, op.placement.bodyModel;
    WhileStep(base + 1, base + 2 + CodeSize(condPlan), base + 3 + CodeSize(condPlan) + CodeSize(bodyPlan),
              if |op.inputs| >= WHILE_FIRST_INPUT then Keys(mi, op.inputs[WHILE_FIRST_INPUT..]) else [],
              Keys(mi, op.outputs),
              Keys(next, cm.inputIndexes),
              if |cm.outputIndexes| > 0 then (next, cm.outputIndexes[0]) else (next, 0),
              Keys(next + 1, bm.inputIndexes), Keys(next + 1, bm.outputIndexes))
  }
}
