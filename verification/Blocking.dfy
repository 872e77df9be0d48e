/** Runs that come to an interpreted operation whose inputs cannot be passed on, and what
    a run in the order of a schedule means. */
module Blocking {
  import opened Models
  import opened Semantics
  import opened Scheduling

  // ----- coming to a blocked operation -----

  /** The nested run of the model comes to an operation that is not passable. */
  ghost predicate ModelBlocks(k: Kernels, fuel: nat, m: Model, args: seq<Bytes>)
    decreases m, 1
  {
    |args| == |m.inputIndexes| && OperationsBlock(k, fuel, m.operands, m.operations, Bind(Constants(m), m.inputIndexes, args))
  }

  ghost predicate OperationsBlock(k: Kernels, fuel: nat, operands: seq<Operand>, ops: seq<Operation>, env: Env)
    decreases ops, 0
  {
    ops != [] && (
      || OperationBlocks(k, fuel, operands, ops[0], env)
      || (RunOperation(k, fuel, ops[0], env).Done? &&
          OperationsBlock(k, fuel, operands, ops[1..], RunOperation(k, fuel, ops[0], env).value)))
  }

  ghost predicate OperationBlocks(k: Kernels, fuel: nat, operands: seq<Operand>, op: Operation, env: Env)
    decreases op, 3
  {
    Knows(env, op.inputs) && (!Passable(op, operands) || ComputeBlocks(k, fuel, op, Get(env, op.inputs)))
  }

  ghost predicate ComputeBlocks(k: Kernels, fuel: nat, op: Operation, vals: seq<Bytes>)
    decreases op, 2
  {
    match op.placement
    case OnDevice(_) => false
    case InterpretIf(t, e) =>
      |vals| >= IF_FIRST_INPUT && ModelBlocks(k, fuel, if IsTrue(vals[IF_CONDITION]) then t else e, vals[IF_FIRST_INPUT..])
    case InterpretWhile(c, b) =>
      |vals| >= WHILE_FIRST_INPUT && LoopBlocks(k, fuel, fuel, op, vals[WHILE_FIRST_INPUT..])
  }

  ghost predicate GoesOn(c: Outcome<seq<Bytes>>) {
    c.Done? && |c.value| == 1 && IsTrue(c.value[0])
  }

  ghost predicate LoopBlocks(k: Kernels, n: nat, fuel: nat, op: Operation, state: seq<Bytes>)
    requires op.placement.InterpretWhile?
    decreases op, 1, n
  {
    n > 0 && (
      || ModelBlocks(k, fuel, op.placement.condModel, state)
      || (GoesOn(RunModel(k, fuel, op.placement.condModel, state)) && (
            var b := RunModel(k, fuel, op.placement.bodyModel, state);
            || ModelBlocks(k, fuel, op.placement.bodyModel, state)
            || (b.Done? && |b.value| <= |state| && LoopBlocks(k, n - 1, fuel, op, b.value + state[|b.value|..])))))
  }

  // ----- the order of the operations does not matter -----

  lemma {:induction false} BlocksInSequence(k: Kernels, fuel: nat, operands: seq<Operand>, a: seq<Operation>, b: seq<Operation>, env: Env)
    ensures OperationsBlock(k, fuel, operands, a + b, env) <==>
              || OperationsBlock(k, fuel, operands, a, env)
              || (RunOperations(k, fuel, a, env).Done? && OperationsBlock(k, fuel, operands, b, RunOperations(k, fuel, a, env).value))
  {
    hide OperationBlocks, RunOperation;
    if a == [] {
      assert a + b == b;
    } else {
      assert (a + b)[0] == a[0] && (a + b)[1..] == a[1..] + b;
      var r := RunOperation(k, fuel, a[0], env);
      if r.Done? { BlocksInSequence(k, fuel, operands, a[1..], b, r.value); }
    }
  }

  /** A run that ends has come to a blocked operation exactly if one is blocked with the
      values at the end. */
  lemma {:induction false} BlocksAnywhere(k: Kernels, fuel: nat, operands: seq<Operand>, ops: seq<Operation>, env: Env, e: Env)
    requires Ordered(ops, env.Keys) && RunOperations(k, fuel, ops, env) == Done(e)
    ensures OperationsBlock(k, fuel, operands, ops, env) <==> exists op :: op in ops && OperationBlocks(k, fuel, operands, op, e)
  {
    if ops != [] {
      var op, env1 := ops[0], RunOperation(k, fuel, ops[0], env).value;
      assert env1.Keys == env.Keys + AsSet(op.outputs);
      RunEndsConsistent(k, fuel, ops, env, e);
      GetOfExtension(env, e, op.inputs);
      BlocksAnywhere(k, fuel, operands, ops[1..], env1, e);
      assert RunOperation(k, fuel, op, env) == Done(env1);
      hide RunOperation, RunOperations, Ordered, Consistent, Extends;
      assert OperationBlocks(k, fuel, operands, op, env) <==> OperationBlocks(k, fuel, operands, op, e);
      hide OperationBlocks;
      assert OperationsBlock(k, fuel, operands, ops, env) <==>
             OperationBlocks(k, fuel, operands, op, e) || OperationsBlock(k, fuel, operands, ops[1..], env1);
      hide OperationsBlock;
      if x :| x in ops[1..] && OperationBlocks(k, fuel, operands, x, e) { assert x in ops; }
      if x :| x in ops && OperationBlocks(k, fuel, operands, x, e) { assert x == op || x in ops[1..]; }
    }
  }

  lemma SameBlocks(k: Kernels, fuel: nat, operands: seq<Operand>, ops: seq<Operation>, ops': seq<Operation>, env: Env, e: Env)
    requires Ordered(ops, env.Keys) && Ordered(ops', env.Keys)
    requires forall op :: op in ops <==> op in ops'
    requires RunOperations(k, fuel, ops, env) == Done(e) && RunOperations(k, fuel, ops', env) == Done(e)
    ensures OperationsBlock(k, fuel, operands, ops, env) <==> OperationsBlock(k, fuel, operands, ops', env)
  {
    hide *;
    BlocksAnywhere(k, fuel, operands, ops, env, e);
    BlocksAnywhere(k, fuel, operands, ops', env, e);
  }

  // ----- what can be told before the run -----

  /** Every run that would end comes to a blocked operation: one is not passable here, or
      is in both branches of an IF or in the condition of a WHILE. */
  ghost predicate AlwaysBlocks(m: Model) {
    exists i :: 0 <= i < |m.operations| && (!Passable(m.operations[i], m.operands) || PlacementBlocks(m.operations[i].placement))
  }

  ghost predicate PlacementBlocks(p: Placement) {
    match p
    case OnDevice(_) => false
    case InterpretIf(t, e) => AlwaysBlocks(t) && AlwaysBlocks(e)
    case InterpretWhile(c, b) => AlwaysBlocks(c)
  }

  lemma OperationsEnd(k: Kernels, fuel: nat, m: Model, args: seq<Bytes>) returns (env: Env, e: Env)
    requires ShallowValid(m) && RunModel(k, fuel, m, args).Done?
    ensures |args| == |m.inputIndexes| && env == Bind(Constants(m), m.inputIndexes, args) && env.Keys == KnownSet(m)
    ensures RunOperations(k, fuel, m.operations, env) == Done(e) && Ordered(m.operations, env.Keys)
    ensures forall op :: op in m.operations ==> Explains(k, fuel, op, e)
    ensures ModelBlocks(k, fuel, m, args) <==> exists op :: op in m.operations && OperationBlocks(k, fuel, m.operands, op, e)
  {
    hide OperationsBlock, OperationBlocks, OperationFits, Explains;
    env := Bind(Constants(m), m.inputIndexes, args);
    InitialKeys(m, args);
    e := RunOperations(k, fuel, m.operations, env).value;
    RunEndsConsistent(k, fuel, m.operations, env, e);
    BlocksAnywhere(k, fuel, m.operands, m.operations, env, e);
  }

  lemma {:induction false} AlwaysMeansHere(k: Kernels, fuel: nat, m: Model, args: seq<Bytes>)
    requires Valid(m) && AlwaysBlocks(m) && RunModel(k, fuel, m, args).Done?
    ensures ModelBlocks(k, fuel, m, args)
    decreases m, 1
  {
    ValidIsShallow(m);
    var env, e := OperationsEnd(k, fuel, m, args);
    var i :| 0 <= i < |m.operations| && (!Passable(m.operations[i], m.operands) || PlacementBlocks(m.operations[i].placement));
    var op := m.operations[i];
    assert op in m.operations && Explains(k, fuel, op, e);
    assert OperationBlocks(k, fuel, m.operands, op, e) by {
      ValidAt(m, i);
      hide Valid, AlwaysBlocks, RunModel, ShallowValid, ModelBlocks;
      if Passable(op, m.operands) { AlwaysMeansInside(k, fuel, op, Get(e, op.inputs)); }
    }
  }

  lemma {:induction false} AlwaysMeansInside(k: Kernels, fuel: nat, op: Operation, vals: seq<Bytes>)
    requires ValidPlacement(op.placement) && PlacementBlocks(op.placement) && Compute(k, fuel, op, vals).Done?
    ensures ComputeBlocks(k, fuel, op, vals)
    decreases op, 0
  {
    hide Valid, AlwaysBlocks, RunModel, ModelBlocks;
    match op.placement {
      case OnDevice(_) =>
      case InterpretIf(t, e) =>
        AlwaysMeansHere(k, fuel, if IsTrue(vals[IF_CONDITION]) then t else e, vals[IF_FIRST_INPUT..]);
      case InterpretWhile(c, b) =>
        AlwaysMeansHere(k, fuel, c, vals[WHILE_FIRST_INPUT..]);
    }
  }

  lemma PassesAt(m: Model, o: nat)
    requires Passes(m) && o < |m.operations|
    ensures Passable(m.operations[o], m.operands) && PlacementPasses(m.operations[o].placement)
  {
  }

  lemma {:induction false} PassingModel(k: Kernels, fuel: nat, m: Model, args: seq<Bytes>)
    requires Passes(m)
    ensures !ModelBlocks(k, fuel, m, args)
    decreases m, 1
  {
    if |args| == |m.inputIndexes| {
      forall op | op in m.operations ensures Passable(op, m.operands) && PlacementPasses(op.placement) {
        var i :| 0 <= i < |m.operations| && m.operations[i] == op;
        PassesAt(m, i);
      }
      PassingOperations(k, fuel, m.operands, m.operations, Bind(Constants(m), m.inputIndexes, args));
    }
  }

  lemma {:induction false} PassingOperations(k: Kernels, fuel: nat, operands: seq<Operand>, ops: seq<Operation>, env: Env)
    requires forall op :: op in ops ==> Passable(op, operands) && PlacementPasses(op.placement)
    ensures !OperationsBlock(k, fuel, operands, ops, env)
    decreases ops, 0
  {
    if ops != [] {
      hide Passable, PlacementPasses, ComputeBlocks, RunOperation;
      if Knows(env, ops[0].inputs) { PassingOperation(k, fuel, ops[0], Get(env, ops[0].inputs)); }
      var r := RunOperation(k, fuel, ops[0], env);
      if r.Done? { PassingOperations(k, fuel, operands, ops[1..], r.value); }
    }
  }

  lemma {:induction false} PassingOperation(k: Kernels, fuel: nat, op: Operation, vals: seq<Bytes>)
    requires PlacementPasses(op.placement)
    ensures !ComputeBlocks(k, fuel, op, vals)
    decreases op, 2
  {
    hide Passes, ModelBlocks, LoopBlocks;
    match op.placement {
      case OnDevice(_) =>
      case InterpretIf(t, e) =>
        if |vals| >= IF_FIRST_INPUT {
          PassingModel(k, fuel, if IsTrue(vals[IF_CONDITION]) then t else e, vals[IF_FIRST_INPUT..]);
        }
      case InterpretWhile(c, b) =>
        if |vals| >= WHILE_FIRST_INPUT {
          PassingLoop(k, fuel, fuel, op, vals[WHILE_FIRST_INPUT..]);
        }
    }
  }

  lemma {:induction false} PassingLoop(k: Kernels, n: nat, fuel: nat, op: Operation, state: seq<Bytes>)
    requires op.placement.InterpretWhile? && PlacementPasses(op.placement)
    ensures !LoopBlocks(k, n, fuel, op, state)
    decreases op, 1, n
  {
    hide Passes, ModelBlocks, RunModel;
    if n > 0 {
      PassingModel(k, fuel, op.placement.condModel, state);
      PassingModel(k, fuel, op.placement.bodyModel, state);
      var b := RunModel(k, fuel, op.placement.bodyModel, state);
      if b.Done? && |b.value| <= |state| { PassingLoop(k, n - 1, fuel, op, b.value + state[|b.value|..]); }
    }
  }

  // ----- a scheduled run means what the nested run means -----

  ghost predicate SameResult<T(!new)>(a: Outcome<T>, b: Outcome<T>) {
    forall v :: a == Done(v) <==> b == Done(v)
  }

  /** A result of the scheduled run is one of the nested run. If the nested run has a
      result then so does the scheduled one, unless it is blocked, and then it fails. */
  ghost predicate Agrees<T>(a: Outcome<T>, b: Outcome<T>, blocks: bool) {
    (a.Done? ==> b == a) && (b.Done? ==> if blocks then a.Failed? else a == b)
  }

  lemma AgreesInSequence<S, T>(r1: Outcome<S>, q1: Outcome<S>, r2: Outcome<T>, q2: Outcome<T>, r: Outcome<T>, q: Outcome<T>,
      blocks1: bool, blocks2: bool)
    requires Agrees(r1, q1, blocks1) && (r1.Done? ==> Agrees(r2, q2, blocks2))
    requires r == match r1 case Done(_) => r2 case Failed => Failed case OutOfFuel => OutOfFuel
    requires q1.Done? ==> q == q2
    requires !q1.Done? ==> !q.Done?
    ensures Agrees(r, q, blocks1 || (q1.Done? && blocks2))
  {
  }

  lemma RunGroupsStep(k: Kernels, fuel: nat, m: Model, gs: seq<Group>, env: Env)
    requires gs != []
    ensures RunGroups(k, fuel, m, gs, env) ==
            match RunGroup(k, fuel, m, gs[0], env)
            case Done(env') => RunGroups(k, fuel, m, gs[1..], env')
            case Failed => Failed
            case OutOfFuel => OutOfFuel
  {
    hide RunGroup;
  }

  lemma PickInParts(m: Model, gs: seq<Group>)
    requires gs != [] && InRange(Order(gs), |m.operations|)
    ensures InRange(OpsOf(gs[0]), |m.operations|) && InRange(Order(gs[1..]), |m.operations|)
    ensures Pick(m, Order(gs)) == Pick(m, OpsOf(gs[0])) + Pick(m, Order(gs[1..]))
  {
    var a, b := OpsOf(gs[0]), Order(gs[1..]);
    assert Order(gs) == a + b;
    hide OpsOf, Order;
    forall x | x in a || x in b ensures x < |m.operations| {
      assert x in a + b;
    }
    PickJoined(m, a, b);
  }

  lemma PickJoined(m: Model, a: seq<nat>, b: seq<nat>)
    requires InRange(a, |m.operations|) && InRange(b, |m.operations|)
    ensures InRange(a + b, |m.operations|) && Pick(m, a + b) == Pick(m, a) + Pick(m, b)
  {
    hide Pick;
  }

  lemma {:induction false} GroupsRunTheirOrder(k: Kernels, fuel: nat, m: Model, gs: seq<Group>, env: Env)
    requires Valid(m)
    requires InRange(Order(gs), |m.operations|)
    requires forall i :: 0 <= i < |gs| ==> GroupFits(gs[i], m)
    ensures var ops := Pick(m, Order(gs));
            Agrees(RunGroups(k, fuel, m, gs, env), RunOperations(k, fuel, ops, env), OperationsBlock(k, fuel, m.operands, ops, env))
    decreases gs, 2
  {
    hide Valid, GroupFits, RunGroup, Agrees, OperationBlocks;
    if gs == [] {
      AgreesWithItself(Done(env));
    } else {
      RunGroupsStep(k, fuel, m, gs, env);
      PickInParts(m, gs);
      hide *;
      var g, rest := gs[0], gs[1..];
      var a, b := Pick(m, OpsOf(g)), Pick(m, Order(rest));
      RunConcatenation(k, fuel, a, b, env);
      BlocksInSequence(k, fuel, m.operands, a, b, env);
      GroupRunsItsOperations(k, fuel, m, g, env);
      var r1, q1 := RunGroup(k, fuel, m, g, env), RunOperations(k, fuel, a, env);
      var blocks1 := OperationsBlock(k, fuel, m.operands, a, env);
      var env' := if r1.Done? then r1.value else if q1.Done? then q1.value else env;
      if r1.Done? {
        GroupsRunTheirOrder(k, fuel, m, rest, env');
        AgreesOnDone(r1, q1, blocks1);
      }
      var blocks2 := OperationsBlock(k, fuel, m.operands, b, env');
      AgreesInSequence(r1, q1, RunGroups(k, fuel, m, rest, env'), RunOperations(k, fuel, b, env'),
                       RunGroups(k, fuel, m, gs, env), RunOperations(k, fuel, a + b, env), blocks1, blocks2);
    }
  }

  lemma AgreesWithItself<T>(r: Outcome<T>)
    ensures Agrees(r, r, false)
  {
  }

  lemma AgreesOnDone<T>(r: Outcome<T>, q: Outcome<T>, blocks: bool)
    requires Agrees(r, q, blocks) && r.Done?
    ensures q == r && !blocks
  {
  }

  lemma {:induction false} DevicesDoNotBlock(k: Kernels, fuel: nat, operands: seq<Operand>, ops: seq<Operation>, env: Env)
    requires forall op :: op in ops ==> op.placement.OnDevice?
    ensures !OperationsBlock(k, fuel, operands, ops, env)
    decreases |ops|
  {
    if ops != [] {
      assert ops[0] in ops && Passed(ops[0]) == [];
      var r := RunOperation(k, fuel, ops[0], env);
      assert !OperationBlocks(k, fuel, operands, ops[0], env);
      hide RunOperation, OperationBlocks;
      if r.Done? { DevicesDoNotBlock(k, fuel, operands, ops[1..], r.value); }
    }
  }

  lemma OneBlocks(k: Kernels, fuel: nat, operands: seq<Operand>, op: Operation, env: Env)
    ensures OperationsBlock(k, fuel, operands, [op], env) <==> OperationBlocks(k, fuel, operands, op, env)
    ensures SameResult(RunOperations(k, fuel, [op], env), RunOperation(k, fuel, op, env))
  {
    hide OperationBlocks, RunOperation;
    var r := RunOperation(k, fuel, op, env);
    assert [op][1..] == [];
    if r.Done? {
      assert RunOperations(k, fuel, [op][1..], r.value) == Done(r.value);
      assert !OperationsBlock(k, fuel, operands, [op][1..], r.value);
    }
  }

  lemma {:induction false} GroupRunsItsOperations(k: Kernels, fuel: nat, m: Model, g: Group, env: Env)
    requires Valid(m)
    requires GroupFits(g, m)
    requires InRange(OpsOf(g), |m.operations|)
    ensures var ops := Pick(m, OpsOf(g));
            Agrees(RunGroup(k, fuel, m, g, env), RunOperations(k, fuel, ops, env), OperationsBlock(k, fuel, m.operands, ops, env))
    decreases g, 3
  {
    hide Valid, Schedules, Compute, ComputeGroup, ComputeBlocks;
    if g.Partition? {
      assert forall i :: i in g.ops ==> i < |m.operations|;
      DevicesDoNotBlock(k, fuel, m.operands, Pick(m, g.ops), env);
    } else {
      var op := m.operations[g.op];
      assert Pick(m, [g.op]) == [op];
      OneBlocks(k, fuel, m.operands, op, env);
      hide RunOperations, OperationsBlock, Passable;
      if Knows(env, op.inputs) {
        GroupComputes(k, fuel, m, g, Get(env, op.inputs));
      }
    }
  }

  lemma {:induction false} GroupComputes(k: Kernels, fuel: nat, m: Model, g: Group, vals: seq<Bytes>)
    requires Valid(m)
    requires GroupFits(g, m) && !g.Partition?
    ensures var op := m.operations[g.op];
            Agrees(ComputeGroup(k, fuel, op, g, vals), Compute(k, fuel, op, vals), ComputeBlocks(k, fuel, op, vals))
    decreases g, 2
  {
    hide Valid, Schedules, RunPlan, RunModel, Iterate, IterateGroup, ModelBlocks, LoopBlocks;
    ValidAt(m, g.op);
    var op := m.operations[g.op];
    if g.Branch? {
      if |vals| >= IF_FIRST_INPUT {
        PlanMeansModel(k, fuel, op.placement.thenModel, g.thenPlan, vals[IF_FIRST_INPUT..]);
        PlanMeansModel(k, fuel, op.placement.elseModel, g.elsePlan, vals[IF_FIRST_INPUT..]);
      }
    } else {
      if |vals| >= WHILE_FIRST_INPUT {
        GroupIterates(k, fuel, fuel, m, g, vals[WHILE_FIRST_INPUT..]);
      }
    }
  }

  lemma {:induction false} GroupIterates(k: Kernels, n: nat, fuel: nat, m: Model, g: Group, state: seq<Bytes>)
    requires Valid(m)
    requires GroupFits(g, m) && g.Loop?
    ensures var op := m.operations[g.op];
            Agrees(IterateGroup(k, n, fuel, op, g, state), Iterate(k, n, fuel, op, state), LoopBlocks(k, n, fuel, op, state))
    decreases g, 1, n
  {
    hide Valid, Schedules, RunPlan, RunModel, ModelBlocks;
    ValidAt(m, g.op);
    var op := m.operations[g.op];
    if n > 0 {
      PlanMeansModel(k, fuel, op.placement.condModel, g.condPlan, state);
      PlanMeansModel(k, fuel, op.placement.bodyModel, g.bodyPlan, state);
      var b := RunModel(k, fuel, op.placement.bodyModel, state);
      if b.Done? && |b.value| <= |state| {
        GroupIterates(k, n - 1, fuel, m, g, b.value + state[|b.value|..]);
      }
    }
  }

  lemma ScheduledAreAll(m: Model, gs: seq<Group>)
    requires Schedules(gs, m)
    ensures forall op :: op in Pick(m, Order(gs)) <==> op in m.operations
  {
    var ordered := Pick(m, Order(gs));
    forall op | op in ordered ensures op in m.operations {
      var i :| 0 <= i < |ordered| && ordered[i] == op;
      assert op == m.operations[Order(gs)[i]];
    }
    forall op | op in m.operations ensures op in ordered {
      var i :| 0 <= i < |m.operations| && m.operations[i] == op;
      assert i in Order(gs);
      var j :| 0 <= j < |Order(gs)| && Order(gs)[j] == i;
      assert ordered[j] == op;
    }
  }

  /** Running a valid model in the order of any of its schedules gives no result but
      that of running it as written, and gives it unless the run comes to an
      interpreted operation that is not passable. Then it fails. */
  lemma {:induction false} PlanMeansModel(k: Kernels, fuel: nat, m: Model, gs: seq<Group>, args: seq<Bytes>)
    requires Valid(m) && Schedules(gs, m)
    ensures Agrees(RunPlan(k, fuel, m, gs, args), RunModel(k, fuel, m, args), ModelBlocks(k, fuel, m, args))
    decreases gs, 3
  {
    hide GroupFits, RunGroups, RunOperations, OperationsBlock, Bind, Constants;
    if |args| == |m.inputIndexes| {
      var env := Bind(Constants(m), m.inputIndexes, args);
      ValidIsShallow(m);
      hide Valid;
      InitialKeys(m, args);
      var ordered := Pick(m, Order(gs));
      GroupsRunTheirOrder(k, fuel, m, gs, env);
      ScheduledAreAll(m, gs);
      var r, q := RunOperations(k, fuel, ordered, env), RunOperations(k, fuel, m.operations, env);
      forall e ensures r == Done(e) <==> q == Done(e) {
        OrderDoesNotMatter(k, fuel, ordered, m.operations, env, e);
      }
      if q.Done? {
        assert q == Done(q.value) && r == q;
        SameBlocks(k, fuel, m.operands, ordered, m.operations, env, q.value);
      }
      assert Agrees(RunGroups(k, fuel, m, gs, env), q, OperationsBlock(k, fuel, m.operands, m.operations, env));
    }
  }
}
