/** Schedules: the partitioner's choice of an execution order, grouped into the
    partitions of a plan. A schedule of a model also schedules the models that its
    interpreted control flow operations refer to. */
module Scheduling {
  import opened Models
  import opened Semantics

  datatype Group =
    | Partition(device: nat, ops: seq<nat>)
    | Branch(op: nat, thenPlan: seq<Group>, elsePlan: seq<Group>)
    | Loop(op: nat, condPlan: seq<Group>, bodyPlan: seq<Group>)

  function OpsOf(g: Group): seq<nat> {
    if g.Partition? then g.ops else [g.op]
  }

  function Order(gs: seq<Group>): seq<nat> {
    if gs == [] then [] else OpsOf(gs[0]) + Order(gs[1..])
  }

  function Pick(m: Model, order: seq<nat>): (r: seq<Operation>)
    requires InRange(order, |m.operations|)
    ensures |r| == |order|
    ensures forall i :: 0 <= i < |order| ==> order[i] in order && r[i] == m.operations[order[i]]
  {
    seq(|order|, i requires 0 <= i < |order| => assert order[i] in order; m.operations[order[i]])
  }

  ghost predicate IsPermutation(order: seq<nat>, n: nat) {
    InRange(order, n) && Distinct(order) && forall i :: 0 <= i < n ==> i in order
  }

  /** Every operation is scheduled once, after the producers of what it reads. */
  ghost predicate Schedules(gs: seq<Group>, m: Model)
    decreases gs, 1
  {
    && IsPermutation(Order(gs), |m.operations|)
    && Ordered(Pick(m, Order(gs)), KnownSet(m))
    && forall i :: 0 <= i < |gs| ==> GroupFits(gs[i], m)
  }

  ghost predicate GroupFits(g: Group, m: Model)
    decreases g, 0
  {
    match g
    case Partition(d, ops) =>
      && |ops| > 0
      && InRange(ops, |m.operations|)
      && forall i :: i in ops ==> m.operations[i].placement == OnDevice(d)
    case Branch(op, t, e) =>
      && op < |m.operations|
      && m.operations[op].placement.InterpretIf?
      && Schedules(t, m.operations[op].placement.thenModel)
      && Schedules(e, m.operations[op].placement.elseModel)
    case Loop(op, c, b) =>
      && op < |m.operations|
      && m.operations[op].placement.InterpretWhile?
      && Schedules(c, m.operations[op].placement.condModel)
      && Schedules(b, m.operations[op].placement.bodyModel)
  }

  // ----- running a model in the order of its schedule -----

  function RunPlan(k: Kernels, fuel: nat, m: Model, gs: seq<Group>, args: seq<Bytes>): Outcome<seq<Bytes>>
    decreases gs, 3
  {
    if |args| != |m.inputIndexes| then Failed
    else
      match RunGroups(k, fuel, m, gs, Bind(Constants(m), m.inputIndexes, args))
      case Done(env) => if Knows(env, m.outputIndexes) then Done(Get(env, m.outputIndexes)) else Failed
      case Failed => Failed
      case OutOfFuel => OutOfFuel
  }

  function RunGroups(k: Kernels, fuel: nat, m: Model, gs: seq<Group>, env: Env): Outcome<Env>
    decreases gs, 2
  {
    if gs == [] then Done(env)
    else
      match RunGroup(k, fuel, m, gs[0], env)
      case Done(env') => RunGroups(k, fuel, m, gs[1..], env')
      case Failed => Failed
      case OutOfFuel => OutOfFuel
  }

  function RunGroup(k: Kernels, fuel: nat, m: Model, g: Group, env: Env): Outcome<Env>
    decreases g, 3
  {
    if g.Partition? then
      if (forall i :: i in g.ops ==> i < |m.operations|) then RunOperations(k, fuel, Pick(m, g.ops), env)
      else Failed
    else if g.op >= |m.operations| || !Knows(env, m.operations[g.op].inputs) || !Passable(m.operations[g.op], m.operands) then Failed
    else
      var op := m.operations[g.op];
      match ComputeGroup(k, fuel, op, g, Get(env, op.inputs))
      case Done(vals) => if |vals| == |op.outputs| then Done(Bind(env, op.outputs, vals)) else Failed
      case Failed => Failed
      case OutOfFuel => OutOfFuel
  }

  function ComputeGroup(k: Kernels, fuel: nat, op: Operation, g: Group, vals: seq<Bytes>): Outcome<seq<Bytes>>
    requires !g.Partition?
    decreases g, 2
  {
    if g.Branch? && op.placement.InterpretIf? && |vals| >= IF_FIRST_INPUT then
      if IsTrue(vals[IF_CONDITION]) then RunPlan(k, fuel, op.placement.thenModel, g.thenPlan, vals[IF_FIRST_INPUT..])
      else RunPlan(k, fuel, op.placement.elseModel, g.elsePlan, vals[IF_FIRST_INPUT..])
    else if g.Loop? && op.placement.InterpretWhile? && |vals| >= WHILE_FIRST_INPUT then
      IterateGroup(k, fuel, fuel, op, g, vals[WHILE_FIRST_INPUT..])
    else Failed
  }

  function IterateGroup(k: Kernels, n: nat, fuel: nat, op: Operation, g: Group, state: seq<Bytes>): Outcome<seq<Bytes>>
    requires g.Loop? && op.placement.InterpretWhile?
    decreases g, 1, n
  {
    if n == 0 then OutOfFuel
    else
      match RunPlan(k, fuel, op.placement.condModel, g.condPlan, state)
      case Failed => Failed
      case OutOfFuel => OutOfFuel
      case Done(c) =>
        if |c| != 1 then Failed
        else if !IsTrue(c[0]) then
          if |op.outputs| <= |state| then Done(state[..|op.outputs|]) else Failed
        else
          match RunPlan(k, fuel, op.placement.bodyModel, g.bodyPlan, state)
          case Failed => Failed
          case OutOfFuel => OutOfFuel
          case Done(b) =>
            if |b| > |state| then Failed
            else IterateGroup(k, n - 1, fuel, op, g, b + state[|b|..])
  }

  // ----- a run is determined by the values it ends with -----

  /** `op` explains the values that `e` has for its outputs. */
  ghost predicate Explains(k: Kernels, fuel: nat, op: Operation, e: Env) {
    && Knows(e, op.inputs)
    && Knows(e, op.outputs)
    && Compute(k, fuel, op, Get(e, op.inputs)) == Done(Get(e, op.outputs))
  }

  ghost predicate Extends<K(!new), V>(m: map<K, V>, m': map<K, V>) {
    forall x :: x in m ==> x in m' && m'[x] == m[x]
  }

  /** `e` extends `env` by exactly the outputs of `ops`, and every operation of
      `ops`, in whatever order, explains them. */
  ghost predicate Consistent(k: Kernels, fuel: nat, ops: seq<Operation>, env: Env, e: Env) {
    && e.Keys == env.Keys + OutputsOf(ops)
    && Extends(env, e)
    && forall op :: op in ops ==> Explains(k, fuel, op, e)
  }

  lemma GetOfExtension<K(!new), V>(m: map<K, V>, m': map<K, V>, ks: seq<K>)
    requires Knows(m, ks) && forall x :: x in ks ==> x in m' && m'[x] == m[x]
    ensures Knows(m', ks) && Get(m', ks) == Get(m, ks)
  {
  }

  lemma {:induction false} RunEndsConsistent(k: Kernels, fuel: nat, ops: seq<Operation>, env: Env, e: Env)
    requires Ordered(ops, env.Keys)
    requires RunOperations(k, fuel, ops, env) == Done(e)
    ensures Consistent(k, fuel, ops, env, e)
  {
    if ops == [] {
    } else {
      var op := ops[0];
      var env1 := RunOperation(k, fuel, op, env).value;
      assert env1.Keys == env.Keys + AsSet(op.outputs);
      RunEndsConsistent(k, fuel, ops[1..], env1, e);
      GetOfExtension(env, e, op.inputs);
      assert Get(e, op.outputs) == Compute(k, fuel, op, Get(env, op.inputs)).value by {
        GetOfExtension(env1, e, op.outputs);
      }
      assert forall x :: x in ops ==> x == op || x in ops[1..];
    }
  }

  lemma {:induction false} ConsistentIsReached(k: Kernels, fuel: nat, ops: seq<Operation>, env: Env, e: Env)
    requires Ordered(ops, env.Keys)
    requires Consistent(k, fuel, ops, env, e)
    ensures RunOperations(k, fuel, ops, env) == Done(e)
  {
    if ops == [] {
      assert e == env;
    } else {
      var op := ops[0];
      assert op in ops && Explains(k, fuel, op, e);
      GetOfExtension(env, e, op.inputs);
      var env1 := Bind(env, op.outputs, Get(e, op.outputs));
      assert RunOperation(k, fuel, op, env) == Done(env1);
      assert env1.Keys == env.Keys + AsSet(op.outputs);
      assert Extends(env1, e) by {
        forall x | x in env1 ensures x in e && e[x] == env1[x] {
          if x in op.outputs {
            var i :| 0 <= i < |op.outputs| && op.outputs[i] == x;
            assert env1[op.outputs[i]] == Get(e, op.outputs)[i];
          }
        }
      }
      assert forall x :: x in ops[1..] ==> x in ops;
      ConsistentIsReached(k, fuel, ops[1..], env1, e);
    }
  }

  lemma {:induction false} OutputsOfMembers(ops: seq<Operation>)
    ensures forall x :: x in OutputsOf(ops) <==> exists i :: 0 <= i < |ops| && x in ops[i].outputs
  {
    if ops != [] {
      OutputsOfMembers(ops[1..]);
      forall x | x in OutputsOf(ops) ensures exists i :: 0 <= i < |ops| && x in ops[i].outputs {
        if x in ops[0].outputs {
        } else {
          assert x in OutputsOf(ops[1..]);
          var i :| 0 <= i < |ops[1..]| && x in ops[1..][i].outputs;
          assert x in ops[i + 1].outputs;
        }
      }
      forall x, i | 0 <= i < |ops| && x in ops[i].outputs ensures x in OutputsOf(ops) {
        if i > 0 {
          assert ops[1..][i - 1] == ops[i];
        }
      }
    }
  }

  /** Two orders of the same operations, each reading nothing before it is written,
      end in the same environment or both fail to end. */
  lemma OrderDoesNotMatter(k: Kernels, fuel: nat, ops: seq<Operation>, ops': seq<Operation>, env: Env, e: Env)
    requires Ordered(ops, env.Keys) && Ordered(ops', env.Keys)
    requires forall op :: op in ops <==> op in ops'
    ensures RunOperations(k, fuel, ops, env) == Done(e) <==> RunOperations(k, fuel, ops', env) == Done(e)
  {
    OutputsOfMembers(ops);
    OutputsOfMembers(ops');
    assert OutputsOf(ops) == OutputsOf(ops') by {
      forall x ensures x in OutputsOf(ops) <==> x in OutputsOf(ops') {
        if x in OutputsOf(ops) {
          var i :| 0 <= i < |ops| && x in ops[i].outputs;
          assert ops[i] in ops';
          var j :| 0 <= j < |ops'| && ops'[j] == ops[i];
        }
        if x in OutputsOf(ops') {
          var i :| 0 <= i < |ops'| && x in ops'[i].outputs;
          assert ops'[i] in ops;
          var j :| 0 <= j < |ops| && ops[j] == ops'[i];
        }
      }
    }
    if RunOperations(k, fuel, ops, env) == Done(e) {
      RunEndsConsistent(k, fuel, ops, env, e);
      ConsistentIsReached(k, fuel, ops', env, e);
    }
    if RunOperations(k, fuel, ops', env) == Done(e) {
      RunEndsConsistent(k, fuel, ops', env, e);
      ConsistentIsReached(k, fuel, ops, env, e);
    }
  }

  lemma {:induction false} RunConcatenation(k: Kernels, fuel: nat, a: seq<Operation>, b: seq<Operation>, env: Env)
    ensures RunOperations(k, fuel, a + b, env) ==
            match RunOperations(k, fuel, a, env)
            case Done(env') => RunOperations(k, fuel, b, env')
            case Failed => Failed
            case OutOfFuel => OutOfFuel
  {
    if a == [] {
      assert a + b == b;
    } else {
      assert (a + b)[0] == a[0] && (a + b)[1..] == a[1..] + b;
      match RunOperation(k, fuel, a[0], env) {
        case Done(env') => RunConcatenation(k, fuel, a[1..], b, env');
        case Failed =>
        case OutOfFuel =>
      }
    }
  }

  lemma ValidIsShallow(m: Model)
    requires Valid(m)
    ensures ShallowValid(m)
  {
  }

  lemma ValidAt(m: Model, o: nat)
    requires Valid(m) && o < |m.operations|
    ensures ValidPlacement(m.operations[o].placement)
  {
  }

  lemma InitialKeys(m: Model, args: seq<Bytes>)
    requires ListsLifetime(m.inputIndexes, m.operands, SubgraphInput)
    requires |args| == |m.inputIndexes|
    ensures Bind(Constants(m), m.inputIndexes, args).Keys == KnownSet(m)
  {
    var env := Bind(Constants(m), m.inputIndexes, args);
    forall x ensures x in env <==> x in KnownSet(m) {
    }
  }
}
