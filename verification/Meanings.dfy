/** What a model means, as a relation between arguments and results that names no order of
    operations and no bound on loops: every operation agrees with the values of its operands.
    The first byte of a condition decides. */
module Meanings {
  import opened Models
  import opened Semantics
  import opened Scheduling
  import opened Blocking
  import opened Runs

  /** Some values of all operands agree with the arguments, the constants, the operations and
      the results. */
  ghost predicate Means(k: Kernels, m: Model, args: seq<Bytes>, vals: seq<Bytes>)
    decreases m, 0
  {
    exists e: Env :: HasValues(m, args, vals, e) && AllAgree(k, m, e)
  }

  ghost predicate HasValues(m: Model, args: seq<Bytes>, vals: seq<Bytes>, e: Env) {
    && (forall x: nat :: x in e <==> x < |m.operands|)
    && |args| == |m.inputIndexes| && (forall j :: 0 <= j < |args| ==> m.inputIndexes[j] in e && e[m.inputIndexes[j]] == args[j])
    && |vals| == |m.outputIndexes| && (forall j :: 0 <= j < |vals| ==> m.outputIndexes[j] in e && e[m.outputIndexes[j]] == vals[j])
    && (forall x :: x in e && x < |m.operands| && m.operands[x].lifetime !in {TemporaryVariable, SubgraphInput, SubgraphOutput} ==>
          e[x] == m.operands[x].value)
  }

  ghost predicate AllAgree(k: Kernels, m: Model, e: Env)
    decreases m, -1
  {
    forall i :: 0 <= i < |m.operations| ==>
      Knows(e, m.operations[i].inputs) && Knows(e, m.operations[i].outputs)
      && OperationMeans(k, m.operations[i], Get(e, m.operations[i].inputs), Get(e, m.operations[i].outputs))
  }

  /** An IF has a condition, two models and the arguments of either; a WHILE has two models and
      its first state. */
  ghost predicate OperationMeans(k: Kernels, op: Operation, ins: seq<Bytes>, outs: seq<Bytes>)
    decreases op, 2
  {
    match op.placement
    case OnDevice(_) => k(op.opcode, ins).Some? && k(op.opcode, ins).value == outs
    case InterpretIf(t, e) =>
      |ins| >= 3 && Means(k, if ins[0] != [] && ins[0][0] != 0 then t else e, ins[3..], outs)
    case InterpretWhile(c, b) =>
      |ins| >= 2 && exists states: seq<seq<Bytes>> :: IsLoop(k, op, ins[2..], states, outs)
  }

  /** The states of a loop, from the first to the one that it is left with. */
  ghost predicate IsLoop(k: Kernels, op: Operation, first: seq<Bytes>, states: seq<seq<Bytes>>, outs: seq<Bytes>)
    requires op.placement.InterpretWhile?
    decreases op, 1
  {
    && |states| > 0 && states[0] == first
    && (forall i: nat :: i < |states| - 1 ==> GoesRound(k, op, states[i], states[i + 1]))
    && Leaves(k, op, states[|states| - 1], outs)
  }

  /** The condition is true, and the body replaces the front of the state. */
  ghost predicate GoesRound(k: Kernels, op: Operation, state: seq<Bytes>, state': seq<Bytes>)
    requires op.placement.InterpretWhile?
    decreases op, 0
  {
    && (exists c: Bytes :: Means(k, op.placement.condModel, state, [c]) && c != [] && c[0] != 0)
    && exists b: seq<Bytes> :: Means(k, op.placement.bodyModel, state, b) && |b| <= |state| && state' == b + state[|b|..]
  }

  /** The condition is false, and the front of the state is left. */
  ghost predicate Leaves(k: Kernels, op: Operation, state: seq<Bytes>, outs: seq<Bytes>)
    requires op.placement.InterpretWhile?
    decreases op, 0
  {
    && (exists c: Bytes :: Means(k, op.placement.condModel, state, [c]) && (c == [] || c[0] == 0))
    && |outs| == |op.outputs| <= |state| && outs == state[..|outs|]
  }

  // ----- more iterations change nothing -----

  lemma {:induction false} MoreFuel(k: Kernels, f: nat, g: nat, m: Model, args: seq<Bytes>)
    requires f <= g && RunModel(k, f, m, args).Done?
    ensures RunModel(k, g, m, args) == RunModel(k, f, m, args)
    decreases m, 1
  {
    MoreFuelForAll(k, f, g, m.operations, Bind(Constants(m), m.inputIndexes, args));
  }

  lemma {:induction false} MoreFuelForAll(k: Kernels, f: nat, g: nat, ops: seq<Operation>, env: Env)
    requires f <= g && RunOperations(k, f, ops, env).Done?
    ensures RunOperations(k, g, ops, env) == RunOperations(k, f, ops, env)
    decreases ops, 0
  {
    if ops != [] {
      MoreFuelForOne(k, f, g, ops[0], Get(env, ops[0].inputs));
      MoreFuelForAll(k, f, g, ops[1..], RunOperation(k, f, ops[0], env).value);
    }
  }

  lemma {:induction false} MoreFuelForOne(k: Kernels, f: nat, g: nat, op: Operation, vals: seq<Bytes>)
    requires f <= g && Compute(k, f, op, vals).Done?
    ensures Compute(k, g, op, vals) == Compute(k, f, op, vals)
    decreases op, 2
  {
    hide RunModel, Iterate;
    match op.placement {
      case OnDevice(_) =>
      case InterpretIf(t, e) =>
        MoreFuel(k, f, g, if IsTrue(vals[IF_CONDITION]) then t else e, vals[IF_FIRST_INPUT..]);
      case InterpretWhile(c, b) =>
        MoreFuelForLoop(k, f, g, f, g, op, vals[WHILE_FIRST_INPUT..]);
    }
  }

  lemma {:induction false} MoreFuelForLoop(k: Kernels, n: nat, n': nat, f: nat, g: nat, op: Operation, state: seq<Bytes>)
    requires f <= g && n <= n' && op.placement.InterpretWhile? && Iterate(k, n, f, op, state).Done?
    ensures Iterate(k, n', g, op, state) == Iterate(k, n, f, op, state)
    decreases op, 1, n
  {
    hide RunModel;
    var c := RunModel(k, f, op.placement.condModel, state);
    MoreFuel(k, f, g, op.placement.condModel, state);
    if IsTrue(c.value[0]) {
      var b := RunModel(k, f, op.placement.bodyModel, state);
      MoreFuel(k, f, g, op.placement.bodyModel, state);
      MoreFuelForLoop(k, n - 1, n' - 1, f, g, op, b.value + state[|b.value|..]);
    }
  }

  // ----- what is computed is meant -----

  lemma {:induction false} ComputedIsMeant(k: Kernels, fuel: nat, m: Model, args: seq<Bytes>)
    requires Valid(m) && RunModel(k, fuel, m, args).Done?
    ensures Means(k, m, args, RunModel(k, fuel, m, args).value)
    decreases m, 1
  {
    ValidIsShallow(m);
    var env, e := OperationsEnd(k, fuel, m, args);
    EndHasValues(k, fuel, m, args, env, e);
    hide RunModel, ShallowValid, HasValues, OperationMeans;
    forall i | 0 <= i < |m.operations|
      ensures Knows(e, m.operations[i].inputs) && Knows(e, m.operations[i].outputs)
      ensures OperationMeans(k, m.operations[i], Get(e, m.operations[i].inputs), Get(e, m.operations[i].outputs))
    {
      assert m.operations[i] in m.operations && Explains(k, fuel, m.operations[i], e);
      ValidAt(m, i);
      ComputedOperation(k, fuel, m.operations[i], Get(e, m.operations[i].inputs));
    }
  }

  lemma EndHasValues(k: Kernels, fuel: nat, m: Model, args: seq<Bytes>, env: Env, e: Env)
    requires ShallowValid(m) && RunModel(k, fuel, m, args).Done? && |args| == |m.inputIndexes|
    requires env == Bind(Constants(m), m.inputIndexes, args) && env.Keys == KnownSet(m) && Ordered(m.operations, env.Keys)
    requires RunOperations(k, fuel, m.operations, env) == Done(e)
    ensures HasValues(m, args, RunModel(k, fuel, m, args).value, e)
  {
    RunEndsConsistent(k, fuel, m.operations, env, e);
    OperandsAreKnown(m);
    ValuesOfStart(m, args, env);
    RunGives(k, fuel, m, args, e);
    hide RunModel, RunOperations, Bind, Constants, Explains, Ordered, ShallowValid, OutputsOf, KnownSet;
  }

  lemma OperandsAreKnown(m: Model)
    requires ShallowValid(m)
    ensures ListsLifetime(m.inputIndexes, m.operands, SubgraphInput)
    ensures forall x: nat :: x in KnownSet(m) + OutputsOf(m.operations) <==> x < |m.operands|
  {
    OutputsOfMembers(m.operations);
    hide OutputsOf, Ordered;
    forall i | 0 <= i < |m.operations| ensures OperationFits(m.operations[i], m.operands) {
    }
  }

  lemma RunGives(k: Kernels, fuel: nat, m: Model, args: seq<Bytes>, e: Env)
    requires |args| == |m.inputIndexes| && RunOperations(k, fuel, m.operations, Bind(Constants(m), m.inputIndexes, args)) == Done(e)
    requires RunModel(k, fuel, m, args).Done?
    ensures var vals := RunModel(k, fuel, m, args).value;
            && |vals| == |m.outputIndexes|
            && forall j :: 0 <= j < |vals| ==> m.outputIndexes[j] in e && e[m.outputIndexes[j]] == vals[j]
  {
    hide RunOperations, Bind, Constants;
    assert forall j :: 0 <= j < |m.outputIndexes| ==> m.outputIndexes[j] in m.outputIndexes;
  }

  lemma ValuesOfStart(m: Model, args: seq<Bytes>, env: Env)
    requires ListsLifetime(m.inputIndexes, m.operands, SubgraphInput) && |args| == |m.inputIndexes|
    requires env == Bind(Constants(m), m.inputIndexes, args)
    ensures forall j :: 0 <= j < |args| ==> m.inputIndexes[j] in m.inputIndexes && m.inputIndexes[j] in env && env[m.inputIndexes[j]] == args[j]
    ensures forall x: nat :: x < |m.operands| && m.operands[x].lifetime !in {TemporaryVariable, SubgraphInput, SubgraphOutput} ==>
              x in env && env[x] == m.operands[x].value
  {
    hide Bind;
  }

  lemma {:induction false} ComputedOperation(k: Kernels, fuel: nat, op: Operation, ins: seq<Bytes>)
    requires ValidPlacement(op.placement) && Compute(k, fuel, op, ins).Done?
    ensures OperationMeans(k, op, ins, Compute(k, fuel, op, ins).value)
    decreases op, 0
  {
    hide Valid, RunModel, Iterate, Means, IsLoop;
    match op.placement {
      case OnDevice(_) =>
      case InterpretIf(t, e) =>
        ComputedIsMeant(k, fuel, if IsTrue(ins[IF_CONDITION]) then t else e, ins[IF_FIRST_INPUT..]);
      case InterpretWhile(c, b) =>
        var states := ComputedLoop(k, fuel, fuel, op, ins[WHILE_FIRST_INPUT..]);
    }
  }

  lemma {:induction false} ComputedLoop(k: Kernels, n: nat, fuel: nat, op: Operation, state: seq<Bytes>) returns (states: seq<seq<Bytes>>)
    requires op.placement.InterpretWhile? && ValidPlacement(op.placement) && Iterate(k, n, fuel, op, state).Done?
    ensures IsLoop(k, op, state, states, Iterate(k, n, fuel, op, state).value)
    decreases op, -1, n
  {
    hide Valid, RunModel, Means;
    var c := RunModel(k, fuel, op.placement.condModel, state);
    ComputedIsMeant(k, fuel, op.placement.condModel, state);
    assert c.value == [c.value[0]];
    if IsTrue(c.value[0]) {
      var b := RunModel(k, fuel, op.placement.bodyModel, state);
      ComputedIsMeant(k, fuel, op.placement.bodyModel, state);
      var state' := b.value + state[|b.value|..];
      var rest := ComputedLoop(k, n - 1, fuel, op, state');
      assert GoesRound(k, op, state, state');
      states := OneRoundMore(k, op, state, rest, Iterate(k, n, fuel, op, state).value);
    } else {
      states := [state];
    }
  }

  lemma OneRoundMore(k: Kernels, op: Operation, state: seq<Bytes>, rest: seq<seq<Bytes>>, outs: seq<Bytes>) returns (states: seq<seq<Bytes>>)
    requires op.placement.InterpretWhile? && |rest| > 0 && IsLoop(k, op, rest[0], rest, outs) && GoesRound(k, op, state, rest[0])
    ensures IsLoop(k, op, state, states, outs)
  {
    hide GoesRound, Leaves;
    states := [state] + rest;
    forall i: nat | i < |states| - 1 ensures GoesRound(k, op, states[i], states[i + 1]) {
      if i > 0 { assert states[i] == rest[i - 1] && states[i + 1] == rest[i - 1 + 1]; }
    }
  }

  // ----- what is meant is computed -----

  lemma {:induction false} MeantIsComputed(k: Kernels, m: Model, args: seq<Bytes>, vals: seq<Bytes>) returns (fuel: nat)
    requires Valid(m) && Means(k, m, args, vals)
    ensures RunModel(k, fuel, m, args) == Done(vals)
    decreases m, 2
  {
    ValidIsShallow(m);
    var e: Env :| HasValues(m, args, vals, e) && AllAgree(k, m, e);
    fuel := MeantOperations(k, m, e, |m.operations|);
    hide AllAgree;
    ValuesAreReached(k, fuel, m, args, vals, e);
  }

  lemma ValuesAreReached(k: Kernels, fuel: nat, m: Model, args: seq<Bytes>, vals: seq<Bytes>, e: Env)
    requires ShallowValid(m) && HasValues(m, args, vals, e)
    requires forall i :: 0 <= i < |m.operations| ==> Explains(k, fuel, m.operations[i], e)
    ensures RunModel(k, fuel, m, args) == Done(vals)
  {
    var env := Bind(Constants(m), m.inputIndexes, args);
    InitialKeys(m, args);
    ValuesOfStart(m, args, env);
    OperandsAreKnown(m);
    hide OperationFits, Bind, Constants, Explains, OutputsOf;
    assert e.Keys == env.Keys + OutputsOf(m.operations);
    assert Extends(env, e) by {
      forall x | x in env ensures x in e && e[x] == env[x] {
        assert x in KnownSet(m);
        if m.operands[x].lifetime == SubgraphInput {
          var j :| 0 <= j < |m.inputIndexes| && m.inputIndexes[j] == x;
          assert e[m.inputIndexes[j]] == args[j];
        }
      }
    }
    ConsistentIsReached(k, fuel, m.operations, env, e);
    assert Get(e, m.outputIndexes) == vals;
  }

  // One bound is enough for the first n operations.
  lemma {:induction false} MeantOperations(k: Kernels, m: Model, e: Env, n: nat) returns (fuel: nat)
    requires Valid(m) && AllAgree(k, m, e) && n <= |m.operations|
    ensures forall i :: 0 <= i < n ==> Explains(k, fuel, m.operations[i], e)
    decreases m, 1, n
  {
    if n == 0 { return 0; }
    var f := MeantOperations(k, m, e, n - 1);
    var op := m.operations[n - 1];
    ValidAt(m, n - 1);
    var g := MeantOperation(k, op, Get(e, op.inputs), Get(e, op.outputs));
    fuel := if f <= g then g else f;
    hide OperationMeans, Valid, AllAgree, Compute;
    forall i | 0 <= i < n ensures Explains(k, fuel, m.operations[i], e) {
      MoreFuelForOne(k, if i < n - 1 then f else g, fuel, m.operations[i], Get(e, m.operations[i].inputs));
    }
  }

  lemma {:induction false} MeantOperation(k: Kernels, op: Operation, ins: seq<Bytes>, outs: seq<Bytes>) returns (fuel: nat)
    requires ValidPlacement(op.placement) && OperationMeans(k, op, ins, outs)
    ensures Compute(k, fuel, op, ins) == Done(outs)
    decreases op, 0
  {
    hide Valid, RunModel, Iterate, Means, GoesRound, Leaves;
    match op.placement {
      case OnDevice(_) =>
        fuel := 0;
      case InterpretIf(t, e) =>
        fuel := MeantIsComputed(k, if ins[0] != [] && ins[0][0] != 0 then t else e, ins[3..], outs);
      case InterpretWhile(c, b) =>
        var states: seq<seq<Bytes>> :| IsLoop(k, op, ins[2..], states, outs);
        var f := MeantLoop(k, op, states, outs, 0);
        fuel := f + |states|;
        MoreFuelForLoop(k, |states|, fuel, f, fuel, op, ins[2..]);
    }
  }

  // From state i on.
  lemma {:induction false} MeantLoop(k: Kernels, op: Operation, states: seq<seq<Bytes>>, outs: seq<Bytes>, i: nat) returns (fuel: nat)
    requires op.placement.InterpretWhile? && ValidPlacement(op.placement) && i < |states| && IsLoop(k, op, states[0], states, outs)
    ensures Iterate(k, |states| - i, fuel, op, states[i]) == Done(outs)
    decreases op, -1, |states| - i
  {
    hide Valid, RunModel, Means, Iterate;
    var state := states[i];
    if i == |states| - 1 {
      var c: Bytes :| Means(k, op.placement.condModel, state, [c]) && (c == [] || c[0] == 0);
      fuel := MeantIsComputed(k, op.placement.condModel, state, [c]);
      LoopIsLeft(k, fuel, op, state, c, outs);
    } else {
      assert GoesRound(k, op, states[i], states[i + 1]);
      var c: Bytes :| Means(k, op.placement.condModel, state, [c]) && c != [] && c[0] != 0;
      var b: seq<Bytes> :| Means(k, op.placement.bodyModel, state, b) && |b| <= |state| && states[i + 1] == b + state[|b|..];
      var f := MeantIsComputed(k, op.placement.condModel, state, [c]);
      var g := MeantIsComputed(k, op.placement.bodyModel, state, b);
      var h := MeantLoop(k, op, states, outs, i + 1);
      fuel := f + g + h;
      MoreFuel(k, f, fuel, op.placement.condModel, state);
      MoreFuel(k, g, fuel, op.placement.bodyModel, state);
      MoreFuelForLoop(k, |states| - i - 1, |states| - i - 1, h, fuel, op, states[i + 1]);
      LoopGoesRound(k, |states| - i, fuel, op, state, c, b);
    }
  }

  lemma LoopIsLeft(k: Kernels, fuel: nat, op: Operation, state: seq<Bytes>, c: Bytes, outs: seq<Bytes>)
    requires op.placement.InterpretWhile? && RunModel(k, fuel, op.placement.condModel, state) == Done([c]) && (c == [] || c[0] == 0)
    requires |outs| <= |state| && outs == state[..|outs|] && |outs| == |op.outputs|
    ensures Iterate(k, 1, fuel, op, state) == Done(outs)
  {
    hide RunModel;
  }

  lemma LoopGoesRound(k: Kernels, n: nat, fuel: nat, op: Operation, state: seq<Bytes>, c: Bytes, b: seq<Bytes>)
    requires n > 0 && op.placement.InterpretWhile? && RunModel(k, fuel, op.placement.condModel, state) == Done([c]) && c != [] && c[0] != 0
    requires RunModel(k, fuel, op.placement.bodyModel, state) == Done(b) && |b| <= |state|
    ensures Iterate(k, n, fuel, op, state) == Iterate(k, n - 1, fuel, op, b + state[|b|..])
  {
    hide RunModel;
  }

  // ----- the nested run and the flat run -----

  /** The nested run ends with given values, for some bound on its loops, exactly if these are
      what the model means. */
  lemma NestedRunMeans(k: Kernels, m: Model, args: seq<Bytes>, vals: seq<Bytes>)
    requires Valid(m)
    ensures (exists fuel: nat :: RunModel(k, fuel, m, args) == Done(vals)) <==> Means(k, m, args, vals)
  {
    hide Valid, RunModel, Means;
    if fuel: nat :| RunModel(k, fuel, m, args) == Done(vals) {
      ComputedIsMeant(k, fuel, m, args);
    }
    if Means(k, m, args, vals) {
      var fuel := MeantIsComputed(k, m, args, vals);
    }
  }

  /** A model means one thing. */
  lemma OneMeaning(k: Kernels, m: Model, args: seq<Bytes>, a: seq<Bytes>, b: seq<Bytes>)
    requires Valid(m) && Means(k, m, args, a) && Means(k, m, args, b)
    ensures a == b
  {
    hide Valid, RunModel, Means;
    var f := MeantIsComputed(k, m, args, a);
    var g := MeantIsComputed(k, m, args, b);
    MoreFuel(k, f, f + g, m, args);
    MoreFuel(k, g, f + g, m, args);
  }

  /** The flat run of a schedule in which nothing omitted is passed on leaves given values in the
      main outputs exactly if these are what the model means. */
  lemma FlatRunMeans(k: Kernels, m: Model, gs: seq<Group>, args: seq<Bytes>, vals: seq<Bytes>)
    requires Valid(m) && Schedules(gs, m) && Passes(m) && |args| == |m.inputIndexes|
    ensures (exists n: nat :: EndsWith(k, m, gs, args, n, vals)) <==> Means(k, m, args, vals)
  {
    hide *;
    CheckedBeforeTheRun(k, m, gs, args, vals);
    NestedRunMeans(k, m, args, vals);
  }

  // ----- one IF -----

  /** A model that passes its inputs on to one IF, the first of them as the condition. */
  ghost predicate IsOneIf(m: Model, t: Model, e: Model) {
    && |m.operations| == 1 && m.operations[0].placement == InterpretIf(t, e)
    && |m.inputIndexes| > 0 && |m.operations[0].inputs| >= 3
    && m.operations[0].inputs[0] == m.inputIndexes[0] && m.operations[0].inputs[3..] == m.inputIndexes[1..]
    && m.operations[0].outputs == m.outputIndexes
  }

  lemma OneIfMeans(k: Kernels, m: Model, t: Model, e: Model, args: seq<Bytes>, vals: seq<Bytes>)
    requires Valid(m) && IsOneIf(m, t, e) && |args| == |m.inputIndexes| && |vals| == |m.outputIndexes|
    ensures Means(k, m, args, vals) <==> Means(k, if args[0] != [] && args[0][0] != 0 then t else e, args[1..], vals)
  {
    ValidIsShallow(m);
    hide HasValues, AllAgree, Valid, ShallowValid;
    if env: Env :| HasValues(m, args, vals, env) && AllAgree(k, m, env) {
      OneAgrees(k, m, t, e, args, vals, env);
    }
    var env := OneIfValues(m, args, vals);
    OneAgrees(k, m, t, e, args, vals, env);
  }

  lemma OneAgrees(k: Kernels, m: Model, t: Model, e: Model, args: seq<Bytes>, vals: seq<Bytes>, env: Env)
    requires ShallowValid(m) && IsOneIf(m, t, e) && HasValues(m, args, vals, env) && |args| == |m.inputIndexes|
    ensures AllAgree(k, m, env) <==> Means(k, if args[0] != [] && args[0][0] != 0 then t else e, args[1..], vals)
  {
    PassedOn(m, t, e, args, vals, env);
    hide Means, HasValues, ShallowValid;
  }

  lemma PassedOn(m: Model, t: Model, e: Model, args: seq<Bytes>, vals: seq<Bytes>, env: Env)
    requires ShallowValid(m) && IsOneIf(m, t, e) && HasValues(m, args, vals, env)
    ensures var op := m.operations[0];
            && Knows(env, op.inputs) && Knows(env, op.outputs)
            && Get(env, op.inputs)[0] == args[0] && Get(env, op.inputs)[3..] == args[1..] && Get(env, op.outputs) == vals
  {
    var op := m.operations[0];
    assert OperationFits(op, m.operands);
    hide ShallowValid;
    var ins := Get(env, op.inputs);
    forall j | 0 <= j < |args| - 1 ensures ins[3..][j] == args[1..][j] {
      assert op.inputs[3 + j] == op.inputs[3..][j] == m.inputIndexes[1..][j] == m.inputIndexes[1 + j];
    }
    assert |ins[3..]| == |args[1..]|;
  }

  lemma OneIfValues(m: Model, args: seq<Bytes>, vals: seq<Bytes>) returns (env: Env)
    requires ListsLifetime(m.inputIndexes, m.operands, SubgraphInput) && ListsLifetime(m.outputIndexes, m.operands, SubgraphOutput)
    requires |args| == |m.inputIndexes| && |vals| == |m.outputIndexes|
    ensures HasValues(m, args, vals, env)
  {
    hide Bind;
    var rest: Env := map x: nat | x < |m.operands| :: m.operands[x].value;
    var inputs := Bind(rest, m.inputIndexes, args);
    env := Bind(inputs, m.outputIndexes, vals);
    assert forall x: nat :: x in env <==> x < |m.operands|;
    forall j | 0 <= j < |args| ensures m.inputIndexes[j] in env && env[m.inputIndexes[j]] == args[j] {
      assert m.inputIndexes[j] in m.inputIndexes && m.inputIndexes[j] !in m.outputIndexes;
    }
    forall j | 0 <= j < |vals| ensures m.outputIndexes[j] in env && env[m.outputIndexes[j]] == vals[j] {
      assert m.outputIndexes[j] in m.outputIndexes;
    }
  }

  /** A model that is one IF, with a condition that has a value: on the flat plan a first byte
      other than zero gives what the first model means, zero what the second one means. */
  lemma OneIf(k: Kernels, m: Model, t: Model, e: Model, gs: seq<Group>, args: seq<Bytes>, vals: seq<Bytes>)
    requires Valid(m) && Schedules(gs, m) && Passes(m) && IsOneIf(m, t, e) && |args| == |m.inputIndexes|
    requires args[0] != []
    ensures args[0][0] != 0 ==> ((exists n: nat :: EndsWith(k, m, gs, args, n, vals)) <==> Means(k, t, args[1..], vals))
    ensures args[0][0] == 0 ==> ((exists n: nat :: EndsWith(k, m, gs, args, n, vals)) <==> Means(k, e, args[1..], vals))
  {
    BranchOutputs(m, t, e);
    FlatRunMeans(k, m, gs, args, vals);
    MeaningHasOutputs(k, m, args, vals);
    MeaningHasOutputs(k, t, args[1..], vals);
    MeaningHasOutputs(k, e, args[1..], vals);
    hide *;
    if |vals| == |m.outputIndexes| { OneIfMeans(k, m, t, e, args, vals); }
  }

  lemma MeaningHasOutputs(k: Kernels, m: Model, args: seq<Bytes>, vals: seq<Bytes>)
    ensures Means(k, m, args, vals) ==> |vals| == |m.outputIndexes|
  {
  }

  lemma BranchOutputs(m: Model, t: Model, e: Model)
    requires Valid(m) && IsOneIf(m, t, e)
    ensures |t.outputIndexes| == |e.outputIndexes| == |m.outputIndexes|
  {
    ValidIsShallow(m);
    assert OperationFits(m.operations[0], m.operands);
  }
}
