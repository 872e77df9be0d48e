/** Running one step model: reading its boundary inputs, running its operations in
    isolation and writing its boundary outputs does what running the operations in
    place would do. */
module Partitions {
  import opened Models
  import opened Semantics
  import opened Scheduling
  import opened FlatPlans

  lemma {:induction false} OrderedConcatenation(a: seq<Operation>, b: seq<Operation>, known: set<nat>)
    requires Ordered(a + b, known)
    ensures Ordered(a, known) && Ordered(b, known + OutputsOf(a))
  {
    if a == [] {
      assert a + b == b;
      assert known + OutputsOf(a) == known;
    } else {
      assert (a + b)[0] == a[0] && (a + b)[1..] == a[1..] + b;
      OrderedConcatenation(a[1..], b, known + AsSet(a[0].outputs));
      assert known + AsSet(a[0].outputs) + OutputsOf(a[1..]) == known + OutputsOf(a);
    }
  }

  lemma {:induction false} OutputsOfConcatenation(a: seq<Operation>, b: seq<Operation>)
    ensures OutputsOf(a + b) == OutputsOf(a) + OutputsOf(b)
  {
    if a == [] {
      assert a + b == b;
    } else {
      assert (a + b)[0] == a[0] && (a + b)[1..] == a[1..] + b;
      OutputsOfConcatenation(a[1..], b);
    }
  }

  /** Whatever is read from outside of the operations is known before them. */
  lemma {:induction false} ExternalsAreKnown(ops: seq<Operation>, seen: set<nat>, known: set<nat>)
    requires Ordered(ops, known)
    ensures forall x :: x in Externals(ops, seen) ==> x in known
  {
    if ops != [] {
      ExternalsAreKnown(ops[1..], seen + AsSet(ops[0].inputs) + AsSet(ops[0].outputs), known + AsSet(ops[0].outputs));
    }
  }

  /** The operations stay in order when only their externals are known. */
  lemma {:induction false} OrderedLocally(ops: seq<Operation>, seen: set<nat>, known: set<nat>, local: set<nat>)
    requires Ordered(ops, known) && local <= known
    requires forall x :: x in Externals(ops, seen) ==> x in local
    requires seen * known <= local
    ensures Ordered(ops, local)
  {
    if ops != [] {
      var op := ops[0];
      forall x | x in op.inputs ensures x in local {
        if x !in seen {
          assert x in FirstSeen(op.inputs, seen);
          assert x in Externals(ops, seen);
        }
      }
      var seen' := seen + AsSet(op.inputs) + AsSet(op.outputs);
      assert forall x :: x in Externals(ops[1..], seen') ==> x in Externals(ops, seen);
      OrderedLocally(ops[1..], seen', known + AsSet(op.outputs), local + AsSet(op.outputs));
    }
  }

  lemma {:induction false} WrittenAreOutputs(ops: seq<Operation>)
    ensures forall x :: x in Written(ops) <==> x in OutputsOf(ops)
  {
    if ops != [] {
      WrittenAreOutputs(ops[1..]);
      forall x ensures x in Written(ops) <==> x in OutputsOf(ops) {
        assert x in Written(ops) <==> x in ops[0].outputs || x in Written(ops[1..]);
      }
    }
  }

  lemma {:induction false} WrittenAreDistinct(ops: seq<Operation>, known: set<nat>)
    requires Ordered(ops, known)
    ensures Distinct(Written(ops)) && forall x :: x in Written(ops) ==> x !in known
  {
    if ops != [] {
      var rest := Written(ops[1..]);
      WrittenAreDistinct(ops[1..], known + AsSet(ops[0].outputs));
      assert forall i, j :: 0 <= i < |ops[0].outputs| && 0 <= j < |rest| ==>
        ops[0].outputs[i] in ops[0].outputs && rest[j] in rest && ops[0].outputs[i] != rest[j];
    }
  }

  ghost predicate OnDevices(ops: seq<Operation>) {
    forall i :: 0 <= i < |ops| ==> ops[i].placement.OnDevice?
  }

  /** From a part of the environment that suffices, device operations compute the
      same values. */
  lemma {:induction false} RunFromPart(k: Kernels, f: nat, fuel: nat, ops: seq<Operation>, part: Env, env: Env)
    requires OnDevices(ops)
    requires Ordered(ops, part.Keys) && Ordered(ops, env.Keys)
    requires Extends(part, env)
    ensures match RunOperations(k, fuel, ops, env)
            case Done(env') =>
              var r := RunOperations(k, f, ops, part);
              && r.Done? && Extends(r.value, env') && Extends(env, env')
              && r.value.Keys == part.Keys + OutputsOf(ops)
              && env'.Keys == env.Keys + OutputsOf(ops)
            case Failed => RunOperations(k, f, ops, part) == Failed
            case OutOfFuel => false
  {
    if ops != [] {
      var op := ops[0];
      assert op.placement.OnDevice?;
      var a, b := RunOperation(k, f, op, part), RunOperation(k, fuel, op, env);
      OneFromPart(k, f, fuel, op, part, env);
      hide RunOperation;
      if b.Done? {
        RunFromPart(k, f, fuel, ops[1..], a.value, b.value);
      }
    }
  }

  lemma OneFromPart(k: Kernels, f: nat, fuel: nat, op: Operation, part: Env, env: Env)
    requires op.placement.OnDevice? && Distinct(op.outputs)
    requires Knows(part, op.inputs) && Extends(part, env)
    requires forall x :: x in op.outputs ==> x !in env
    ensures match RunOperation(k, fuel, op, env)
            case Done(env') =>
              var r := RunOperation(k, f, op, part);
              && r.Done? && Extends(r.value, env') && Extends(env, env')
              && r.value.Keys == part.Keys + AsSet(op.outputs)
              && env'.Keys == env.Keys + AsSet(op.outputs)
            case Failed => RunOperation(k, f, op, part) == Failed
            case OutOfFuel => false
  {
    hide Bind;
    GetOfExtension(part, env, op.inputs);
    var vals := Get(env, op.inputs);
    assert Compute(k, f, op, vals) == Compute(k, fuel, op, vals) != OutOfFuel;
    var r := k(op.opcode, vals);
    if r.Some? && |r.value| == |op.outputs| {
      BindExtends(part, env, op.outputs, r.value);
    }
  }

  lemma BindExtends(part: Env, env: Env, ks: seq<nat>, vs: seq<Bytes>)
    requires Extends(part, env) && |ks| == |vs| && Distinct(ks)
    ensures Extends(Bind(part, ks, vs), Bind(env, ks, vs))
  {
    var a, b := Bind(part, ks, vs), Bind(env, ks, vs);
    forall x | x in a ensures x in b && b[x] == a[x] {
      if x in ks {
        var i :| 0 <= i < |ks| && ks[i] == x;
        assert a[ks[i]] == vs[i] && b[ks[i]] == vs[i];
      }
    }
  }

  lemma {:induction false} BoundaryHas(m: Model, gs: seq<Group>, i: nat)
    requires i < |gs|
    ensures GroupReads(m, gs[i]) <= BoundaryReads(m, gs)
  {
    if i > 0 {
      BoundaryHas(m, gs[1..], i - 1);
    }
  }

  /** The environment that a step model starts from. */
  lemma LocalEnvironment(m: Model, ops: seq<Operation>, env: Env, vals: seq<Bytes>)
    requires Ordered(ops, env.Keys)
    requires forall x :: x in env ==> x < |m.operands|
    requires Extends(Constants(m), env)
    requires Knows(env, StepInputs(m, ops)) && vals == Get(env, StepInputs(m, ops))
    ensures var part := Bind(Constants(m), StepInputs(m, ops), vals);
            Extends(part, env) && Ordered(ops, part.Keys)
  {
    hide StepInputs, Bind, Ordered, Externals;
    var ins := StepInputs(m, ops);
    var part := Bind(Constants(m), ins, vals);
    StepInputsAreDistinct(m, ops);
    forall x | x in part ensures x in env && env[x] == part[x] {
      if x in ins {
        var i :| 0 <= i < |ins| && ins[i] == x;
        assert part[ins[i]] == vals[i];
      }
    }
    forall x | x in Externals(ops, {}) ensures x in part {
      ExternalsAreKnown(ops, {}, env.Keys);
      assert x in env;
      if !(x in Constants(m)) {
        assert x in ins;
      }
    }
    OrderedLocally(ops, {}, env.Keys, part.Keys);
  }

  lemma StepInputsAreDistinct(m: Model, ops: seq<Operation>)
    ensures Distinct(StepInputs(m, ops))
    ensures forall x :: x in StepInputs(m, ops) <==>
              x in Externals(ops, {}) && x < |m.operands| &&
              m.operands[x].lifetime in {SubgraphInput, TemporaryVariable, SubgraphOutput}
  {
    var e := Externals(ops, {});
    var a, b, c := Only(e, m, SubgraphInput), Only(e, m, TemporaryVariable), Only(e, m, SubgraphOutput);
    DistinctConcatenation(a, b);
    DistinctConcatenation(a + b, c);
    assert a + b + c == StepInputs(m, ops);
  }

  lemma StepOutputsAreDistinct(m: Model, ops: seq<Operation>, boundary: set<nat>, known: set<nat>)
    requires Ordered(ops, known)
    ensures Distinct(StepOutputs(m, ops, boundary))
    ensures forall x :: x in StepOutputs(m, ops, boundary) <==>
              x in OutputsOf(ops) && x < |m.operands| &&
              (m.operands[x].lifetime == SubgraphOutput || (m.operands[x].lifetime == TemporaryVariable && x in boundary))
  {
    WrittenAreDistinct(ops, known);
    WrittenAreOutputs(ops);
    var a := Only(Written(ops), m, SubgraphOutput);
    var b := Ascending(|m.operands|, AsSet(Only(Written(ops), m, TemporaryVariable)) * boundary);
    DistinctConcatenation(a, b);
  }

  lemma DistinctConcatenation<T(!new)>(a: seq<T>, b: seq<T>)
    requires Distinct(a) && Distinct(b) && forall x :: x in a ==> x !in b
    ensures Distinct(a + b)
  {
    forall i, j | 0 <= i < j < |a + b| ensures (a + b)[i] != (a + b)[j] {
      if i < |a| <= j {
        assert a[i] in a && b[j - |a|] in b;
      }
    }
  }
}
