/** The direct, nested meaning of a model, as the CPU executor gives it: the
    operations run in order, an IF runs one branch, a WHILE alternates condition
    and body. Tensor operations are an unknown partial function on values. */
module Semantics {
  import opened Options
  import opened Models
  import opened Sequences

  // An environment gives values to the operands of one model.
  type Env = map<nat, Bytes>

  // What the devices compute: result values, or nothing when the operation fails.
  type Kernels = (int, seq<Bytes>) -> Option<seq<Bytes>>

  // Loops are followed for a bounded number of iterations.
  datatype Outcome<+T> = Done(value: T) | Failed | OutOfFuel

  predicate IsTrue(b: Bytes) {
    |b| > 0 && b[0] != 0
  }

  predicate Knows<K(==,!new), V>(m: map<K, V>, ks: seq<K>) {
    forall k :: k in ks ==> k in m
  }

  function Get<K(==,!new), V>(m: map<K, V>, ks: seq<K>): (r: seq<V>)
    requires Knows(m, ks)
    ensures |r| == |ks|
    ensures forall i :: 0 <= i < |ks| ==> r[i] == m[ks[i]]
  {
    seq(|ks|, i requires 0 <= i < |ks| => assert ks[i] in ks; m[ks[i]])
  }

  /** `m` with the i-th key bound to the i-th value. */
  function Bind<K(==,!new), V>(m: map<K, V>, ks: seq<K>, vs: seq<V>): (r: map<K, V>)
    requires |ks| == |vs|
    ensures forall k :: k in r <==> k in m || k in ks
    ensures forall k :: k in m && k !in ks ==> r[k] == m[k]
    ensures Distinct(ks) ==> forall i :: 0 <= i < |ks| ==> r[ks[i]] == vs[i]
    decreases |ks|
  {
    if ks == [] then m
    else
      var r := Bind(m[ks[0] := vs[0]], ks[1..], vs[1..]);
      assert Distinct(ks) ==> Distinct(ks[1..]) && ks[0] !in ks[1..];
      assert forall k :: k in ks <==> k == ks[0] || k in ks[1..];
      r
  }

  lemma {:induction false} BindAppend<K(!new), V>(m: map<K, V>, ks: seq<K>, vs: seq<V>, k: K, v: V)
    requires |ks| == |vs|
    ensures Bind(m, ks + [k], vs + [v]) == Bind(m, ks, vs)[k := v]
    decreases |ks|
  {
    RestOfOne(k);
    RestOfOne(v);
    if ks == [] {
      NothingJoined([k]);
      NothingJoined([v]);
    } else {
      RestOfJoined(ks, [k]);
      RestOfJoined(vs, [v]);
      BindAppend(m[ks[0] := vs[0]], ks[1..], vs[1..], k, v);
    }
  }

  function Constants(m: Model): Env {
    map i | 0 <= i < |m.operands| && KnownInitially(m.operands[i].lifetime)
            && m.operands[i].lifetime != SubgraphInput :: m.operands[i].value
  }

  function RunModel(k: Kernels, fuel: nat, m: Model, args: seq<Bytes>): Outcome<seq<Bytes>>
    decreases m, 1
  {
    if |args| != |m.inputIndexes| then Failed
    else
      match RunOperations(k, fuel, m.operations, Bind(Constants(m), m.inputIndexes, args))
      case Done(env) => if Knows(env, m.outputIndexes) then Done(Get(env, m.outputIndexes)) else Failed
      case Failed => Failed
      case OutOfFuel => OutOfFuel
  }

  function RunOperations(k: Kernels, fuel: nat, ops: seq<Operation>, env: Env): Outcome<Env>
    decreases ops, 0
  {
    if ops == [] then Done(env)
    else
      match RunOperation(k, fuel, ops[0], env)
      case Done(env') => RunOperations(k, fuel, ops[1..], env')
      case Failed => Failed
      case OutOfFuel => OutOfFuel
  }

  function RunOperation(k: Kernels, fuel: nat, op: Operation, env: Env): Outcome<Env>
    decreases op, 3
  {
    if !Knows(env, op.inputs) then Failed
    else
      match Compute(k, fuel, op, Get(env, op.inputs))
      case Done(vals) => if |vals| == |op.outputs| then Done(Bind(env, op.outputs, vals)) else Failed
      case Failed => Failed
      case OutOfFuel => OutOfFuel
  }

  /** What one operation makes of its input values. */
  function Compute(k: Kernels, fuel: nat, op: Operation, vals: seq<Bytes>): Outcome<seq<Bytes>>
    decreases op, 2
  {
    match op.placement
    case OnDevice(_) =>
      (match k(op.opcode, vals)
       case Some(r) => Done(r)
       case None => Failed)
    case InterpretIf(t, e) =>
      if |vals| < IF_FIRST_INPUT then Failed
      else RunModel(k, fuel, if IsTrue(vals[IF_CONDITION]) then t else e, vals[IF_FIRST_INPUT..])
    case InterpretWhile(c, b) =>
      if |vals| < WHILE_FIRST_INPUT then Failed
      else Iterate(k, fuel, fuel, op, vals[WHILE_FIRST_INPUT..])
  }

  /** The loop, from a state in which the condition is about to be evaluated. The
      state is the list of loop inputs; a body iteration replaces a prefix of it. */
  function Iterate(k: Kernels, n: nat, fuel: nat, op: Operation, state: seq<Bytes>): Outcome<seq<Bytes>>
    requires op.placement.InterpretWhile?
    decreases op, 1, n
  {
    if n == 0 then OutOfFuel
    else
      match RunModel(k, fuel, op.placement.condModel, state)
      case Failed => Failed
      case OutOfFuel => OutOfFuel
      case Done(c) =>
        if |c| != 1 then Failed
        else if !IsTrue(c[0]) then
          if |op.outputs| <= |state| then Done(state[..|op.outputs|]) else Failed
        else
          match RunModel(k, fuel, op.placement.bodyModel, state)
          case Failed => Failed
          case OutOfFuel => OutOfFuel
          case Done(b) =>
            if |b| > |state| then Failed
            else Iterate(k, n - 1, fuel, op, b + state[|b|..])
  }
}
