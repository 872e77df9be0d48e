/** An execution step while operations are added to it: the step model, how its operands
    are numbered, and which operands of the source model cross its boundary. */
module ExecutionSteps {
  import opened Models
  import opened Sequences
  import opened Semantics
  import opened FlatPlans

  // ----- appending to the lists that describe a boundary -----

  function Seen(ops: seq<Operation>): set<nat> {
    if ops == [] then {} else AsSet(ops[0].inputs) + AsSet(ops[0].outputs) + Seen(ops[1..])
  }

  lemma {:induction false} SeenAppend(ops: seq<Operation>, op: Operation)
    ensures Seen(ops + [op]) == Seen(ops) + AsSet(op.inputs) + AsSet(op.outputs)
  {
    if ops == [] {
      NothingJoined([op]);
      RestOfOne(op);
    } else {
      SeenAppend(ops[1..], op);
      RestOfJoined(ops, [op]);
    }
  }

  lemma SeenWithFirst(ops: seq<Operation>, seen: set<nat>)
    requires ops != []
    ensures seen + AsSet(ops[0].inputs) + AsSet(ops[0].outputs) + Seen(ops[1..]) == seen + Seen(ops)
  {
  }

  lemma FirstSeenNothing(xs: seq<nat>, seen: set<nat>)
    ensures xs + FirstSeen([], seen) == xs
  {
  }

  lemma FirstSeenStep(xs: seq<nat>, seen: set<nat>)
    requires xs != []
    ensures xs[0] in seen ==> FirstSeen(xs, seen) == FirstSeen(xs[1..], seen)
    ensures xs[0] !in seen ==> FirstSeen(xs, seen) == [xs[0]] + FirstSeen(xs[1..], seen + {xs[0]})
  {
  }

  // What is seen first where one more operand is listed.
  function Unseen(xs: seq<nat>, seen: set<nat>, x: nat): seq<nat> {
    if x in seen || x in xs then [] else [x]
  }

  lemma UnseenStep(xs: seq<nat>, seen: set<nat>, x: nat)
    requires xs != []
    ensures Unseen(xs, seen, x) == Unseen(xs[1..], seen + {xs[0]}, x)
    ensures xs[0] in seen ==> Unseen(xs, seen, x) == Unseen(xs[1..], seen, x)
  {
    assert x in xs <==> x == xs[0] || x in xs[1..];
  }

  lemma {:induction false} FirstSeenAppend(xs: seq<nat>, seen: set<nat>, x: nat)
    ensures FirstSeen(xs + [x], seen) == FirstSeen(xs, seen) + Unseen(xs, seen, x)
  {
    if xs == [] {
      NothingJoined([x]);
      RestOfOne(x);
    } else {
      RestOfJoined(xs, [x]);
      FirstSeenStep(xs, seen);
      FirstSeenStep(xs + [x], seen);
      UnseenStep(xs, seen, x);
      hide FirstSeen, Unseen;
      if xs[0] in seen {
        FirstSeenAppend(xs[1..], seen, x);
      } else {
        FirstSeenAppend(xs[1..], seen + {xs[0]}, x);
        Regrouped([xs[0]], FirstSeen(xs[1..], seen + {xs[0]}), Unseen(xs, seen, x));
      }
    }
  }

  lemma ExternalsStep(ops: seq<Operation>, seen: set<nat>)
    requires ops != []
    ensures Externals(ops, seen) ==
            FirstSeen(ops[0].inputs, seen) + Externals(ops[1..], seen + AsSet(ops[0].inputs) + AsSet(ops[0].outputs))
  {
  }

  lemma ExternalsOfOne(op: Operation, seen: set<nat>)
    ensures Externals([op], seen) == Externals([], seen) + FirstSeen(op.inputs, seen + Seen([]))
  {
    ExternalsStep([op], seen);
    RestOfOne(op);
    assert seen + {} == seen;
    NothingJoined(FirstSeen(op.inputs, seen));
  }

  lemma {:induction false} ExternalsAppend(ops: seq<Operation>, op: Operation, seen: set<nat>)
    ensures Externals(ops + [op], seen) == Externals(ops, seen) + FirstSeen(op.inputs, seen + Seen(ops))
  {
    hide Externals, FirstSeen, Seen;
    if ops == [] {
      NothingJoined([op]);
      ExternalsOfOne(op, seen);
    } else {
      var seen' := seen + AsSet(ops[0].inputs) + AsSet(ops[0].outputs);
      ExternalsStep(ops + [op], seen);
      RestOfJoined(ops, [op]);
      ExternalsAppend(ops[1..], op, seen');
      SeenWithFirst(ops, seen);
      ExternalsStep(ops, seen);
      Regrouped(FirstSeen(ops[0].inputs, seen), Externals(ops[1..], seen'), FirstSeen(op.inputs, seen + Seen(ops)));
    }
  }

  lemma {:induction false} WrittenAppend(ops: seq<Operation>, op: Operation)
    ensures Written(ops + [op]) == Written(ops) + op.outputs
  {
    if ops == [] {
      NothingJoined([op]);
      RestOfOne(op);
    } else {
      WrittenAppend(ops[1..], op);
      RestOfJoined(ops, [op]);
    }
  }

  lemma OnlyOne(x: nat, m: Model, l: Lifetime)
    ensures Only([x], m, l) == if x < |m.operands| && m.operands[x].lifetime == l then [x] else []
  {
    hide Distinct;
    RestOfOne(x);
    assert Only([], m, l) == [];
  }

  lemma OnlyFirst(xs: seq<nat>, m: Model, l: Lifetime)
    requires xs != []
    ensures Only(xs, m, l) ==
            if xs[0] < |m.operands| && m.operands[xs[0]].lifetime == l then [xs[0]] + Only(xs[1..], m, l) else Only(xs[1..], m, l)
  {
    hide Distinct;
  }

  lemma OnlyStep(xs: seq<nat>, m: Model, l: Lifetime)
    requires xs != []
    ensures Only(xs, m, l) == Only([xs[0]], m, l) + Only(xs[1..], m, l)
  {
    hide *;
    OnlyOne(xs[0], m, l);
    OnlyFirst(xs, m, l);
    NothingJoined(Only(xs[1..], m, l));
  }

  lemma {:induction false} OnlyAppend(xs: seq<nat>, ys: seq<nat>, m: Model, l: Lifetime)
    ensures Only(xs + ys, m, l) == Only(xs, m, l) + Only(ys, m, l)
  {
    if xs == [] {
      NothingJoined(ys);
      NothingJoined(Only(ys, m, l));
    } else {
      RestOfJoined(xs, ys);
      OnlyStep(xs + ys, m, l);
      OnlyStep(xs, m, l);
      OnlyAppend(xs[1..], ys, m, l);
      hide Only;
      Regrouped(Only([xs[0]], m, l), Only(xs[1..], m, l), Only(ys, m, l));
    }
  }

  // ----- renumbered operations -----

  function Renumbered(f: map<nat, nat>, xs: seq<nat>): (r: seq<nat>)
    requires forall x :: x in xs ==> x in f
    ensures |r| == |xs| && forall i :: 0 <= i < |xs| ==> xs[i] in f && r[i] == f[xs[i]]
  {
    seq(|xs|, i requires 0 <= i < |xs| => assert xs[i] in xs; f[xs[i]])
  }

  ghost predicate CoversOperation(f: map<nat, nat>, op: Operation) {
    (forall x :: x in op.inputs ==> x in f) && (forall x :: x in op.outputs ==> x in f)
  }

  ghost predicate Covers(f: map<nat, nat>, ops: seq<Operation>) {
    forall i :: 0 <= i < |ops| ==> CoversOperation(f, ops[i])
  }

  ghost predicate Injective(f: map<nat, nat>) {
    forall x, y :: x in f && y in f && f[x] == f[y] ==> x == y
  }

  function RenumberedOperation(f: map<nat, nat>, op: Operation): Operation
    requires CoversOperation(f, op)
  {
    op.(inputs := Renumbered(f, op.inputs), outputs := Renumbered(f, op.outputs))
  }

  /** `renumbered` are the operations `ops` with their operands numbered by `f`. */
  ghost predicate AreRenumbered(f: map<nat, nat>, ops: seq<Operation>, renumbered: seq<Operation>) {
    && Covers(f, ops) && |renumbered| == |ops|
    && forall i :: 0 <= i < |ops| ==> renumbered[i] == RenumberedOperation(f, ops[i])
  }

  /** Both environments give operands that correspond the same values. */
  ghost predicate SameValues(f: map<nat, nat>, env: Env, local: Env) {
    forall x :: x in f ==> (x in env <==> f[x] in local) && (x in env ==> local[f[x]] == env[x])
  }

  lemma SameGet(f: map<nat, nat>, env: Env, local: Env, xs: seq<nat>)
    requires SameValues(f, env, local) && forall x :: x in xs ==> x in f
    ensures Knows(env, xs) <==> Knows(local, Renumbered(f, xs))
    ensures Knows(env, xs) ==> Get(local, Renumbered(f, xs)) == Get(env, xs)
  {
    var ys := Renumbered(f, xs);
    if Knows(env, xs) {
      forall y | y in ys ensures y in local {
        var i :| 0 <= i < |ys| && ys[i] == y;
        assert xs[i] in xs;
      }
      forall i | 0 <= i < |xs| ensures Get(local, ys)[i] == Get(env, xs)[i] {
        assert xs[i] in xs;
      }
    }
    if Knows(local, ys) {
      forall x | x in xs ensures x in env {
        var i :| 0 <= i < |xs| && xs[i] == x;
        assert ys[i] in ys;
      }
    }
  }

  lemma {:induction false} SameBind(f: map<nat, nat>, env: Env, local: Env, xs: seq<nat>, vs: seq<Bytes>)
    requires Injective(f) && SameValues(f, env, local) && (forall x :: x in xs ==> x in f) && |vs| == |xs|
    ensures SameValues(f, Bind(env, xs, vs), Bind(local, Renumbered(f, xs), vs))
    decreases |xs|
  {
    if xs != [] {
      var env', local' := env[xs[0] := vs[0]], local[f[xs[0]] := vs[0]];
      assert xs[0] in xs;
      assert SameValues(f, env', local');
      assert Renumbered(f, xs)[1..] == Renumbered(f, xs[1..]);
      SameBind(f, env', local', xs[1..], vs[1..]);
    }
  }

  /** A step model computes what its operations compute in the source model: its own
      numbering of operands changes nothing. */
  lemma {:induction false} RenumberingPreservesMeaning(k: Kernels, fuel: nat, f: map<nat, nat>, ops: seq<Operation>, renumbered: seq<Operation>, env: Env, local: Env)
    requires Injective(f) && AreRenumbered(f, ops, renumbered) && SameValues(f, env, local)
    ensures var r, r' := RunOperations(k, fuel, ops, env), RunOperations(k, fuel, renumbered, local);
            && (r.Done? <==> r'.Done?) && (r.Failed? <==> r'.Failed?)
            && (r.Done? ==> SameValues(f, r.value, r'.value))
  {
    if ops != [] {
      var op, op' := ops[0], renumbered[0];
      SameGet(f, env, local, op.inputs);
      OperationRenumbered(k, fuel, f, op, env, local);
      var r, r' := RunOperation(k, fuel, op, env), RunOperation(k, fuel, op', local);
      if r.Done? {
        RenumberingPreservesMeaning(k, fuel, f, ops[1..], renumbered[1..], r.value, r'.value);
      }
    }
  }

  lemma OperationRenumbered(k: Kernels, fuel: nat, f: map<nat, nat>, op: Operation, env: Env, local: Env)
    requires Injective(f) && CoversOperation(f, op) && SameValues(f, env, local)
    ensures var r, r' := RunOperation(k, fuel, op, env), RunOperation(k, fuel, RenumberedOperation(f, op), local);
            && (r.Done? <==> r'.Done?) && (r.Failed? <==> r'.Failed?)
            && (r.Done? ==> SameValues(f, r.value, r'.value))
  {
    hide SameValues, Bind, Injective;
    var op' := RenumberedOperation(f, op);
    SameGet(f, env, local, op.inputs);
    if Knows(env, op.inputs) {
      var vals := Get(env, op.inputs);
      ComputeIgnoresNumbers(k, fuel, op, op', vals);
      hide Compute;
      var c := Compute(k, fuel, op, vals);
      if c.Done? && |c.value| == |op.outputs| {
        SameBind(f, env, local, op.outputs, c.value);
      }
    }
  }

  lemma {:induction false} ComputeIgnoresNumbers(k: Kernels, fuel: nat, op: Operation, op': Operation, vals: seq<Bytes>)
    requires op'.opcode == op.opcode && op'.placement == op.placement && |op'.outputs| == |op.outputs|
    ensures Compute(k, fuel, op', vals) == Compute(k, fuel, op, vals)
  {
    if op.placement.InterpretWhile? && |vals| >= WHILE_FIRST_INPUT {
      IterateIgnoresNumbers(k, fuel, fuel, op, op', vals[WHILE_FIRST_INPUT..]);
    }
  }

  lemma {:induction false} IterateIgnoresNumbers(k: Kernels, n: nat, fuel: nat, op: Operation, op': Operation, state: seq<Bytes>)
    requires op.placement.InterpretWhile? && op'.placement == op.placement && |op'.outputs| == |op.outputs|
    ensures Iterate(k, n, fuel, op', state) == Iterate(k, n, fuel, op, state)
    decreases n
  {
    hide RunModel, IsTrue;
    if n > 0 {
      var b := RunModel(k, fuel, op.placement.bodyModel, state);
      if b.Done? && |b.value| <= |state| {
        IterateIgnoresNumbers(k, n - 1, fuel, op, op', b.value + state[|b.value|..]);
      }
    }
  }

  datatype OperandKind = Input | Output

  /** The numbering is one to one and copies every operand once. */
  ghost predicate IsNumbered(operands: seq<nat>, f: map<nat, nat>) {
    && |operands| == |f|
    && (forall x :: x in f ==> f[x] < |operands| && operands[f[x]] == x)
    && (forall j :: 0 <= j < |operands| ==> operands[j] in f && f[operands[j]] == j)
  }

  // How operands of the source model cross the boundary of a step model.
  datatype Crossing = Crossing(
    modelInputs: seq<nat>,
    temporaryInputs: seq<nat>,
    outputsAsInputs: seq<nat>,
    modelOutputs: seq<nat>,
    temporaryDefs: seq<nat>)

  /** The lists hold, in order, the operands in `external` that come from outside and
      those in `written`. */
  ghost predicate Lists(c: Crossing, source: Model, external: seq<nat>, written: seq<nat>) {
    && c.modelInputs == Only(external, source, SubgraphInput)
    && c.temporaryInputs == Only(external, source, TemporaryVariable)
    && c.outputsAsInputs == Only(external, source, SubgraphOutput)
    && c.modelOutputs == Only(written, source, SubgraphOutput)
    && c.temporaryDefs == Only(written, source, TemporaryVariable)
  }

  // The constants of a step model.
  function StepConstants(source: Model, operands: seq<nat>): Env {
    map j | 0 <= j < |operands| && operands[j] in Constants(source) :: Constants(source)[operands[j]]
  }

  /** The step model, with its own operands, gives for every argument the outputs that its
      operations give in the source model. */
  lemma StepModelComputes(k: Kernels, fuel: nat, source: Model, operands: seq<nat>, f: map<nat, nat>, ops: seq<Operation>,
                          renumbered: seq<Operation>, ins: seq<nat>, outs: seq<nat>, args: seq<Bytes>)
    requires IsNumbered(operands, f) && AreRenumbered(f, ops, renumbered) && |args| == |ins|
    requires (forall x :: x in ins ==> x in f) && forall x :: x in outs ==> x in f
    ensures var r := RunOperations(k, fuel, ops, Bind(Constants(source), ins, args));
            var r' := RunOperations(k, fuel, renumbered, Bind(StepConstants(source, operands), Renumbered(f, ins), args));
            && (r.Done? <==> r'.Done?) && (r.Failed? <==> r'.Failed?)
            && (r.Done? ==> (Knows(r.value, outs) <==> Knows(r'.value, Renumbered(f, outs))))
            && (r.Done? && Knows(r.value, outs) ==> Get(r'.value, Renumbered(f, outs)) == Get(r.value, outs))
  {
    hide Bind, Renumbered, RunOperations, AreRenumbered, Knows, Get;
    var env, local := Constants(source), StepConstants(source, operands);
    assert SameValues(f, env, local) && Injective(f);
    hide IsNumbered, SameValues, Injective, Constants, StepConstants;
    SameBind(f, env, local, ins, args);
    RenumberingPreservesMeaning(k, fuel, f, ops, renumbered, Bind(env, ins, args), Bind(local, Renumbered(f, ins), args));
    var r, r' := RunOperations(k, fuel, ops, Bind(env, ins, args)), RunOperations(k, fuel, renumbered, Bind(local, Renumbered(f, ins), args));
    if r.Done? { SameGet(f, r.value, r'.value, outs); }
  }

  // A finished step model: its inputs and outputs, each with its operand in the source model
  // and in the step model, and the positions of main inputs and outputs among those of the
  // main model. Lists of positions are empty for steps of other models.
  datatype StepBoundary = StepBoundary(
    sourceModelIndex: nat,
    inputs: seq<(nat, nat)>,
    outputs: seq<(nat, nat)>,
    inputToMain: seq<nat>,
    outputToMain: seq<nat>,
    outputsAsInputsToMain: seq<nat>)

  function Paired(f: map<nat, nat>, xs: seq<nat>): (r: seq<(nat, nat)>)
    requires forall x :: x in xs ==> x in f
    ensures |r| == |xs| && forall i :: 0 <= i < |xs| ==> xs[i] in f && r[i] == (xs[i], f[xs[i]])
  {
    seq(|xs|, i requires 0 <= i < |xs| => assert xs[i] in xs; (xs[i], f[xs[i]]))
  }

  /** The positions are those of the operands in the list. */
  ghost predicate ArePositions(indexes: seq<nat>, xs: seq<nat>, r: seq<nat>) {
    |r| == |xs| && forall i :: 0 <= i < |xs| ==> r[i] < |indexes| && indexes[r[i]] == xs[i]
  }

  /** The step has `temps` as outputs, and its main inputs and outputs are those of the main
      model at their positions. */
  ghost predicate IsBoundary(b: StepBoundary, source: Model, f: map<nat, nat>, ops: seq<Operation>, temps: seq<nat>)
    requires (forall x :: x in StepInputs(source, ops) ==> x in f) && forall x :: x in Only(Written(ops), source, SubgraphOutput) + temps ==> x in f
  {
    && b.inputs == Paired(f, StepInputs(source, ops))
    && b.outputs == Paired(f, Only(Written(ops), source, SubgraphOutput) + temps)
    && if b.sourceModelIndex == 0 then
         && ArePositions(source.inputIndexes, Only(Externals(ops, {}), source, SubgraphInput), b.inputToMain)
         && ArePositions(source.outputIndexes, Only(Written(ops), source, SubgraphOutput), b.outputToMain)
         && ArePositions(source.outputIndexes, Only(Externals(ops, {}), source, SubgraphOutput), b.outputsAsInputsToMain)
       else b.inputToMain == b.outputToMain == b.outputsAsInputsToMain == []
  }

  // The position of each operand of a list.
  method IndexByOperand(xs: seq<nat>) returns (r: map<nat, nat>)
    ensures r.Keys == AsSet(xs) && forall x :: x in r ==> r[x] < |xs| && xs[r[x]] == x
  {
    r := map[];
    for i := 0 to |xs|
      invariant r.Keys == AsSet(xs[..i]) && forall x :: x in r ==> r[x] < i && xs[r[x]] == x
    {
      assert xs[..i + 1] == xs[..i] + [xs[i]];
      r := r[xs[i] := i];
    }
    assert xs[..|xs|] == xs;
  }

  method LookUpAll(r: map<nat, nat>, xs: seq<nat>) returns (positions: seq<nat>)
    requires forall x :: x in xs ==> x in r
    ensures |positions| == |xs| && forall i :: 0 <= i < |xs| ==> xs[i] in r && positions[i] == r[xs[i]]
  {
    positions := [];
    for i := 0 to |xs|
      invariant |positions| == i && forall j :: 0 <= j < i ==> xs[j] in r && positions[j] == r[xs[j]]
    {
      assert xs[i] in xs;
      positions := positions + [r[xs[i]]];
    }
  }

  lemma {:induction false} ExternalsAreSeen(ops: seq<Operation>, seen: set<nat>)
    ensures forall x :: x in Externals(ops, seen) ==> x in Seen(ops)
    ensures forall x :: x in Written(ops) ==> x in Seen(ops)
  {
    if ops != [] {
      ExternalsAreSeen(ops[1..], seen + AsSet(ops[0].inputs) + AsSet(ops[0].outputs));
      FirstSeenAreListed(ops[0].inputs, seen);
    }
  }

  lemma {:induction false} FirstSeenAreListed(xs: seq<nat>, seen: set<nat>)
    ensures forall x :: x in FirstSeen(xs, seen) ==> x in xs
  {
    if xs != [] {
      FirstSeenStep(xs, seen);
      FirstSeenAreListed(xs[1..], seen);
      FirstSeenAreListed(xs[1..], seen + {xs[0]});
    }
  }

  /** Everything that crosses the boundary is an operand of the step model. */
  lemma BoundaryIsNumbered(source: Model, ops: seq<Operation>, f: map<nat, nat>, temps: seq<nat>)
    requires f.Keys == Seen(ops) && forall x :: x in temps ==> x in Only(Written(ops), source, TemporaryVariable)
    ensures forall x :: x in StepInputs(source, ops) ==> x in f
    ensures forall x :: x in Only(Written(ops), source, SubgraphOutput) + temps ==> x in f
  {
    ExternalsAreSeen(ops, {});
  }

  class ExecutionStepBuilder {
    const source: Model
    const sourceModelIndex: nat

    // The step model: which operand of the source model each of its operands copies.
    var operands: seq<nat>
    var operations: seq<Operation>
    var operandMap: map<nat, nat>
    // Operands of the source model by how they cross the boundary.
    var modelInputs: seq<nat>
    var tempsAsStepModelInputs: seq<nat>
    var outputsAsStepModelInputs: seq<nat>
    var modelOutputs: seq<nat>
    // Temporaries that this step defines.
    var temporaryDefs: seq<nat>
    // The same operations in terms of the source model.
    var added: seq<Operation>

    function Current(): Crossing
      reads this
    {
      Crossing(modelInputs, tempsAsStepModelInputs, outputsAsStepModelInputs, modelOutputs, temporaryDefs)
    }

    ghost predicate Valid()
      reads this
    {
      && IsNumbered(operands, operandMap) && operandMap.Keys == Seen(added)
      && Lists(Current(), source, Externals(added, {}), Written(added))
      && AreRenumbered(operandMap, added, operations)
    }

    constructor (source: Model, sourceModelIndex: nat)
      ensures Valid() && added == [] && this.source == source && this.sourceModelIndex == sourceModelIndex
    {
      this.source, this.sourceModelIndex := source, sourceModelIndex;
      operands, operations, operandMap := [], [], map[];
      modelInputs, tempsAsStepModelInputs, outputsAsStepModelInputs, modelOutputs, temporaryDefs := [], [], [], [], [];
      added := [];
    }

    // Gives a new operand the next number.
    method NumberOperand(x: nat)
      requires IsNumbered(operands, operandMap) && x !in operandMap
      modifies this`operands, this`operandMap
      ensures IsNumbered(operands, operandMap) && operandMap == old(operandMap)[x := |old(operands)|] && operands == old(operands) + [x]
    {
      operandMap := operandMap[x := |operands|];
      operands := operands + [x];
    }

    // Keeps track of how a new operand crosses the boundary.
    method RecordOperand(x: nat, kind: OperandKind, ghost external: seq<nat>, ghost written: seq<nat>)
      requires Lists(Current(), source, external, written) && x < |source.operands|
      requires kind == Output ==> !KnownInitially(source.operands[x].lifetime)
      modifies this`modelInputs, this`tempsAsStepModelInputs, this`outputsAsStepModelInputs, this`modelOutputs, this`temporaryDefs
      ensures if kind == Input then Lists(Current(), source, external + [x], written) else Lists(Current(), source, external, written + [x])
    {
      hide Only;
      OneOf(external, source, x, SubgraphInput);
      OneOf(external, source, x, TemporaryVariable);
      OneOf(external, source, x, SubgraphOutput);
      OneOf(written, source, x, TemporaryVariable);
      OneOf(written, source, x, SubgraphOutput);
      match source.operands[x].lifetime {
        case TemporaryVariable =>
          if kind == Input {
            tempsAsStepModelInputs := tempsAsStepModelInputs + [x];
          } else {
            temporaryDefs := temporaryDefs + [x];
          }
        case SubgraphInput =>
          modelInputs := modelInputs + [x];
        case SubgraphOutput =>
          if kind == Input {
            outputsAsStepModelInputs := outputsAsStepModelInputs + [x];
          } else {
            modelOutputs := modelOutputs + [x];
          }
        case _ =>
      }
    }

    // Adds an operand if it has not been added already. An output must be new.
    method AddOperand(x: nat, kind: OperandKind, ghost external: seq<nat>, ghost written: seq<nat>) returns (ok: bool, index: nat)
      requires IsNumbered(operands, operandMap) && Lists(Current(), source, external, written) && x < |source.operands|
      requires kind == Output ==> !KnownInitially(source.operands[x].lifetime)
      modifies this`operands, this`operandMap, this`modelInputs, this`tempsAsStepModelInputs, this`outputsAsStepModelInputs,
               this`modelOutputs, this`temporaryDefs
      ensures ok <==> kind == Input || x !in old(operandMap)
      ensures ok ==> IsNumbered(operands, operandMap) && operandMap.Keys == old(operandMap.Keys) + {x} && operandMap[x] == index
      ensures ok ==> forall y :: y in old(operandMap) ==> operandMap[y] == old(operandMap[y])
      ensures ok && kind == Input ==> Lists(Current(), source, if x in old(operandMap) then external else external + [x], written)
      ensures ok && kind == Output ==> Lists(Current(), source, external, written + [x])
    {
      hide Lists, IsNumbered;
      index := 0;
      if x in operandMap {
        return kind == Input, operandMap[x];
      }
      index := |operands|;
      NumberOperand(x);
      RecordOperand(x, kind, external, written);
      ok := true;
    }

    method AddInputs(xs: seq<nat>, ghost external: seq<nat>, ghost written: seq<nat>) returns (indexes: seq<nat>)
      requires IsNumbered(operands, operandMap) && Lists(Current(), source, external, written) && InRange(xs, |source.operands|)
      modifies this`operands, this`operandMap, this`modelInputs, this`tempsAsStepModelInputs, this`outputsAsStepModelInputs,
               this`modelOutputs, this`temporaryDefs
      ensures IsNumbered(operands, operandMap) && operandMap.Keys == old(operandMap.Keys) + AsSet(xs)
      ensures forall y :: y in old(operandMap) ==> operandMap[y] == old(operandMap[y])
      ensures Lists(Current(), source, external + FirstSeen(xs, old(operandMap.Keys)), written)
      ensures indexes == Renumbered(operandMap, xs)
    {
      hide Lists, IsNumbered, Renumbered, FirstSeen;
      ghost var seen := operandMap.Keys;
      indexes := [];
      FirstSeenNothing(external, seen);
      for i := 0 to |xs|
        invariant IsNumbered(operands, operandMap) && operandMap.Keys == seen + AsSet(xs[..i])
        invariant forall y :: y in old(operandMap) ==> operandMap[y] == old(operandMap[y])
        invariant Lists(Current(), source, external + FirstSeen(xs[..i], seen), written)
        invariant indexes == Renumbered(operandMap, xs[..i])
      {
        assert xs[i] in xs && xs[..i + 1] == xs[..i] + [xs[i]];
        FirstSeenAppend(xs[..i], seen, xs[i]);
        ghost var f := operandMap;
        var ok, index := AddOperand(xs[i], Input, external + FirstSeen(xs[..i], seen), written);
        assert external + FirstSeen(xs[..i + 1], seen) ==
               if xs[i] in f then external + FirstSeen(xs[..i], seen) else external + FirstSeen(xs[..i], seen) + [xs[i]];
        RenumberedAppend(f, operandMap, xs, i);
        indexes := indexes + [index];
      }
      assert xs[..|xs|] == xs;
    }

    // Every output is a new operand.
    method AddOutputs(xs: seq<nat>, ghost external: seq<nat>, ghost written: seq<nat>) returns (ok: bool, indexes: seq<nat>)
      requires IsNumbered(operands, operandMap) && Lists(Current(), source, external, written)
      requires forall x :: x in xs ==> x < |source.operands| && !KnownInitially(source.operands[x].lifetime)
      modifies this`operands, this`operandMap, this`modelInputs, this`tempsAsStepModelInputs, this`outputsAsStepModelInputs,
               this`modelOutputs, this`temporaryDefs
      ensures Distinct(xs) && (forall x :: x in xs ==> x !in old(operandMap)) ==> ok
      ensures ok ==> IsNumbered(operands, operandMap) && operandMap.Keys == old(operandMap.Keys) + AsSet(xs)
      ensures ok ==> forall y :: y in old(operandMap) ==> operandMap[y] == old(operandMap[y])
      ensures ok ==> Lists(Current(), source, external, written + xs)
      ensures ok ==> indexes == Renumbered(operandMap, xs)
    {
      hide Lists, IsNumbered, Renumbered;
      ghost var seen := operandMap.Keys;
      indexes := [];
      assert written + [] == written;
      for i := 0 to |xs|
        invariant IsNumbered(operands, operandMap) && operandMap.Keys == seen + AsSet(xs[..i])
        invariant forall y :: y in old(operandMap) ==> operandMap[y] == old(operandMap[y])
        invariant Lists(Current(), source, external, written + xs[..i])
        invariant indexes == Renumbered(operandMap, xs[..i])
      {
        assert xs[i] in xs && xs[..i + 1] == xs[..i] + [xs[i]];
        if Distinct(xs) { assert xs[i] !in xs[..i]; }
        ghost var f := operandMap;
        var index;
        ok, index := AddOperand(xs[i], Output, external, written + xs[..i]);
        if !ok { return; }
        assert written + xs[..i] + [xs[i]] == written + xs[..i + 1];
        RenumberedAppend(f, operandMap, xs, i);
        indexes := indexes + [index];
      }
      assert xs[..|xs|] == xs;
      ok := true;
    }

    /** Adds an operation. It is expected to come after those that write its inputs, so
        that its outputs have not been seen before. */
    method AddOperation(op: Operation) returns (ok: bool)
      requires Valid() && OperationFits(op, source.operands)
      modifies this
      ensures Distinct(op.outputs) && (forall x :: x in op.outputs ==> x !in Seen(old(added)) && x !in op.inputs) ==> ok
      ensures ok ==> Valid() && added == old(added) + [op]
    {
      hide Lists, IsNumbered, Renumbered, AreRenumbered, FirstSeen, Externals, Written, Seen;
      SeenAppend(added, op);
      ExternalsAppend(added, op, {});
      WrittenAppend(added, op);
      ghost var f := operandMap;
      ghost var external, written := Externals(added, {}), Written(added);
      assert {} + Seen(added) == Seen(added);
      var inputs := AddInputs(op.inputs, external, written);
      ghost var g := operandMap;
      var outputs;
      ok, outputs := AddOutputs(op.outputs, external + FirstSeen(op.inputs, Seen(added)), written);
      if !ok { return; }
      OneMoreRenumbered(f, operandMap, added, operations, op);
      RenumberedAgain(g, operandMap, op.inputs);
      operations := operations + [op.(inputs := inputs, outputs := outputs)];
      added := added + [op];
    }

    // The step as it is listed in the plan, before temporaries are made its outputs.
    method Finish() returns (step: LogicalStep)
      requires Valid()
      ensures step == ExecutionStep(sourceModelIndex, source, added, StepInputs(source, added), Only(Written(added), source, SubgraphOutput))
    {
      step := ExecutionStep(sourceModelIndex, source, added,
                            modelInputs + tempsAsStepModelInputs + outputsAsStepModelInputs, modelOutputs);
    }

    /** Lists the inputs and outputs of the step model once it is known which temporaries
        other steps read. */
    method FinishStepModel(temps: seq<nat>) returns (b: StepBoundary)
      requires Valid() && forall x :: x in temps ==> x in temporaryDefs
      requires ListsLifetime(source.inputIndexes, source.operands, SubgraphInput)
      requires ListsLifetime(source.outputIndexes, source.operands, SubgraphOutput)
      ensures b.sourceModelIndex == sourceModelIndex
      ensures (forall x :: x in StepInputs(source, added) ==> x in operandMap)
      ensures forall x :: x in Only(Written(added), source, SubgraphOutput) + temps ==> x in operandMap
      ensures IsBoundary(b, source, operandMap, added, temps)
    {
      hide IsNumbered, AreRenumbered, Externals, Written, Only, Seen;
      BoundaryIsNumbered(source, added, operandMap, temps);
      var inputs := Paired(operandMap, modelInputs + tempsAsStepModelInputs + outputsAsStepModelInputs);
      var outputs := Paired(operandMap, modelOutputs + temps);
      var inputToMain, outputToMain, outputsAsInputsToMain := [], [], [];
      if sourceModelIndex == 0 {
        var toInput := IndexByOperand(source.inputIndexes);
        var toOutput := IndexByOperand(source.outputIndexes);
        inputToMain := LookUpAll(toInput, modelInputs);
        outputToMain := LookUpAll(toOutput, modelOutputs);
        outputsAsInputsToMain := LookUpAll(toOutput, outputsAsStepModelInputs);
      }
      b := StepBoundary(sourceModelIndex, inputs, outputs, inputToMain, outputToMain, outputsAsInputsToMain);
    }
  }

  lemma OneOf(xs: seq<nat>, m: Model, x: nat, l: Lifetime)
    requires x < |m.operands|
    ensures Only(xs + [x], m, l) == Only(xs, m, l) + if m.operands[x].lifetime == l then [x] else []
  {
    OnlyAppend(xs, [x], m, l);
    assert Only([x][1..], m, l) == [];
  }

  lemma RenumberedAppend(f: map<nat, nat>, g: map<nat, nat>, xs: seq<nat>, i: nat)
    requires i < |xs| && (forall x :: x in xs[..i] ==> x in f) && (forall x :: x in f ==> x in g && g[x] == f[x]) && xs[i] in g
    ensures (forall x :: x in xs[..i + 1] ==> x in g) && Renumbered(g, xs[..i + 1]) == Renumbered(f, xs[..i]) + [g[xs[i]]]
  {
    assert xs[..i + 1] == xs[..i] + [xs[i]];
  }

  lemma RenumberedAgain(f: map<nat, nat>, g: map<nat, nat>, xs: seq<nat>)
    requires (forall x :: x in xs ==> x in f) && (forall x :: x in f ==> x in g && g[x] == f[x])
    ensures (forall x :: x in xs ==> x in g) && Renumbered(g, xs) == Renumbered(f, xs)
  {
  }

  lemma OneMoreRenumbered(f: map<nat, nat>, g: map<nat, nat>, ops: seq<Operation>, renumbered: seq<Operation>, op: Operation)
    requires AreRenumbered(f, ops, renumbered) && (forall x :: x in f ==> x in g && g[x] == f[x]) && CoversOperation(g, op)
    ensures AreRenumbered(g, ops + [op], renumbered + [RenumberedOperation(g, op)])
  {
    hide Renumbered;
    forall i | 0 <= i < |ops| ensures CoversOperation(g, ops[i]) && RenumberedOperation(g, ops[i]) == renumbered[i] {
      RenumberedAgain(f, g, ops[i].inputs);
      RenumberedAgain(f, g, ops[i].outputs);
    }
  }
}
