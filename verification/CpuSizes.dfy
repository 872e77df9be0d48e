/** Sizes on the CPU: when every value has the size that its operand declares, every value
    fits the buffer that it is written to. */
module CpuSizes {
  import opened Models
  import opened Semantics
  import opened CpuMemories
  import opened CpuCalls

  type Sizes = Operand -> nat

  // ----- what a caller can check -----

  /** An operand that certainly has a value, if the inputs in `sure` have one. */
  predicate IsSure(m: Model, sure: set<nat>, x: nat) {
    x < |m.operands| &&
    match m.operands[x].lifetime
    case NoValue => false
    case SubgraphReference => false
    case SubgraphInput => x in sure
    case _ => true
  }

  function SizeAt(sizes: Sizes, m: Model, x: nat): nat {
    if x < |m.operands| then sizes(m.operands[x]) else 0
  }

  /** The inputs of a model that are passed operands which have a value. */
  function SureInputs(m: Model, sure: set<nat>, xs: seq<nat>, t: Model): set<nat> {
    set j | 0 <= j < |xs| && j < |t.inputIndexes| && IsSure(m, sure, xs[j]) :: t.inputIndexes[j]
  }

  /** Operands that share their values declare the same sizes. */
  ghost predicate SizesAgree(sizes: Sizes, m: Model, xs: seq<nat>, t: Model, ys: seq<nat>) {
    forall j :: 0 <= j < |xs| && j < |ys| ==> SizeAt(sizes, m, xs[j]) == SizeAt(sizes, t, ys[j])
  }

  ghost predicate SureSizesAgree(sizes: Sizes, m: Model, sure: set<nat>, xs: seq<nat>, t: Model) {
    forall j :: 0 <= j < |xs| && j < |t.inputIndexes| && IsSure(m, sure, xs[j]) ==> SizeAt(sizes, m, xs[j]) == SizeAt(sizes, t, t.inputIndexes[j])
  }

  ghost predicate AreSure(m: Model, sure: set<nat>, xs: seq<nat>) {
    forall x :: x in xs ==> IsSure(m, sure, x)
  }

  /** Values have the sizes that operands declare. */
  ghost predicate HaveSizes(sizes: Sizes, m: Model, xs: seq<nat>, values: seq<Bytes>) {
    |values| == |xs| && forall j :: 0 <= j < |xs| ==> |values[j]| == SizeAt(sizes, m, xs[j])
  }

  /** What operations compute on a device has the declared sizes, operands of a model that is
      referred to declare the sizes of the operands they stand for, conditions are not
      empty, and loops are passed no omitted operand. */
  ghost predicate Sizable(k: Kernels, sizes: Sizes, m: Model, sure: set<nat>)
    decreases m, 0
  {
    && (forall x: nat :: x < |m.operands| && IsConstant(m.operands[x].lifetime) ==> |m.operands[x].value| == sizes(m.operands[x]))
    && (forall i :: 0 <= i < |m.operations| ==> SizableOperation(k, sizes, m, sure, m.operations[i]))
  }

  ghost predicate SizableOperation(k: Kernels, sizes: Sizes, m: Model, sure: set<nat>, op: Operation)
    decreases op, 0
  {
    match op.placement
    case OnDevice(_) =>
      forall vals: seq<Bytes> ::
        k(op.opcode, vals).Some? && |k(op.opcode, vals).value| == |op.outputs| ==> HaveSizes(sizes, m, op.outputs, k(op.opcode, vals).value)
    case InterpretIf(t, e) =>
      |op.inputs| >= IF_FIRST_INPUT ==>
        && IsSure(m, sure, op.inputs[IF_CONDITION]) && SizeAt(sizes, m, op.inputs[IF_CONDITION]) > 0
        && SizableBranch(k, sizes, m, sure, op, t) && SizableBranch(k, sizes, m, sure, op, e)
    case InterpretWhile(c, b) =>
      |op.inputs| >= WHILE_FIRST_INPUT ==>
        && AreSure(m, sure, op.inputs[WHILE_FIRST_INPUT..])
        && Sizable(k, sizes, c, AsSet(c.inputIndexes)) && Sizable(k, sizes, b, AsSet(b.inputIndexes))
        && LoopSizesAgree(sizes, m, op, c, b)
  }

  ghost predicate SizableBranch(k: Kernels, sizes: Sizes, m: Model, sure: set<nat>, op: Operation, t: Model)
    requires |op.inputs| >= IF_FIRST_INPUT
    decreases t, 1
  {
    && Sizable(k, sizes, t, SureInputs(m, sure, op.inputs[IF_FIRST_INPUT..], t))
    && SureSizesAgree(sizes, m, sure, op.inputs[IF_FIRST_INPUT..], t)
    && SizesAgree(sizes, m, op.outputs, t, t.outputIndexes)
  }

  ghost predicate LoopSizesAgree(sizes: Sizes, m: Model, op: Operation, c: Model, b: Model)
    requires |op.inputs| >= WHILE_FIRST_INPUT
  {
    && SizesAgree(sizes, m, op.inputs[WHILE_FIRST_INPUT..], c, c.inputIndexes)
    && SizesAgree(sizes, c, c.inputIndexes, m, op.outputs)
    && BodySizesAgree(sizes, c, b)
  }

  ghost predicate BodySizesAgree(sizes: Sizes, c: Model, b: Model) {
    && SizesAgree(sizes, c, c.inputIndexes, b, b.inputIndexes)
    && SizesAgree(sizes, b, b.outputIndexes, c, c.inputIndexes)
    && (forall y :: y in c.outputIndexes ==> SizeAt(sizes, c, y) <= 1)
  }

  // ----- values -----

  /** Every known value that is not omitted has its declared size. */
  ghost predicate Sized(sizes: Sizes, m: Model, sure: set<nat>, env: Env) {
    forall x :: x in env && IsSure(m, sure, x) ==> |env[x]| == SizeAt(sizes, m, x)
  }

  /** The arguments that are not omitted have the sizes of the inputs. */
  ghost predicate ArgumentsSized(sizes: Sizes, t: Model, sure: set<nat>, args: seq<Bytes>) {
    |args| == |t.inputIndexes| &&
    forall j :: 0 <= j < |args| && t.inputIndexes[j] in sure ==> |args[j]| == SizeAt(sizes, t, t.inputIndexes[j])
  }

  lemma StartIsSized(k: Kernels, sizes: Sizes, t: Model, sure: set<nat>, args: seq<Bytes>)
    requires Sizable(k, sizes, t, sure) && ArgumentsSized(sizes, t, sure, args)
    requires ListsLifetime(t.inputIndexes, t.operands, SubgraphInput)
    ensures Sized(sizes, t, sure, Bind(Constants(t), t.inputIndexes, args))
  {
    StartKeys(t, args);
    var env := Bind(Constants(t), t.inputIndexes, args);
    hide Bind, Constants, SizableOperation;
    forall x | x in env && IsSure(t, sure, x) ensures |env[x]| == SizeAt(sizes, t, x) {
      assert x in KnownSet(t);
      if x in t.inputIndexes {
        var j :| 0 <= j < |args| && t.inputIndexes[j] == x;
        assert env[t.inputIndexes[j]] == args[j];
      }
    }
  }

  /** Values of the declared sizes keep the environment sized. */
  lemma BoundAreSized(sizes: Sizes, m: Model, sure: set<nat>, env: Env, xs: seq<nat>, values: seq<Bytes>)
    requires Sized(sizes, m, sure, env) && HaveSizes(sizes, m, xs, values) && Distinct(xs)
    ensures Sized(sizes, m, sure, Bind(env, xs, values))
  {
    var env' := Bind(env, xs, values);
    hide Bind;
    forall x | x in env' && IsSure(m, sure, x) ensures |env'[x]| == SizeAt(sizes, m, x) {
      if x in xs {
        var j :| 0 <= j < |xs| && xs[j] == x;
        assert env'[xs[j]] == values[j];
      }
    }
  }

  lemma GotAreSized(sizes: Sizes, m: Model, sure: set<nat>, env: Env, xs: seq<nat>)
    requires Sized(sizes, m, sure, env) && Knows(env, xs) && AreSure(m, sure, xs)
    ensures HaveSizes(sizes, m, xs, Get(env, xs))
  {
    forall j | 0 <= j < |xs| ensures |Get(env, xs)[j]| == SizeAt(sizes, m, xs[j]) {
      assert xs[j] in xs;
    }
  }

  // Outputs always have values.
  lemma OutputsAreSure(t: Model, sure: set<nat>)
    requires ListsLifetime(t.outputIndexes, t.operands, SubgraphOutput)
    ensures AreSure(t, sure, t.outputIndexes)
  {
  }

  // ----- buffers -----

  /** Buffers do not change their capacity, and the identity of a freed one is not given to
      another. */
  ghost predicate Stable(m0: Memory, n0: nat, m1: Memory, n1: nat) {
    n0 <= n1 && forall b :: b in m1 && b < n0 ==> b in m0 && m1[b].capacity == m0[b].capacity
  }

  lemma StableTwice(m0: Memory, n0: nat, m1: Memory, n1: nat, m2: Memory, n2: nat)
    requires Stable(m0, n0, m1, n1) && Stable(m1, n1, m2, n2)
    ensures Stable(m0, n0, m2, n2)
  {
  }

  ghost predicate HasRoom(p: Pointer, memory: Memory, next: nat, size: nat) {
    p.Heap? ==> p.id < next && (p.id in memory ==> memory[p.id].capacity >= size)
  }

  /** Every buffer of a temporary or an output has room for a value of the declared size. */
  ghost predicate Roomy(sizes: Sizes, m: Model, infos: seq<Info>, memory: Memory, next: nat) {
    |infos| == |m.operands| &&
    forall x: nat :: x < |infos| && IsOwn(infos[x].lifetime) ==> HasRoom(infos[x].pointer, memory, next, SizeAt(sizes, m, x))
  }

  ghost predicate RoomyPointers(sizes: Sizes, m: Model, xs: seq<nat>, pointers: seq<Pointer>, memory: Memory, next: nat) {
    |pointers| == |xs| && forall j :: 0 <= j < |xs| ==> HasRoom(pointers[j], memory, next, SizeAt(sizes, m, xs[j]))
  }

  lemma RoomyLater(sizes: Sizes, m: Model, infos: seq<Info>, m0: Memory, n0: nat, m1: Memory, n1: nat)
    requires Roomy(sizes, m, infos, m0, n0) && Stable(m0, n0, m1, n1)
    ensures Roomy(sizes, m, infos, m1, n1)
  {
  }

  lemma RoomyPointersLater(sizes: Sizes, m: Model, xs: seq<nat>, pointers: seq<Pointer>, m0: Memory, n0: nat, m1: Memory, n1: nat)
    requires RoomyPointers(sizes, m, xs, pointers, m0, n0) && Stable(m0, n0, m1, n1)
    ensures RoomyPointers(sizes, m, xs, pointers, m1, n1)
  {
  }

  /** One operand points to a buffer with room for it, or nowhere. */
  lemma OnePointerRoomy(sizes: Sizes, m: Model, infos: seq<Info>, memory: Memory, next: nat, x: nat, info: Info)
    requires Roomy(sizes, m, infos, memory, next) && x < |infos| && info.lifetime == infos[x].lifetime
    requires HasRoom(info.pointer, memory, next, SizeAt(sizes, m, x))
    ensures Roomy(sizes, m, infos[x := info], memory, next)
  {
  }

  /** Operands get pointers to buffers with room for them, or are not the executor's own. */
  lemma RepointedRoomy(sizes: Sizes, m: Model, infos0: seq<Info>, xs: seq<nat>, pointers: seq<Pointer>, infos: seq<Info>, memory: Memory, next: nat)
    requires Roomy(sizes, m, infos0, memory, next) && Repointed(infos0, xs, pointers, infos)
    requires forall j :: 0 <= j < |xs| ==> !(xs[j] < |infos0| && IsOwn(infos0[xs[j]].lifetime)) || HasRoom(pointers[j], memory, next, SizeAt(sizes, m, xs[j]))
    ensures Roomy(sizes, m, infos, memory, next)
  {
    hide HasRoom;
    forall x: nat | x < |infos| && IsOwn(infos[x].lifetime) ensures HasRoom(infos[x].pointer, memory, next, SizeAt(sizes, m, x)) {
      if x in xs { var j :| 0 <= j < |xs| && xs[j] == x; }
    }
  }

  // Buffers that a table points to.
  lemma PointersAreRoomy(sizes: Sizes, m: Model, infos: seq<Info>, xs: seq<nat>, memory: Memory, next: nat)
    requires Roomy(sizes, m, infos, memory, next) && forall j :: 0 <= j < |xs| ==> xs[j] < |infos| && IsOwn(infos[xs[j]].lifetime)
    ensures RoomyPointers(sizes, m, xs, PointersOf(infos, xs), memory, next)
  {
  }

  /** The same buffers have room for operands that declare the same sizes. */
  lemma RoomyForOthers(sizes: Sizes, m: Model, xs: seq<nat>, t: Model, ys: seq<nat>, pointers: seq<Pointer>, memory: Memory, next: nat)
    requires RoomyPointers(sizes, m, xs, pointers, memory, next) && SizesAgree(sizes, m, xs, t, ys) && |ys| == |xs|
    ensures RoomyPointers(sizes, t, ys, pointers, memory, next)
  {
    hide HasRoom, SizeAt;
  }

  lemma SizedForOthers(sizes: Sizes, m: Model, xs: seq<nat>, t: Model, ys: seq<nat>, values: seq<Bytes>)
    requires HaveSizes(sizes, m, xs, values) && SizesAgree(sizes, m, xs, t, ys) && |ys| <= |xs|
    ensures HaveSizes(sizes, t, ys, values[..|ys|])
  {
    hide SizeAt;
  }

  // Before a subgraph runs for the first time only its outputs can have buffers.
  lemma InitializedRoomy(sizes: Sizes, t: Model, infos: seq<Info>, memory: Memory, next: nat)
    requires |infos| == |t.operands| && forall x :: 0 <= x < |infos| ==> infos[x] == Initialized(t.operands[x])
    ensures Roomy(sizes, t, infos, memory, next)
  {
  }

  // A new buffer with room for an operand.
  lemma AllocatedRoomy(sizes: Sizes, m: Model, infos: seq<Info>, memory: Memory, next: nat, x: nat, capacity: nat)
    requires x < |infos|
    ensures var memory' := memory[next := Buffer([], capacity)];
            && Stable(memory, next, memory', next + 1)
            && (Roomy(sizes, m, infos, memory, next) && capacity >= SizeAt(sizes, m, x) ==>
                  Roomy(sizes, m, infos[x := infos[x].(pointer := Heap(next))], memory', next + 1))
  {
    var memory' := memory[next := Buffer([], capacity)];
    if Roomy(sizes, m, infos, memory, next) && capacity >= SizeAt(sizes, m, x) {
      RoomyLater(sizes, m, infos, memory, next, memory', next + 1);
      OnePointerRoomy(sizes, m, infos, memory', next + 1, x, infos[x].(pointer := Heap(next)));
    }
  }

  // Writing into a buffer.
  lemma StoredIsStable(memory: Memory, next: nat, p: Pointer, value: Bytes)
    requires p.Heap? && p.id in memory
    ensures Stable(memory, next, Stored(memory, p, value), next)
  {
  }

  lemma StoredStays(sizes: Sizes, m: Model, infos: seq<Info>, m0: Memory, n0: nat, memory: Memory, next: nat, p: Pointer, value: Bytes)
    requires p.Heap? && p.id in memory && Stable(m0, n0, memory, next)
    ensures Stored(memory, p, value) == memory[p.id := memory[p.id].(content := value)]
    ensures Stable(m0, n0, Stored(memory, p, value), next)
    ensures Roomy(sizes, m, infos, memory, next) ==> Roomy(sizes, m, infos, Stored(memory, p, value), next)
  {
    StoredIsStable(memory, next, p, value);
    StableTwice(m0, n0, memory, next, Stored(memory, p, value), next);
    if Roomy(sizes, m, infos, memory, next) { RoomyLater(sizes, m, infos, memory, next, Stored(memory, p, value), next); }
  }

  lemma RoomAt(sizes: Sizes, m: Model, infos: seq<Info>, memory: Memory, next: nat, x: nat)
    ensures Roomy(sizes, m, infos, memory, next) && x < |infos| && IsOwn(infos[x].lifetime) && infos[x].pointer.Heap? && infos[x].pointer.id in memory ==>
              memory[infos[x].pointer.id].capacity >= SizeAt(sizes, m, x)
  {
  }

  lemma NothingIsStable(memory: Memory, next: nat)
    ensures Stable(memory, next, memory, next)
  {
  }

  lemma SizeOfEach(sizes: Sizes, m: Model, xs: seq<nat>, values: seq<Bytes>)
    requires |values| == |xs|
    ensures HaveSizes(sizes, m, xs, values) ==> forall j :: 0 <= j < |xs| ==> |values[j]| == SizeAt(sizes, m, xs[j])
  {
  }

  lemma FreedIsStable(memory: Memory, next: nat, ids: set<nat>)
    ensures Stable(memory, next, memory - ids, next)
  {
  }

  lemma ConsumedRoomy(sizes: Sizes, m: Model, infos: seq<Info>, memory: Memory, next: nat, x: nat)
    requires x < |infos|
    ensures Stable(memory, next, AfterConsuming(memory, infos[x]), next)
    ensures Roomy(sizes, m, infos, memory, next) ==> Roomy(sizes, m, infos[x := Consumed(infos[x])], AfterConsuming(memory, infos[x]), next)
  {
  }

  // ----- a subgraph between two of its operations -----

  /** Everything has its size, and there is room for what comes. */
  ghost predicate Ready(k: Kernels, sizes: Sizes, m: Model, sure: set<nat>, infos: seq<Info>, memory: Memory, next: nat, env: Env) {
    Sizable(k, sizes, m, sure) && Sized(sizes, m, sure, env) && Roomy(sizes, m, infos, memory, next)
  }

  lemma KernelGivesSizes(k: Kernels, sizes: Sizes, m: Model, sure: set<nat>, infos: seq<Info>, memory: Memory, next: nat, env: Env, i: nat)
    requires Ready(k, sizes, m, sure, infos, memory, next, env) && i < |m.operations| && m.operations[i].placement.OnDevice?
    ensures Roomy(sizes, m, infos, memory, next)
    ensures var op := m.operations[i];
            forall vals: seq<Bytes> ::
              k(op.opcode, vals).Some? && |k(op.opcode, vals).value| == |op.outputs| ==> HaveSizes(sizes, m, op.outputs, k(op.opcode, vals).value)
  {
    assert SizableOperation(k, sizes, m, sure, m.operations[i]);
  }

  lemma StaysReady(k: Kernels, sizes: Sizes, m: Model, sure: set<nat>, infos0: seq<Info>, m0: Memory, n0: nat, env0: Env,
                   infos: seq<Info>, memory: Memory, next: nat, outputs: seq<nat>, values: seq<Bytes>)
    requires Ready(k, sizes, m, sure, infos0, m0, n0, env0) && Roomy(sizes, m, infos, memory, next)
    requires HaveSizes(sizes, m, outputs, values) && Distinct(outputs)
    ensures Ready(k, sizes, m, sure, infos, memory, next, Bind(env0, outputs, values))
  {
    hide Bind, HaveSizes, Sizable, Roomy, Sized;
    BoundAreSized(sizes, m, sure, env0, outputs, values);
  }

  lemma KernelFails(k: Kernels, fuel: nat, op: Operation, env: Env)
    requires op.placement.OnDevice? && Knows(env, op.inputs)
    requires var results := k(op.opcode, Get(env, op.inputs)); results.None? || |results.value| != |op.outputs|
    ensures RunOperation(k, fuel, op, env) == Failed
  {
  }

  // ----- calling a subgraph -----

  /** A subgraph that is passed sized arguments and buffers with room for its outputs. */
  ghost predicate ReadyCall(k: Kernels, sizes: Sizes, t: Model, sure: set<nat>, outs: seq<Pointer>, memory: Memory, next: nat, args: seq<Bytes>) {
    && Sizable(k, sizes, t, sure) && ArgumentsSized(sizes, t, sure, args)
    && RoomyPointers(sizes, t, t.outputIndexes, outs, memory, next)
  }

  lemma ModelIsDone(k: Kernels, fuel: nat, t: Model, args: seq<Bytes>)
    requires RunModel(k, fuel, t, args).Done?
    ensures |args| == |t.inputIndexes| && RunOperations(k, fuel, t.operations, Bind(Constants(t), t.inputIndexes, args)).Done?
  {
  }

  lemma EnteredIsReady(k: Kernels, sizes: Sizes, t: Model, sure: set<nat>, start: seq<Info>, half: seq<Info>, infos: seq<Info>,
                       ins: seq<Pointer>, outs: seq<Pointer>, memory: Memory, next: nat, args: seq<Bytes>)
    requires ListsLifetime(t.inputIndexes, t.operands, SubgraphInput) && ReadyCall(k, sizes, t, sure, outs, memory, next, args)
    requires |start| == |t.operands| && forall x :: 0 <= x < |start| ==> start[x] == Initialized(t.operands[x])
    requires Repointed(start, t.inputIndexes, ins, half) && Repointed(half, t.outputIndexes, outs, infos)
    ensures Ready(k, sizes, t, sure, infos, memory, next, Bind(Constants(t), t.inputIndexes, args))
  {
    StartIsSized(k, sizes, t, sure, args);
    InitializedRoomy(sizes, t, start, memory, next);
    forall j | 0 <= j < |t.inputIndexes| ensures t.inputIndexes[j] < |start| && !IsOwn(start[t.inputIndexes[j]].lifetime) {
      assert t.inputIndexes[j] in t.inputIndexes;
    }
    hide Bind, Constants, Repointed, HasRoom, Sizable, Sized, ArgumentsSized, Roomy;
    RepointedRoomy(sizes, t, start, t.inputIndexes, ins, half, memory, next);
    RepointedRoomy(sizes, t, half, t.outputIndexes, outs, infos, memory, next);
  }

  lemma ReadyReturns(k: Kernels, sizes: Sizes, t: Model, sure: set<nat>, infos: seq<Info>, memory: Memory, next: nat, env: Env)
    requires ListsLifetime(t.outputIndexes, t.operands, SubgraphOutput) && Fits(t, infos) && Knows(env, t.outputIndexes)
    requires Ready(k, sizes, t, sure, infos, memory, next, env)
    ensures HaveSizes(sizes, t, t.outputIndexes, Get(env, t.outputIndexes))
    ensures forall j :: 0 <= j < |t.outputIndexes| ==> t.outputIndexes[j] < |infos|
    ensures RoomyPointers(sizes, t, t.outputIndexes, PointersOf(infos, t.outputIndexes), memory, next)
  {
    OutputsAreSure(t, sure);
    GotAreSized(sizes, t, sure, env, t.outputIndexes);
    forall j | 0 <= j < |t.outputIndexes| ensures t.outputIndexes[j] < |infos| && IsOwn(infos[t.outputIndexes[j]].lifetime) {
      assert t.outputIndexes[j] in t.outputIndexes;
    }
    hide HasRoom, Sizable, Sized, HaveSizes, ListsLifetime;
    PointersAreRoomy(sizes, t, infos, t.outputIndexes, memory, next);
  }

  // Sweeping the temporaries leaves room in the outputs.
  lemma SweptIsRoomy(sizes: Sizes, t: Model, i1: seq<Info>, m1: Memory, n1: nat, i2: seq<Info>, ids: set<nat>)
    requires forall j :: 0 <= j < |t.outputIndexes| ==> t.outputIndexes[j] < |i1|
    requires RoomyPointers(sizes, t, t.outputIndexes, PointersOf(i1, t.outputIndexes), m1, n1) && AllSwept(i1, i2)
    ensures forall j :: 0 <= j < |t.outputIndexes| ==> t.outputIndexes[j] < |i2|
    ensures RoomyPointers(sizes, t, t.outputIndexes, PointersOf(i2, t.outputIndexes), m1 - ids, n1)
  {
    hide SizeAt;
  }

  // ----- IF -----

  lemma IfGoesOn(k: Kernels, fuel: nat, op: Operation, env: Env)
    requires op.placement.InterpretIf? && Knows(env, op.inputs) && |op.inputs| >= IF_FIRST_INPUT
    ensures var t := if IsTrue(env[op.inputs[IF_CONDITION]]) then op.placement.thenModel else op.placement.elseModel;
            RunOperation(k, fuel, op, env).Done? ==> RunModel(k, fuel, t, Get(env, op.inputs)[IF_FIRST_INPUT..]).Done?
  {
    hide RunModel;
    assert RunOperation(k, fuel, op, env).Done? ==> Compute(k, fuel, op, Get(env, op.inputs)).Done?;
  }

  /** The condition of an IF is not empty, and either branch can be called. */
  lemma BranchIsReady(k: Kernels, sizes: Sizes, m: Model, sure: set<nat>, infos: seq<Info>, memory: Memory, next: nat, env: Env, i: nat, t: Model)
    requires Ready(k, sizes, m, sure, infos, memory, next, env) && i < |m.operations| && m.operations[i].placement.InterpretIf?
    requires t == m.operations[i].placement.thenModel || t == m.operations[i].placement.elseModel
    requires Knows(env, m.operations[i].inputs) && |m.operations[i].inputs| - IF_FIRST_INPUT == |t.inputIndexes| && Distinct(t.inputIndexes)
    requires |t.outputIndexes| == |m.operations[i].outputs|
    requires forall j :: 0 <= j < |m.operations[i].outputs| ==> m.operations[i].outputs[j] < |infos| && IsOwn(infos[m.operations[i].outputs[j]].lifetime)
    ensures var op := m.operations[i];
            && |op.inputs| >= IF_FIRST_INPUT && op.inputs[IF_CONDITION] in op.inputs && env[op.inputs[IF_CONDITION]] != []
            && SizesAgree(sizes, t, t.outputIndexes, m, op.outputs)
            && ReadyCall(k, sizes, t, SureInputs(m, sure, op.inputs[IF_FIRST_INPUT..], t), PointersOf(infos, op.outputs), memory, next,
                         Get(env, op.inputs)[IF_FIRST_INPUT..])
  {
    var op := m.operations[i];
    assert SizableOperation(k, sizes, m, sure, op);
    assert op.inputs[IF_CONDITION] in op.inputs;
    assert SizableBranch(k, sizes, m, sure, op, t);
    BranchArguments(sizes, m, sure, op, env, t);
    hide Sizable, SizableOperation, Sized, HasRoom, SizeAt;
    PointersAreRoomy(sizes, m, infos, op.outputs, memory, next);
    RoomyForOthers(sizes, m, op.outputs, t, t.outputIndexes, PointersOf(infos, op.outputs), memory, next);
  }

  lemma BranchArguments(sizes: Sizes, m: Model, sure: set<nat>, op: Operation, env: Env, t: Model)
    requires Sized(sizes, m, sure, env) && Knows(env, op.inputs) && |op.inputs| - IF_FIRST_INPUT == |t.inputIndexes| && Distinct(t.inputIndexes)
    requires SureSizesAgree(sizes, m, sure, op.inputs[IF_FIRST_INPUT..], t)
    ensures ArgumentsSized(sizes, t, SureInputs(m, sure, op.inputs[IF_FIRST_INPUT..], t), Get(env, op.inputs)[IF_FIRST_INPUT..])
  {
    var xs, args := op.inputs[IF_FIRST_INPUT..], Get(env, op.inputs)[IF_FIRST_INPUT..];
    var inside := SureInputs(m, sure, xs, t);
    forall j | 0 <= j < |args| && t.inputIndexes[j] in inside ensures |args[j]| == SizeAt(sizes, t, t.inputIndexes[j]) {
      var l :| 0 <= l < |xs| && l < |t.inputIndexes| && IsSure(m, sure, xs[l]) && t.inputIndexes[l] == t.inputIndexes[j];
      assert l == j;
      assert xs[j] == op.inputs[IF_FIRST_INPUT + j] && xs[j] in op.inputs && args[j] == env[xs[j]];
    }
  }

  /** The caller goes on with the outputs of the branch. */
  lemma ReturnsReady(k: Kernels, sizes: Sizes, m: Model, sure: set<nat>, infos0: seq<Info>, m0: Memory, n0: nat, env: Env, outputs: seq<nat>,
                     t: Model, pointers: seq<Pointer>, infos: seq<Info>, memory: Memory, next: nat, results: seq<Bytes>)
    requires Ready(k, sizes, m, sure, infos0, m0, n0, env) && Stable(m0, n0, memory, next) && Repointed(infos0, outputs, pointers, infos)
    requires RoomyPointers(sizes, t, t.outputIndexes, pointers, memory, next) && HaveSizes(sizes, t, t.outputIndexes, results)
    requires SizesAgree(sizes, t, t.outputIndexes, m, outputs) && |outputs| == |t.outputIndexes| && Distinct(outputs)
    ensures Ready(k, sizes, m, sure, infos, memory, next, Bind(env, outputs, results))
  {
    RoomyLater(sizes, m, infos0, m0, n0, memory, next);
    RoomyForOthers(sizes, t, t.outputIndexes, m, outputs, pointers, memory, next);
    SizedForOthers(sizes, t, t.outputIndexes, m, outputs, results);
    assert results[..|outputs|] == results;
    hide Bind, Repointed, Sizable, HasRoom, Roomy, Sized, SizesAgree, HaveSizes;
    RepointedRoomy(sizes, m, infos0, outputs, pointers, infos, memory, next);
    StaysReady(k, sizes, m, sure, infos0, m0, n0, env, infos, memory, next, outputs, results);
  }

  lemma ReadyIsRoomy(k: Kernels, sizes: Sizes, m: Model, sure: set<nat>, infos: seq<Info>, memory: Memory, next: nat, env: Env)
    requires Ready(k, sizes, m, sure, infos, memory, next, env)
    ensures Roomy(sizes, m, infos, memory, next)
  {
  }

  lemma ReadyInRoom(k: Kernels, sizes: Sizes, m: Model, sure: set<nat>, infos0: seq<Info>, m0: Memory, n0: nat, env: Env,
                    infos: seq<Info>, memory: Memory, next: nat)
    requires Ready(k, sizes, m, sure, infos0, m0, n0, env)
    requires Roomy(sizes, m, infos0, m0, n0) ==> Roomy(sizes, m, infos, memory, next)
    ensures Ready(k, sizes, m, sure, infos, memory, next, env)
  {
    hide Roomy, Sizable, Sized;
  }

  // ----- WHILE -----

  /** A part of a loop that is passed a sized state. */
  ghost predicate ReadyPart(k: Kernels, sizes: Sizes, t: Model, infos: seq<Info>, memory: Memory, next: nat, state: seq<Bytes>) {
    && Sizable(k, sizes, t, AsSet(t.inputIndexes)) && HaveSizes(sizes, t, t.inputIndexes, state)
    && Roomy(sizes, t, infos, memory, next)
  }

  lemma PartIsReady(k: Kernels, sizes: Sizes, t: Model, infos: seq<Info>, memory: Memory, next: nat, state: seq<Bytes>)
    requires ReadyPart(k, sizes, t, infos, memory, next, state) && ListsLifetime(t.inputIndexes, t.operands, SubgraphInput)
    ensures Ready(k, sizes, t, AsSet(t.inputIndexes), infos, memory, next, Bind(Constants(t), t.inputIndexes, state))
  {
    assert ArgumentsSized(sizes, t, AsSet(t.inputIndexes), state);
    hide Sizable, HaveSizes, Roomy, Sized, ArgumentsSized, Bind, Constants, ListsLifetime;
    StartIsSized(k, sizes, t, AsSet(t.inputIndexes), state);
  }

  /** A loop with a sized state and room in all its buffers. */
  ghost predicate ReadyLoop(k: Kernels, sizes: Sizes, c: Model, b: Model, cond: seq<Info>, body: seq<Info>, current: seq<Pointer>, previous: seq<Pointer>,
                            memory: Memory, next: nat, state: seq<Bytes>) {
    && Sizable(k, sizes, c, AsSet(c.inputIndexes)) && Sizable(k, sizes, b, AsSet(b.inputIndexes)) && BodySizesAgree(sizes, c, b)
    && HaveSizes(sizes, c, c.inputIndexes, state)
    && Roomy(sizes, c, cond, memory, next) && Roomy(sizes, b, body, memory, next)
    && RoomyPointers(sizes, b, b.outputIndexes, current, memory, next) && RoomyPointers(sizes, b, b.outputIndexes, previous, memory, next)
  }

  lemma WhileGoesOn(k: Kernels, fuel: nat, op: Operation, env: Env)
    requires op.placement.InterpretWhile? && Knows(env, op.inputs) && |op.inputs| >= WHILE_FIRST_INPUT
    ensures RunOperation(k, fuel, op, env).Done? ==> Iterate(k, fuel, fuel, op, Get(env, op.inputs)[WHILE_FIRST_INPUT..]).Done?
  {
    hide Iterate;
    assert RunOperation(k, fuel, op, env).Done? ==> Compute(k, fuel, op, Get(env, op.inputs)).Done?;
  }

  lemma IterationIsDone(k: Kernels, n: nat, fuel: nat, op: Operation, state: seq<Bytes>)
    requires op.placement.InterpretWhile?
    ensures Iterate(k, n, fuel, op, state).Done? ==> n > 0 && RunModel(k, fuel, op.placement.condModel, state).Done?
    ensures forall value ::
              Iterate(k, n, fuel, op, state).Done? && RunModel(k, fuel, op.placement.condModel, state) == Done([value]) && IsTrue(value) ==>
                RunModel(k, fuel, op.placement.bodyModel, state).Done?
  {
    hide RunModel, IsTrue;
  }

  lemma LoopIsReady(k: Kernels, sizes: Sizes, m: Model, sure: set<nat>, infos: seq<Info>, memory: Memory, next: nat, env: Env, i: nat)
    requires Ready(k, sizes, m, sure, infos, memory, next, env) && i < |m.operations| && m.operations[i].placement.InterpretWhile?
    requires Knows(env, m.operations[i].inputs) && |m.operations[i].inputs| >= WHILE_FIRST_INPUT
    requires |m.operations[i].placement.condModel.inputIndexes| == |m.operations[i].inputs| - WHILE_FIRST_INPUT
    ensures var op := m.operations[i];
            var c, b := op.placement.condModel, op.placement.bodyModel;
            && Sizable(k, sizes, c, AsSet(c.inputIndexes)) && Sizable(k, sizes, b, AsSet(b.inputIndexes)) && BodySizesAgree(sizes, c, b)
            && HaveSizes(sizes, c, c.inputIndexes, Get(env, op.inputs)[WHILE_FIRST_INPUT..])
            && SizesAgree(sizes, c, c.inputIndexes, m, op.outputs)
  {
    var op := m.operations[i];
    var c := op.placement.condModel;
    assert SizableOperation(k, sizes, m, sure, op);
    var xs, args := op.inputs[WHILE_FIRST_INPUT..], Get(env, op.inputs)[WHILE_FIRST_INPUT..];
    hide Sizable, SizableOperation, Roomy, IsSure, SizeAt, BodySizesAgree;
    forall j | 0 <= j < |args| ensures |args[j]| == SizeAt(sizes, m, xs[j]) {
      assert xs[j] == op.inputs[WHILE_FIRST_INPUT + j] && xs[j] in op.inputs && xs[j] in xs && args[j] == env[xs[j]];
    }
    SizedForOthers(sizes, m, xs, c, c.inputIndexes, args);
    assert args[..|c.inputIndexes|] == args;
  }

  /** At the start the loop has one buffer, for the condition. */
  lemma LoopStartsRoomy(sizes: Sizes, c: Model, b: Model, cond0: seq<Info>, cond1: seq<Info>, body: seq<Info>, pointers: seq<Pointer>, none: seq<Pointer>,
                        memory: Memory, next: nat)
    requires |cond0| == |c.operands| && forall x :: 0 <= x < |cond0| ==> cond0[x] == Initialized(c.operands[x])
    requires |body| == |b.operands| && forall x :: 0 <= x < |body| ==> body[x] == Initialized(b.operands[x])
    requires Repointed(cond0, c.inputIndexes, pointers, cond1) && ListsLifetime(c.inputIndexes, c.operands, SubgraphInput)
    requires |c.outputIndexes| == 1 && c.outputIndexes[0] < |cond1| && SizeAt(sizes, c, c.outputIndexes[0]) <= 1
    requires |none| == |b.outputIndexes| && forall j :: 0 <= j < |none| ==> none[j] == Null
    ensures var x, memory' := c.outputIndexes[0], memory[next := Buffer([], 1)];
            && Roomy(sizes, c, cond1[x := cond1[x].(pointer := Heap(next))], memory', next + 1) && Roomy(sizes, b, body, memory', next + 1)
            && RoomyPointers(sizes, b, b.outputIndexes, none, memory', next + 1)
  {
    InitializedRoomy(sizes, c, cond0, memory, next);
    InitializedRoomy(sizes, b, body, memory, next);
    forall j | 0 <= j < |c.inputIndexes| ensures c.inputIndexes[j] < |cond0| && !IsOwn(cond0[c.inputIndexes[j]].lifetime) {
      assert c.inputIndexes[j] in c.inputIndexes;
    }
    hide Initialized, Repointed, Roomy, SizeAt;
    RepointedRoomy(sizes, c, cond0, c.inputIndexes, pointers, cond1, memory, next);
    AllocatedRoomy(sizes, c, cond1, memory, next, c.outputIndexes[0], 1);
    RoomyLater(sizes, b, body, memory, next, memory[next := Buffer([], 1)], next + 1);
  }

  lemma ReadyLoopLater(k: Kernels, sizes: Sizes, c: Model, b: Model, cond0: seq<Info>, cond: seq<Info>, body: seq<Info>, current: seq<Pointer>, previous: seq<Pointer>,
                       m0: Memory, n0: nat, m1: Memory, n1: nat, state: seq<Bytes>)
    requires ReadyLoop(k, sizes, c, b, cond0, body, current, previous, m0, n0, state) && Stable(m0, n0, m1, n1)
    requires Roomy(sizes, c, cond, m1, n1)
    ensures ReadyLoop(k, sizes, c, b, cond, body, current, previous, m1, n1, state)
  {
    hide Sizable, HaveSizes, BodySizesAgree, Roomy, RoomyPointers, Stable;
    RoomyLater(sizes, b, body, m0, n0, m1, n1);
    RoomyPointersLater(sizes, b, b.outputIndexes, current, m0, n0, m1, n1);
    RoomyPointersLater(sizes, b, b.outputIndexes, previous, m0, n0, m1, n1);
  }

  // The inputs of the condition are not its own operands.
  lemma InputsRepointed(sizes: Sizes, t: Model, infos0: seq<Info>, xs: seq<nat>, pointers: seq<Pointer>, infos: seq<Info>, memory: Memory, next: nat)
    requires Roomy(sizes, t, infos0, memory, next) && Repointed(infos0, xs, pointers, infos)
    requires Fits(t, infos0) && ListsLifetime(t.inputIndexes, t.operands, SubgraphInput) && forall j :: 0 <= j < |xs| ==> xs[j] in t.inputIndexes
    ensures Roomy(sizes, t, infos, memory, next)
  {
    forall j | 0 <= j < |xs| ensures xs[j] < |infos0| ==> !IsOwn(infos0[xs[j]].lifetime) {
    }
    hide Roomy, Repointed, ListsLifetime, HasRoom;
    RepointedRoomy(sizes, t, infos0, xs, pointers, infos, memory, next);
  }

  /** The body runs with its outputs in buffers of the right size, or in new ones. */
  lemma BodyIsReadyToRun(k: Kernels, sizes: Sizes, c: Model, b: Model, cond: seq<Info>, body0: seq<Info>, half: seq<Info>, body: seq<Info>,
                         current0: seq<Pointer>, current: seq<Pointer>, previous: seq<Pointer>, pointers: seq<Pointer>,
                         m0: Memory, n0: nat, ids: set<nat>, state: seq<Bytes>)
    requires ReadyLoop(k, sizes, c, b, cond, body0, current0, previous, m0, n0, state) && |b.inputIndexes| == |c.inputIndexes|
    requires Fits(b, body0) && ListsLifetime(b.inputIndexes, b.operands, SubgraphInput)
    requires Repointed(body0, b.inputIndexes, pointers, half) && Repointed(half, b.outputIndexes, current, body)
    requires |current| == |current0| && forall j :: 0 <= j < |current| ==> current[j] == current0[j] || current[j] == Null
    ensures ReadyPart(k, sizes, b, body, m0 - ids, n0, state)
  {
    var m1 := m0 - ids;
    FreedIsStable(m0, n0, ids);
    RoomyLater(sizes, b, body0, m0, n0, m1, n0);
    RoomyPointersLater(sizes, b, b.outputIndexes, current0, m0, n0, m1, n0);
    assert RoomyPointers(sizes, b, b.outputIndexes, current, m1, n0) by {
      hide SizeAt;
      assert forall j :: 0 <= j < |current0| ==> HasRoom(current0[j], m1, n0, SizeAt(sizes, b, b.outputIndexes[j]));
      assert forall size :: HasRoom(Null, m1, n0, size);
    }
    SizedForOthers(sizes, c, c.inputIndexes, b, b.inputIndexes, state);
    assert state[..|b.inputIndexes|] == state;
    hide Roomy, Repointed, Sizable, HasRoom, HaveSizes, SizesAgree, Stable;
    InputsRepointed(sizes, b, body0, b.inputIndexes, pointers, half, m1, n0);
    RepointedRoomy(sizes, b, half, b.outputIndexes, current, body, m1, n0);
  }

  /** The two sets of buffers change places, and the state is again sized. */
  lemma ReadyForNext(k: Kernels, sizes: Sizes, c: Model, b: Model, cond: seq<Info>, body0: seq<Info>, body: seq<Info>,
                     current0: seq<Pointer>, current: seq<Pointer>, previous: seq<Pointer>,
                     m0: Memory, n0: nat, m1: Memory, n1: nat, state: seq<Bytes>, results: seq<Bytes>)
    requires ReadyLoop(k, sizes, c, b, cond, body0, current0, previous, m0, n0, state) && Stable(m0, n0, m1, n1)
    requires Roomy(sizes, b, body, m1, n1) && RoomyPointers(sizes, b, b.outputIndexes, current, m1, n1)
    requires HaveSizes(sizes, b, b.outputIndexes, results) && |results| <= |state|
    ensures ReadyLoop(k, sizes, c, b, cond, body, previous, current, m1, n1, results + state[|results|..])
  {
    RoomyLater(sizes, c, cond, m0, n0, m1, n1);
    RoomyPointersLater(sizes, b, b.outputIndexes, previous, m0, n0, m1, n1);
    hide Roomy, RoomyPointers, Sizable, Stable, SizeAt;
    assert HaveSizes(sizes, c, c.inputIndexes, results + state[|results|..]);
  }

  /** Leaving the loop, the front of the state fits the outputs. */
  lemma StateFits(k: Kernels, sizes: Sizes, m: Model, sure: set<nat>, infos: seq<Info>, m0: Memory, n0: nat, env: Env, outputs: seq<nat>,
                  c: Model, state: seq<Bytes>, memory: Memory, next: nat)
    requires Ready(k, sizes, m, sure, infos, m0, n0, env) && Stable(m0, n0, memory, next)
    requires HaveSizes(sizes, c, c.inputIndexes, state) && SizesAgree(sizes, c, c.inputIndexes, m, outputs) && |outputs| <= |c.inputIndexes|
    ensures Roomy(sizes, m, infos, memory, next) && HaveSizes(sizes, m, outputs, state[..|outputs|])
  {
    RoomyLater(sizes, m, infos, m0, n0, memory, next);
    SizedForOthers(sizes, c, c.inputIndexes, m, outputs, state);
  }

  // ----- what operations mean, one at a time -----

  lemma KernelRuns(k: Kernels, fuel: nat, op: Operation, env: Env)
    requires op.placement.OnDevice? && Knows(env, op.inputs)
    requires var results := k(op.opcode, Get(env, op.inputs)); results.Some? && |results.value| == |op.outputs|
    ensures RunOperation(k, fuel, op, env) == Done(Bind(env, op.outputs, k(op.opcode, Get(env, op.inputs)).value))
  {
    hide Bind;
  }

  lemma FirstRuns(k: Kernels, fuel: nat, ops: seq<Operation>, env: Env)
    requires ops != []
    ensures RunOperations(k, fuel, ops, env).Done? ==> RunOperation(k, fuel, ops[0], env).Done?
    ensures RunOperation(k, fuel, ops[0], env).Done? ==>
              RunOperations(k, fuel, ops, env) == RunOperations(k, fuel, ops[1..], RunOperation(k, fuel, ops[0], env).value)
  {
    hide RunOperation;
  }

  lemma NothingRuns(k: Kernels, fuel: nat, env: Env)
    ensures RunOperations(k, fuel, [], env) == Done(env)
  {
  }

  lemma FirstInputs()
    ensures IF_CONDITION == 0 && IF_FIRST_INPUT == 3 && WHILE_FIRST_INPUT == 2
  {
  }

  lemma IfRuns(k: Kernels, fuel: nat, op: Operation, env: Env, results: seq<Bytes>)
    requires op.placement.InterpretIf? && Knows(env, op.inputs) && |op.inputs| >= IF_FIRST_INPUT
    requires var t := if IsTrue(env[op.inputs[IF_CONDITION]]) then op.placement.thenModel else op.placement.elseModel;
             RunModel(k, fuel, t, Get(env, op.inputs)[IF_FIRST_INPUT..]) == Done(results)
    requires |results| == |op.outputs|
    ensures RunOperation(k, fuel, op, env) == Done(Bind(env, op.outputs, results))
  {
    hide RunModel, Bind;
  }

  lemma WhileRuns(k: Kernels, fuel: nat, op: Operation, env: Env, results: seq<Bytes>)
    requires op.placement.InterpretWhile? && Knows(env, op.inputs) && |op.inputs| >= WHILE_FIRST_INPUT
    requires Iterate(k, fuel, fuel, op, Get(env, op.inputs)[WHILE_FIRST_INPUT..]) == Done(results) && |results| == |op.outputs|
    ensures RunOperation(k, fuel, op, env) == Done(Bind(env, op.outputs, results))
  {
    hide Iterate, Bind;
  }

  lemma NullIsEmpty(memory: Memory)
    ensures Contents(Null, memory) == []
  {
  }

  lemma StillKnown(env: Env, outputs: seq<nat>, values: seq<Bytes>, xs: seq<nat>)
    requires |outputs| == |values| && Knows(env, xs)
    ensures Knows(Bind(env, outputs, values), xs)
  {
  }

  lemma FirstByte(v: Bytes)
    ensures IsTrue(v) <==> v != [] && v[0] != 0
  {
  }

  lemma BoundIsGot(env: Env, outputs: seq<nat>, values: seq<Bytes>)
    requires |outputs| == |values| && Distinct(outputs)
    ensures Knows(Bind(env, outputs, values), outputs) && Get(Bind(env, outputs, values), outputs) == values
  {
    hide Bind;
  }
}
