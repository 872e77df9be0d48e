/** The CPU executor: runs a model directly, with buffers that it allocates and frees. */
module CpuExecutors {
  import opened Models
  import opened Semantics
  import opened Graphs
  import opened CpuMemories
  import opened CpuCalls
  import opened CpuLoops
  import opened CpuSizes

  class CpuExecutor {
    // Whether the size of an operand is not known before it is computed.
    const hasUnknownSize: Operand -> bool
    // The size that an operand declares. It matters only for when a run succeeds.
    ghost const sizes: Sizes
    var memory: Memory
    var next: nat

    constructor (hasUnknownSize: Operand -> bool, ghost sizes: Sizes)
      ensures memory == map[] && next == 0 && this.hasUnknownSize == hasUnknownSize && this.sizes == sizes
    {
      this.hasUnknownSize, this.sizes := hasUnknownSize, sizes;
      memory, next := map[], 0;
    }

    // ----- buffers -----

    method Allocate(capacity: nat) returns (b: nat)
      modifies this
      ensures b == old(next) && next == old(next) + 1 && memory == old(memory)[b := Buffer([], capacity)]
    {
      b := next;
      memory := memory[b := Buffer([], capacity)];
      next := next + 1;
    }

    // A buffer is freed only if it is allocated.
    method Free(b: nat)
      requires b in memory
      modifies this`memory
      ensures memory == old(memory) - {b}
    {
      memory := memory - {b};
    }

    // A buffer is read only if it is allocated.
    method Read(p: Pointer) returns (value: Bytes)
      requires IsLive(p, memory)
      ensures value == Contents(p, memory)
    {
      match p {
        case Null => value := [];
        case Static(v) => value := v;
        case Heap(b) => value := memory[b].content;
      }
    }

    // ----- one operation -----

    method ReadInputs(ghost m: Model, infos: seq<Info>, ghost env: Env, op: Operation, ghost rest: seq<Operation>, ghost again: bool) returns (vals: seq<Bytes>)
      requires Running(m, infos, memory, next, env, [op] + rest, again) && Knows(env, op.inputs)
      ensures vals == Get(env, op.inputs)
    {
      hide Running, Contents;
      vals := [];
      for j := 0 to |op.inputs|
        invariant |vals| == j && forall l :: 0 <= l < j ==> vals[l] == env[op.inputs[l]]
      {
        assert op.inputs[j] in op.inputs;
        InputIsHeld(m, infos, memory, next, env, op, rest, again, op.inputs[j]);
        var value := Read(infos[op.inputs[j]].pointer);
        vals := vals + [value];
      }
    }

    // Puts a value into an operand, with a new buffer if it has none. Fails exactly if the
    // value does not fit into the buffer.
    method WriteOutput(ghost m: Model, infos0: seq<Info>, ghost env: Env, ghost rem: seq<Operation>, ghost again: bool, x: nat, value: Bytes)
      returns (ok: bool, infos: seq<Info>)
      requires Running(m, infos0, memory, next, env, rem, again)
      requires x < |infos0| && IsOwn(infos0[x].lifetime) && x !in env
      modifies this
      ensures ok ==> Running(m, infos, memory, next, env[x := value], rem, again)
      ensures ok ==> Framed(infos0, old(memory), old(next), infos, memory, next)
      ensures ok ==> |infos| == |infos0| && forall y :: 0 <= y < |infos| && y != x ==> infos[y] == infos0[y]
      ensures !ok <==> infos0[x].pointer.Heap? && infos0[x].pointer.id in old(memory) && |value| > old(memory)[infos0[x].pointer.id].capacity
      ensures Stable(old(memory), old(next), memory, next)
      ensures Roomy(sizes, m, infos0, old(memory), old(next)) && |value| == SizeAt(sizes, m, x) ==> ok && Roomy(sizes, m, infos, memory, next)
    {
      hide *;
      OwnIsHeapOrNull(m, infos0, memory, next, env, rem, again, x);
      RoomAt(sizes, m, infos0, memory, next, x);
      infos := infos0;
      ghost var mem, n := memory, next;
      NothingIsStable(memory, next);
      if infos[x].pointer == Null {
        if |value| == 0 {
          EmptyKeeps(m, infos, memory, next, env, rem, again, x);
          NothingFramed(infos, memory, next);
          return true, infos;
        }
        AllocateKeeps(m, infos, memory, next, env, rem, again, x, |value|);
        AllocatedRoomy(sizes, m, infos, memory, next, x, |value|);
        var b := Allocate(|value|);
        infos := infos[x := infos[x].(pointer := Heap(b))];
      } else {
        NothingFramed(infos, memory, next);
      }
      var b := infos[x].pointer.id;
      WriteKeeps(m, infos, memory, next, env, rem, again, x, value);
      if |value| > memory[b].capacity { return false, infos; }
      Composed(infos0, old(memory), old(next), infos, memory, next, infos, Stored(memory, infos[x].pointer, value), next, m, env, rem, again);
      StoredStays(sizes, m, infos, mem, n, memory, next, infos[x].pointer, value);
      memory := memory[b := memory[b].(content := value)];
      ok := true;
    }

    lemma OwnIsHeapOrNull(m: Model, infos: seq<Info>, mem: Memory, n: nat, env: Env, rem: seq<Operation>, again: bool, x: nat)
      requires Running(m, infos, mem, n, env, rem, again) && x < |infos| && IsOwn(infos[x].lifetime)
      ensures !infos[x].pointer.Static? && IsLive(infos[x].pointer, mem)
    {
    }

    method WriteOutputs(ghost m: Model, infos0: seq<Info>, ghost env: Env, ghost rem: seq<Operation>, ghost again: bool, outputs: seq<nat>, values: seq<Bytes>)
      returns (ok: bool, infos: seq<Info>)
      requires Running(m, infos0, memory, next, env, rem, again) && |values| == |outputs| && Distinct(outputs)
      requires forall x :: x in outputs ==> x < |infos0| && IsOwn(infos0[x].lifetime) && x !in env
      modifies this
      ensures ok ==> Running(m, infos, memory, next, Bind(env, outputs, values), rem, again)
      ensures ok ==> Framed(infos0, old(memory), old(next), infos, memory, next)
      ensures Stable(old(memory), old(next), memory, next)
      ensures Roomy(sizes, m, infos0, old(memory), old(next)) && HaveSizes(sizes, m, outputs, values) ==> ok && Roomy(sizes, m, infos, memory, next)
    {
      hide *;
      ghost var fit := Roomy(sizes, m, infos0, memory, next) && HaveSizes(sizes, m, outputs, values);
      SizeOfEach(sizes, m, outputs, values);
      NothingIsStable(memory, next);
      infos := infos0;
      NothingWritten(m, infos0, memory, next, env, outputs, values, rem, again);
      for j := 0 to |outputs|
        invariant Partway(m, infos0, old(memory), old(next), infos, memory, next, env, outputs, values, j, rem, again)
        invariant Stable(old(memory), old(next), memory, next) && (fit ==> Roomy(sizes, m, infos, memory, next))
      {
        NextIsUnwritten(m, infos0, old(memory), old(next), infos, memory, next, env, outputs, values, j, rem, again);
        ghost var i1, m1, n1 := infos, memory, next;
        ok, infos := WriteOutput(m, infos, Bind(env, outputs[..j], values[..j]), rem, again, outputs[j], values[j]);
        StableTwice(old(memory), old(next), m1, n1, memory, next);
        if !ok { return; }
        OneMoreWritten(m, infos0, old(memory), old(next), i1, m1, n1, infos, memory, next, env, outputs, values, j, rem, again);
      }
      AllAreWritten(m, infos0, old(memory), old(next), infos, memory, next, env, outputs, values, rem, again);
      ok := true;
    }

    // Counts the uses of the inputs, and frees temporaries at their last use.
    method ConsumeOperationInputs(ghost m: Model, infos0: seq<Info>, ghost env: Env, op: Operation, ghost rest: seq<Operation>, ghost again: bool)
      returns (infos: seq<Info>)
      requires Running(m, infos0, memory, next, env, [op] + rest, again) && Knows(env, op.inputs)
      modifies this`memory
      ensures Running(m, infos, memory, next, env, rest, again)
      ensures Framed(infos0, old(memory), next, infos, memory, next)
      ensures Stable(old(memory), next, memory, next) && (Roomy(sizes, m, infos0, old(memory), next) ==> Roomy(sizes, m, infos, memory, next))
    {
      hide Running, Framed, Stable, Roomy, Left, Tidy, Holding, Counting, OwnIds, Contents, Fits, FreedAtLastUse;
      NothingIsStable(memory, next);
      infos := infos0;
      NothingFramed(infos, memory, next);
      assert Consuming(op, 0) == op by { assert op.inputs[0..] == op.inputs; }
      for j := 0 to |op.inputs|
        invariant Running(m, infos, memory, next, env, [Consuming(op, j)] + rest, again)
        invariant Framed(infos0, old(memory), next, infos, memory, next)
        invariant Stable(old(memory), next, memory, next) && (Roomy(sizes, m, infos0, old(memory), next) ==> Roomy(sizes, m, infos, memory, next))
      {
        var x := op.inputs[j];
        assert x in op.inputs;
        KnownIsInRange(m, infos, memory, next, env, [Consuming(op, j)] + rest, again, x);
        ConsumeKeeps(m, infos, memory, next, env, op, rest, again, j);
        ghost var i1, m1 := infos, memory;
        if infos[x].usesLeft > 0 {
          var info := infos[x].(usesLeft := infos[x].usesLeft - 1);
          if info.usesLeft == 0 && info.pointer != Null {
            Free(info.pointer.id);
            info := info.(pointer := Null);
          }
          infos := infos[x := info];
        } else {
          assert infos[x := infos[x]] == infos;
        }
        assert infos == i1[x := Consumed(i1[x])] && memory == AfterConsuming(m1, i1[x]);
        Composed(infos0, old(memory), next, i1, m1, next, infos, memory, next, m, env, [op] + rest, again);
        ConsumedRoomy(sizes, m, i1, m1, next, x);
        StableTwice(old(memory), next, m1, next, memory, next);
      }
      AllConsumed(m, infos, memory, next, env, op, rest, again);
    }

    // Frees the temporaries that are left.
    method FreeUnusedSubgraphOperands(infos0: seq<Info>) returns (infos: seq<Info>)
      requires Sweepable(infos0) && TempIds(infos0) <= memory.Keys
      modifies this`memory
      ensures memory == old(memory) - TempIds(infos0) && AllSwept(infos0, infos)
    {
      infos := infos0;
      assert TempIds(infos0[..0]) == {};
      for x := 0 to |infos|
        invariant |infos| == |infos0| && forall y :: 0 <= y < |infos| ==> infos[y] == if y < x then Swept(infos0[y]) else infos0[y]
        invariant memory == old(memory) - TempIds(infos0[..x])
      {
        OneMoreTemp(infos0, x);
        if infos[x].lifetime == TemporaryVariable && infos[x].usesLeft == 0 && infos[x].pointer != Null {
          TempIdIsIn(infos0, x);
          Free(infos[x].pointer.id);
          infos := infos[x := infos[x].(pointer := Null)];
        }
      }
      assert infos0[..|infos0|] == infos0;
    }

    // ----- subgraphs -----

    /** Runs a subgraph. If it succeeds it has computed what the operations mean, has not
        touched buffers of others, and has freed what it does not need any more. */
    method ExecuteSubgraph(k: Kernels, fuel: nat, m: Model, infos0: seq<Info>, ghost env0: Env, ghost again: bool, ghost sure: set<nat>)
      returns (ok: bool, infos: seq<Info>, ghost env: Env)
      requires Runnable(m) && Running(m, infos0, memory, next, env0, m.operations, again) && env0.Keys == KnownSet(m)
      modifies this
      ensures ok ==> RunOperations(k, fuel, m.operations, env0) == Done(env)
      ensures ok ==> Running(m, infos, memory, next, env, [], again) && Framed(infos0, old(memory), old(next), infos, memory, next)
      ensures ok ==> env.Keys == KnownSet(m) + OutputsOf(m.operations)
      ensures ok ==> Stable(old(memory), old(next), memory, next)
      ensures ok && Ready(k, sizes, m, sure, infos0, old(memory), old(next), env0) ==> Ready(k, sizes, m, sure, infos, memory, next, env)
      ensures Ready(k, sizes, m, sure, infos0, old(memory), old(next), env0) && RunOperations(k, fuel, m.operations, env0).Done? ==> ok
      decreases m, 3
    {
      hide *;
      NothingIsStable(memory, next);
      OrderedHere(m);
      infos, env := infos0, env0;
      var ops := m.operations;
      NothingFramed(infos, memory, next);
      assert ops[0..] == ops;
      for i := 0 to |ops|
        invariant RunOperations(k, fuel, ops, env0) == RunOperations(k, fuel, ops[i..], env)
        invariant Running(m, infos, memory, next, env, ops[i..], again) && Framed(infos0, old(memory), old(next), infos, memory, next)
        invariant Ordered(ops[i..], env.Keys) && env.Keys + OutputsOf(ops[i..]) == KnownSet(m) + OutputsOf(ops)
        invariant Stable(old(memory), old(next), memory, next)
        invariant Ready(k, sizes, m, sure, infos0, old(memory), old(next), env0) ==> Ready(k, sizes, m, sure, infos, memory, next, env)
      {
        assert ops[i..] == [ops[i]] + ops[i + 1..];
        ghost var i1, m1, n1 := infos, memory, next;
        RestIsOrdered(ops, i, env);
        FirstRuns(k, fuel, ops[i..], env);
        ok, infos, env := ExecuteOperation(k, fuel, m, i, infos, env, again, sure);
        if !ok { return; }
        StableTwice(old(memory), old(next), m1, n1, memory, next);
        Composed(infos0, old(memory), old(next), i1, m1, n1, infos, memory, next, m, env0, ops, again);
      }
      NoOutputs(ops);
      NothingRuns(k, fuel, env);
      ok := true;
    }

    method ExecuteOperation(k: Kernels, fuel: nat, m: Model, i: nat, infos0: seq<Info>, ghost env0: Env, ghost again: bool, ghost sure: set<nat>)
      returns (ok: bool, infos: seq<Info>, ghost env: Env)
      requires Runnable(m) && i < |m.operations|
      requires Running(m, infos0, memory, next, env0, [m.operations[i]] + m.operations[i + 1..], again)
      requires IsNext(m.operations[i], env0)
      modifies this
      ensures ok ==> RunOperation(k, fuel, m.operations[i], env0) == Done(env) && env.Keys == env0.Keys + AsSet(m.operations[i].outputs)
      ensures ok ==> Running(m, infos, memory, next, env, m.operations[i + 1..], again) && Framed(infos0, old(memory), old(next), infos, memory, next)
      ensures ok ==> Stable(old(memory), old(next), memory, next)
      ensures ok && Ready(k, sizes, m, sure, infos0, old(memory), old(next), env0) ==> Ready(k, sizes, m, sure, infos, memory, next, env)
      ensures Ready(k, sizes, m, sure, infos0, old(memory), old(next), env0) && RunOperation(k, fuel, m.operations[i], env0).Done? ==> ok
      decreases m, 2
    {
      hide Running, Framed, RunOperation, Stable, Ready;
      match m.operations[i].placement {
        case OnDevice(_) => ok, infos, env := ExecuteKernel(k, fuel, m, i, infos0, env0, again, sure);
        case InterpretIf(_, _) => ok, infos, env := ExecuteIfOperation(k, fuel, m, i, infos0, env0, again, sure);
        case InterpretWhile(_, _) => ok, infos, env := ExecuteWhileOperation(k, fuel, m, i, infos0, env0, again, sure);
      }
    }

    method ExecuteKernel(k: Kernels, fuel: nat, m: Model, i: nat, infos0: seq<Info>, ghost env0: Env, ghost again: bool, ghost sure: set<nat>)
      returns (ok: bool, infos: seq<Info>, ghost env: Env)
      requires Runnable(m) && i < |m.operations| && m.operations[i].placement.OnDevice?
      requires Running(m, infos0, memory, next, env0, [m.operations[i]] + m.operations[i + 1..], again)
      requires IsNext(m.operations[i], env0)
      modifies this
      ensures ok ==> RunOperation(k, fuel, m.operations[i], env0) == Done(env) && env.Keys == env0.Keys + AsSet(m.operations[i].outputs)
      ensures ok ==> Running(m, infos, memory, next, env, m.operations[i + 1..], again) && Framed(infos0, old(memory), old(next), infos, memory, next)
      ensures ok ==> Stable(old(memory), old(next), memory, next)
      ensures ok && Ready(k, sizes, m, sure, infos0, old(memory), old(next), env0) ==> Ready(k, sizes, m, sure, infos, memory, next, env)
      ensures Ready(k, sizes, m, sure, infos0, old(memory), old(next), env0) && RunOperation(k, fuel, m.operations[i], env0).Done? ==> ok
    {
      hide *;
      if Ready(k, sizes, m, sure, infos0, memory, next, env0) { KernelGivesSizes(k, sizes, m, sure, infos0, memory, next, env0, i); }
      var op := m.operations[i];
      ghost var rest := m.operations[i + 1..];
      infos, env := infos0, env0;
      DistinctOutputs(op, env0);
      var vals := ReadInputs(m, infos, env0, op, rest, again);
      var results := k(op.opcode, vals);
      if results.None? || |results.value| != |op.outputs| {
        KernelFails(k, fuel, op, env0);
        return false, infos, env;
      }
      OutputsAreOwn(m, i, infos0, memory, next, env0, [op] + rest, again);
      ok, infos := WriteOutputs(m, infos0, env0, [op] + rest, again, op.outputs, results.value);
      if !ok { return; }
      env := Bind(env0, op.outputs, results.value);
      KernelRuns(k, fuel, op, env0);
      StillKnown(env0, op.outputs, results.value, op.inputs);
      BindKeys(env0, op.outputs, results.value);
      ghost var i1, m1, n1 := infos, memory, next;
      infos := ConsumeOperationInputs(m, infos, env, op, rest, again);
      Composed(infos0, old(memory), old(next), i1, m1, n1, infos, memory, next, m, env0, [op] + rest, again);
      StableTwice(old(memory), old(next), m1, n1, memory, next);
      if Ready(k, sizes, m, sure, infos0, old(memory), old(next), env0) {
        StaysReady(k, sizes, m, sure, infos0, old(memory), old(next), env0, infos, memory, next, op.outputs, results.value);
      }
    }

    // The operands of a subgraph before its first run.
    method InitializeRunTimeInfo(t: Model) returns (infos: seq<Info>)
      ensures |infos| == |t.operands| && forall x :: 0 <= x < |infos| ==> infos[x] == Initialized(t.operands[x])
    {
      infos := [];
      for x := 0 to |t.operands|
        invariant |infos| == x && forall y :: 0 <= y < x ==> infos[y] == Initialized(t.operands[y])
      {
        infos := infos + [Initialized(t.operands[x])];
      }
    }

    method ExecuteIfOperation(k: Kernels, fuel: nat, m: Model, i: nat, infos0: seq<Info>, ghost env0: Env, ghost again: bool, ghost sure: set<nat>)
      returns (ok: bool, infos: seq<Info>, ghost env: Env)
      requires Runnable(m) && i < |m.operations| && m.operations[i].placement.InterpretIf?
      requires Running(m, infos0, memory, next, env0, [m.operations[i]] + m.operations[i + 1..], again)
      requires IsNext(m.operations[i], env0)
      modifies this
      ensures ok ==> RunOperation(k, fuel, m.operations[i], env0) == Done(env) && env.Keys == env0.Keys + AsSet(m.operations[i].outputs)
      ensures ok ==> Running(m, infos, memory, next, env, m.operations[i + 1..], again) && Framed(infos0, old(memory), old(next), infos, memory, next)
      ensures ok ==> Stable(old(memory), old(next), memory, next)
      ensures ok && Ready(k, sizes, m, sure, infos0, old(memory), old(next), env0) ==> Ready(k, sizes, m, sure, infos, memory, next, env)
      ensures Ready(k, sizes, m, sure, infos0, old(memory), old(next), env0) && RunOperation(k, fuel, m.operations[i], env0).Done? ==> ok
      ensures ok ==> Knows(env0, m.operations[i].inputs) && Knows(env, m.operations[i].outputs) && |m.operations[i].inputs| >= 3
      ensures ok ==> m.operations[i].inputs[0] < |infos0| && infos0[m.operations[i].inputs[0]].pointer != Null
      ensures var op := m.operations[i];
              ok ==>
                var cond := env0[op.inputs[0]];
                RunModel(k, fuel, if cond != [] && cond[0] != 0 then op.placement.thenModel else op.placement.elseModel, Get(env0, op.inputs)[3..])
                == Done(Get(env, op.outputs))
      decreases m, 1
    {
      hide *;
      ghost var ready := Ready(k, sizes, m, sure, infos0, memory, next, env0);
      var op := m.operations[i];
      ghost var rest := m.operations[i + 1..];
      infos, env := infos0, env0;
      FirstInputs();
      DistinctOutputs(op, env0);
      ReferredIf(m, i);
      OutputsAreOwn(m, i, infos0, memory, next, env0, [op] + rest, again);
      ghost var vals := Get(env0, op.inputs);
      assert op.inputs[IF_CONDITION] in op.inputs;
      InputIsHeld(m, infos0, memory, next, env0, op, rest, again, op.inputs[IF_CONDITION]);
      NullIsEmpty(memory);
      IsShallowlyValid(op.placement.thenModel);
      IsShallowlyValid(op.placement.elseModel);
      IndexesAreDistinct(op.placement.thenModel);
      IndexesAreDistinct(op.placement.elseModel);
      if ready {
        BranchIsReady(k, sizes, m, sure, infos0, memory, next, env0, i, op.placement.thenModel);
        BranchIsReady(k, sizes, m, sure, infos0, memory, next, env0, i, op.placement.elseModel);
      }
      IfGoesOn(k, fuel, op, env0);
      if infos[op.inputs[IF_CONDITION]].pointer == Null { return false, infos, env; }
      var condition := Read(infos[op.inputs[IF_CONDITION]].pointer);
      var t := if IsTrue(condition) then op.placement.thenModel else op.placement.elseModel;
      var inner;
      ghost var inside := SureInputs(m, sure, op.inputs[IF_FIRST_INPUT..], t);
      ghost var results, outs, n0, m0 := [], PointersOf(infos0, op.outputs), next, memory;
      InputsAreInRange(m, i);
      ArgumentsArePassable(m, i, infos0, memory, next, env0, again, IF_FIRST_INPUT);
      ok, inner, results := CallSubgraph(k, fuel, t, PointersOf(infos0, op.inputs[IF_FIRST_INPUT..]), PointersOf(infos0, op.outputs), vals[IF_FIRST_INPUT..], inside);
      if !ok { return; }
      infos := SetPointers(infos0, op.outputs, inner, t.outputIndexes);
      OutputsReturn(m, infos0, m0, n0, env0, [op] + rest, again, op.outputs, PointersOf(inner, t.outputIndexes), infos, memory, next, results);
      env := Bind(env0, op.outputs, results);
      IfRuns(k, fuel, op, env0, results);
      FirstByte(condition);
      BoundIsGot(env0, op.outputs, results);
      StillKnown(env0, op.outputs, results, op.inputs);
      BindKeys(env0, op.outputs, results);
      ghost var i1, m1, n1 := infos, memory, next;
      if ready {
        ReturnsReady(k, sizes, m, sure, infos0, m0, n0, env0, op.outputs, t, PointersOf(inner, t.outputIndexes), infos, memory, next, results);
      }
      infos := ConsumeOperationInputs(m, infos, env, op, rest, again);
      Composed(infos0, m0, n0, i1, m1, n1, infos, memory, next, m, env0, [op] + rest, again);
      StableTwice(m0, n0, m1, n1, memory, next);
      if ready { ReadyInRoom(k, sizes, m, sure, i1, m1, n1, env, infos, memory, next); }
    }

    // Copies pointers from operands of one table to operands of another.
    method SetPointers(to: seq<Info>, xs: seq<nat>, from: seq<Info>, ys: seq<nat>) returns (infos: seq<Info>)
      requires |xs| == |ys| && Indexes(xs, |to|) && forall j :: 0 <= j < |ys| ==> ys[j] < |from|
      ensures Repointed(to, xs, PointersOf(from, ys), infos)
    {
      infos := to;
      for j := 0 to |xs|
        invariant |infos| == |to|
        invariant forall x: nat :: x < |infos| && x !in xs[..j] ==> infos[x] == to[x]
        invariant forall l :: 0 <= l < j ==> infos[xs[l]] == to[xs[l]].(pointer := from[ys[l]].pointer)
      {
        assert xs[j] !in xs[..j] && xs[..j + 1] == xs[..j] + [xs[j]];
        infos := infos[xs[j] := infos[xs[j]].(pointer := from[ys[j]].pointer)];
      }
      assert xs[..|xs|] == xs;
    }

    // Runs a subgraph once, with the given buffers for its inputs and outputs, and sweeps it.
    method CallSubgraph(k: Kernels, fuel: nat, t: Model, ins: seq<Pointer>, outs: seq<Pointer>, ghost args: seq<Bytes>, ghost sure: set<nat>)
      returns (ok: bool, infos: seq<Info>, ghost results: seq<Bytes>)
      requires Runnable(t) && |ins| == |t.inputIndexes| && |outs| == |t.outputIndexes| && Allocated(memory, next)
      requires MayBePassed(ins, outs, memory, args)
      modifies this
      ensures ok ==> RunModel(k, fuel, t, args) == Done(results) && |results| == |outs| && |infos| == |t.operands|
      ensures ok ==> (forall j :: 0 <= j < |results| ==> t.outputIndexes[j] < |infos| && Contents(infos[t.outputIndexes[j]].pointer, memory) == results[j])
      ensures ok ==> Handed(outs, old(memory), old(next), PointersOf(infos, t.outputIndexes), memory, next)
      ensures ok ==> Stable(old(memory), old(next), memory, next)
      ensures ok && ReadyCall(k, sizes, t, sure, outs, old(memory), old(next), args) ==>
                RoomyPointers(sizes, t, t.outputIndexes, PointersOf(infos, t.outputIndexes), memory, next) && HaveSizes(sizes, t, t.outputIndexes, results)
      ensures ReadyCall(k, sizes, t, sure, outs, old(memory), old(next), args) && RunModel(k, fuel, t, args).Done? ==> ok
      decreases t, 4
    {
      hide Running, Framed, Bind, RunOperations, Callable, Entered, Repointed, Tidy, OwnIds, IdsOf, Handed, ShallowValid, CountsConsumers, MayBePassed, PointersOf, TempIds,
           Stable, Ready, ReadyCall, RoomyPointers, HaveSizes, ListsLifetime;
      ghost var ready := ReadyCall(k, sizes, t, sure, outs, memory, next, args);
      if RunModel(k, fuel, t, args).Done? { ModelIsDone(k, fuel, t, args); }
      IsShallowlyValid(t);
      results := [];
      infos := InitializeRunTimeInfo(t);
      ghost var start := infos;
      IndexesAreDistinct(t);
      infos := SetBuffers(infos, t.inputIndexes, ins);
      ghost var half := infos;
      infos := SetBuffers(infos, t.outputIndexes, outs);
      PointersEntered(t, start, half, infos, ins, outs);
      EnteredIsCallable(t, infos, memory, next, ins, outs, args);
      ListsOutputs(t);
      CallableRuns(t, infos, memory, next, args, false);
      ghost var env, i0, m0, n0 := Bind(Constants(t), t.inputIndexes, args), infos, memory, next;
      if ready { EnteredIsReady(k, sizes, t, sure, start, half, infos, ins, outs, memory, next, args); }
      ok, infos, env := ExecuteSubgraph(k, fuel, t, infos, env, false, sure);
      if !ok { return; }
      OutputsAreKnown(t, env);
      RunningReturns(t, infos, memory, next, env, false);
      results := Get(env, t.outputIndexes);
      ghost var i1, m1, n1 := infos, memory, next;
      ReturnedIsTidy(t, infos, memory, next, results);
      TidyIsSweepable(infos, memory);
      infos := FreeUnusedSubgraphOperands(infos);
      SweptReturns(t, i0, m0, n0, i1, m1, n1, infos, outs, results);
      FreedIsStable(m1, n1, TempIds(i1));
      StableTwice(m0, n0, m1, n1, memory, next);
      if ready {
        ReadyReturns(k, sizes, t, sure, i1, m1, n1, env);
        SweptIsRoomy(sizes, t, i1, m1, n1, infos, TempIds(i1));
      }
    }

    /** Runs the main model with the buffers of a request. If it succeeds the buffers for
        outputs hold what the model means, no other buffer has changed, and everything
        that was allocated has been freed. */
    method Run(k: Kernels, fuel: nat, m: Model, inputs: seq<Pointer>, outputs: seq<Pointer>, ghost args: seq<Bytes>, ghost sure: set<nat>)
      returns (ok: bool, ghost results: seq<Bytes>)
      requires Runnable(m) && |inputs| == |m.inputIndexes| && |outputs| == |m.outputIndexes| && Allocated(memory, next)
      requires MayBePassed(inputs, outputs, memory, args) && forall j :: 0 <= j < |outputs| ==> outputs[j].Heap?
      modifies this
      ensures ok ==> RunModel(k, fuel, m, args) == Done(results) && |results| == |outputs|
      ensures ok ==> forall j :: 0 <= j < |outputs| ==> Contents(outputs[j], memory) == results[j]
      ensures ok ==> memory.Keys == old(memory).Keys
      ensures ok ==> forall b :: b in old(memory) && b !in IdsOf(outputs) ==> b in memory && memory[b] == old(memory)[b]
      ensures ReadyCall(k, sizes, m, sure, outputs, old(memory), old(next), args) ==> (ok <==> RunModel(k, fuel, m, args).Done?)
    {
      hide Runnable, RunModel, Contents, ReadyCall, HaveSizes, RoomyPointers, Stable;
      var infos;
      ok, infos, results := CallSubgraph(k, fuel, m, inputs, outputs, args, sure);
      if ok {
        assert PointersOf(infos, m.outputIndexes) == outputs;
        BuffersAreKept(outputs, old(memory), old(next), memory, next);
      }
    }

    // ----- WHILE -----

    // Runs a subgraph of a loop with pointers in place. What it does not own stays.
    method RunPart(k: Kernels, fuel: nat, t: Model, infos0: seq<Info>, ghost before: seq<Info>, ghost again: bool,
                   ghost ins: seq<Pointer>, ghost outs: seq<Pointer>, ghost state: seq<Bytes>, ghost m0: Memory, ghost n0: nat, ghost rest: set<nat>)
      returns (ok: bool, infos: seq<Info>, ghost results: seq<Bytes>)
      requires Runnable(t) && Prepared(t, before, again) && Reentered(t, before, infos0, ins, outs)
      requires Split(m0, n0, memory, next, TempIds(before) + IdsOf(outs), rest) && TempIds(before) !! IdsOf(outs)
      requires Holds(ins, state, memory, m0.Keys + rest) && OwnPointers(outs)
      modifies this
      ensures ok ==> RunModel(k, fuel, t, state) == Done(results) && Prepared(t, infos, true)
      ensures ok ==> (forall j :: 0 <= j < |t.outputIndexes| ==> t.outputIndexes[j] < |infos|) && |results| == |t.outputIndexes|
      ensures ok ==> (forall i :: 0 <= i < |t.inputIndexes| ==> t.inputIndexes[i] < |infos|) && PointersOf(infos, t.inputIndexes) == ins
      ensures ok ==> (forall j :: 0 <= j < |outs| && outs[j].Heap? ==> infos[t.outputIndexes[j]].pointer == outs[j])
      ensures ok ==> (forall j :: 0 <= j < |results| ==> Contents(infos[t.outputIndexes[j]].pointer, memory) == results[j])
      ensures ok ==> var outs' := PointersOf(infos, t.outputIndexes);
                     && Split(m0, n0, memory, next, TempIds(infos) + IdsOf(outs'), rest)
                     && TempIds(infos) !! IdsOf(outs') && OwnPointers(outs')
      ensures ok ==> forall b :: b in rest ==> b in memory && b in old(memory) && memory[b] == old(memory)[b]
      ensures ok ==> Holds(ins, state, memory, m0.Keys + rest)
      ensures ok ==> Stable(old(memory), old(next), memory, next)
      ensures ok && ReadyPart(k, sizes, t, infos0, old(memory), old(next), state) ==>
                Roomy(sizes, t, infos, memory, next) && HaveSizes(sizes, t, t.outputIndexes, results)
                && RoomyPointers(sizes, t, t.outputIndexes, PointersOf(infos, t.outputIndexes), memory, next)
      ensures ReadyPart(k, sizes, t, infos0, old(memory), old(next), state) && RunModel(k, fuel, t, state).Done? ==> ok
      decreases t, 4
    {
      hide Running, Framed, Bind, RunOperations, Callable, Returned, Reentered, Prepared, Tidy, OwnIds, IdsOf, TempIds, ShallowValid, CountsConsumers,
           MayBePassed, Split, Holds, Separate, OwnPointers, Apart, PointersOf, Stable, Ready, ReadyPart, Roomy, RoomyPointers, HaveSizes, ListsLifetime;
      ghost var ready := ReadyPart(k, sizes, t, infos0, memory, next, state);
      if RunModel(k, fuel, t, state).Done? { ModelIsDone(k, fuel, t, state); }
      IsShallowlyValid(t);
      HoldsIsPassable(ins, state, outs, m0, n0, memory, next, TempIds(before), rest);
      TempsAreLive(m0, n0, memory, next, TempIds(before), IdsOf(outs), rest);
      PreparedIsCallable(t, before, infos0, memory, next, ins, outs, state, again);
      ListsOutputs(t);
      IndexesAreDistinct(t);
      ReenteredPointers(t, before, infos0, ins, outs, again);
      CallableRuns(t, infos0, memory, next, state, again);
      ghost var env, mem, n := Bind(Constants(t), t.inputIndexes, state), memory, next;
      results := [];
      if ready { PartIsReady(k, sizes, t, infos0, memory, next, state); }
      ok, infos, env := ExecuteSubgraph(k, fuel, t, infos0, env, again, AsSet(t.inputIndexes));
      if !ok { return; }
      OutputsAreKnown(t, env);
      RunningReturns(t, infos, memory, next, env, again);
      results := Get(env, t.outputIndexes);
      OwnAfterRun(t, infos, memory, next, results);
      PartRuns(m0, n0, mem, n, rest, infos0, infos, memory, next);
      ReturnedIsPrepared(t, infos0, mem, n, infos, memory, next, results);
      PointersStay(t, infos0, mem, n, infos, memory, next);
      StillHolds(ins, state, m0, n0, mem, n, OwnIds(infos0), memory, next, OwnIds(infos), rest);
      ReturnedContents(t, infos, memory, next, results);
      RestIsLive(m0, n0, mem, n, OwnIds(infos0), rest);
      RestIsLive(m0, n0, memory, next, OwnIds(infos), rest);
      if ready {
        ReturnedIsTidy(t, infos, memory, next, results);
        ReadyReturns(k, sizes, t, AsSet(t.inputIndexes), infos, memory, next, env);
        ReadyIsRoomy(k, sizes, t, AsSet(t.inputIndexes), infos, memory, next, env);
      }
    }

    // Sets the pointers of operands.
    method SetBuffers(to: seq<Info>, xs: seq<nat>, pointers: seq<Pointer>) returns (infos: seq<Info>)
      requires |xs| == |pointers| && Indexes(xs, |to|)
      ensures Repointed(to, xs, pointers, infos)
    {
      infos := to;
      for j := 0 to |xs|
        invariant |infos| == |to|
        invariant forall x: nat :: x < |infos| && x !in xs[..j] ==> infos[x] == to[x]
        invariant forall l :: 0 <= l < j ==> infos[xs[l]] == to[xs[l]].(pointer := pointers[l])
      {
        assert xs[j] !in xs[..j] && xs[..j + 1] == xs[..j] + [xs[j]];
        infos := infos[xs[j] := infos[xs[j]].(pointer := pointers[j])];
      }
      assert xs[..|xs|] == xs;
    }

    // Frees the buffers of outputs of unknown size; they are allocated anew.
    method ResetUnknown(b: Model, buffers0: seq<Pointer>) returns (buffers: seq<Pointer>, ghost freed: set<nat>)
      requires |buffers0| == |b.outputIndexes| && OwnPointers(buffers0) && IdsOf(buffers0) <= memory.Keys
      requires forall j :: 0 <= j < |b.outputIndexes| ==> b.outputIndexes[j] < |b.operands|
      modifies this`memory
      ensures memory == old(memory) - freed && freed <= IdsOf(buffers0)
      ensures |buffers| == |buffers0| && OwnPointers(buffers) && IdsOf(buffers) == IdsOf(buffers0) - freed
      ensures forall j :: 0 <= j < |buffers| ==> buffers[j] == if hasUnknownSize(b.operands[b.outputIndexes[j]]) then Null else buffers0[j]
    {
      buffers, freed := buffers0, {};
      for j := 0 to |buffers|
        invariant |buffers| == |buffers0| && OwnPointers(buffers) && memory == old(memory) - freed && freed <= IdsOf(buffers0)
        invariant IdsOf(buffers) == IdsOf(buffers0) - freed
        invariant forall l :: 0 <= l < |buffers| ==> buffers[l] == if l < j && hasUnknownSize(b.operands[b.outputIndexes[l]]) then Null else buffers0[l]
      {
        if hasUnknownSize(b.operands[b.outputIndexes[j]]) && buffers[j] != Null {
          IdIsIn(buffers, j);
          RemovedId(buffers, j);
          Free(buffers[j].id);
          freed := freed + {buffers[j].id};
          buffers := buffers[j := Null];
        }
      }
    }

    // Frees the buffers of a set.
    method FreeLoopOutputs(buffers: seq<Pointer>)
      requires OwnPointers(buffers) && IdsOf(buffers) <= memory.Keys
      modifies this`memory
      ensures memory == old(memory) - IdsOf(buffers)
    {
      assert IdsOf(buffers[..0]) == {};
      for j := 0 to |buffers|
        invariant memory == old(memory) - IdsOf(buffers[..j])
      {
        OneMoreId(buffers, j);
        if buffers[j] != Null {
          IdIsIn(buffers, j);
          Free(buffers[j].id);
        }
      }
      assert buffers[..|buffers|] == buffers;
    }

    // Sets up the operands of the condition and of the body.
    method StartLoop(ghost k: Kernels, c: Model, b: Model, infos0: seq<Info>, inputs: seq<nat>, ghost outs: seq<Pointer>, ghost state: seq<Bytes>, ghost none: seq<Pointer>)
      returns (cond: seq<Info>, body: seq<Info>, conditionBuffer: nat)
      requires ShallowValid(c) && |c.outputIndexes| == 1 && Allocated(memory, next) && |b.outputIndexes| <= |b.inputIndexes| == |c.inputIndexes| == |inputs|
      requires (forall j :: 0 <= j < |inputs| ==> inputs[j] < |infos0|) && MayBePassed(PointersOf(infos0, inputs), outs, memory, state)
      requires |none| == |b.outputIndexes| && forall j :: 0 <= j < |none| ==> none[j] == Null
      modifies this
      ensures AtHead(c, b, old(memory), old(next), memory, next, cond, body, conditionBuffer, none, none, PointersOf(infos0, inputs), state, 0)
      ensures Stable(old(memory), old(next), memory, next)
      ensures Sizable(k, sizes, c, AsSet(c.inputIndexes)) && Sizable(k, sizes, b, AsSet(b.inputIndexes)) && BodySizesAgree(sizes, c, b)
              && HaveSizes(sizes, c, c.inputIndexes, state) ==>
                ReadyLoop(k, sizes, c, b, cond, body, none, none, memory, next, state)
    {
      hide ShallowValid, AtHead, Repointed, MayBePassed, PointersOf, Sizable, Roomy, RoomyPointers, HaveSizes, ListsLifetime, Stable, SizeAt, SizesAgree;
      IndexesAreDistinct(c);
      ListsOutputs(c);
      assert c.outputIndexes[0] in c.outputIndexes;
      cond := InitializeRunTimeInfo(c);
      body := InitializeRunTimeInfo(b);
      ghost var cond0 := cond;
      cond := SetPointers(cond, c.inputIndexes, infos0, inputs);
      ghost var cond1, mem := cond, memory;
      assert |cond1| == |cond0| by { SameButPointers(cond0, c.inputIndexes, PointersOf(infos0, inputs), cond1); }
      // The value of the condition is on the stack.
      AllocatedRoomy(sizes, c, cond1, memory, next, c.outputIndexes[0], 1);
      if SizeAt(sizes, c, c.outputIndexes[0]) <= 1 {
        LoopStartsRoomy(sizes, c, b, cond0, cond1, body, PointersOf(infos0, inputs), none, memory, next);
      }
      conditionBuffer := Allocate(1);
      cond := cond[c.outputIndexes[0] := cond[c.outputIndexes[0]].(pointer := Heap(conditionBuffer))];
      LoopStarts(c, b, mem, conditionBuffer, cond0, cond1, cond, body, PointersOf(infos0, inputs), state, outs, none);
    }

    method EvaluateCondition(k: Kernels, fuel: nat, c: Model, b: Model, cond0: seq<Info>, body: seq<Info>, conditionBuffer: nat,
                             ghost current: seq<Pointer>, ghost previous: seq<Pointer>, ghost pointers: seq<Pointer>, ghost state: seq<Bytes>,
                             iteration: nat, ghost m0: Memory, ghost n0: nat)
      returns (ok: bool, cond: seq<Info>, continues: bool, ghost value: Bytes)
      requires Runnable(c) && AtHead(c, b, m0, n0, memory, next, cond0, body, conditionBuffer, current, previous, pointers, state, iteration)
      modifies this
      ensures ok ==> RunModel(k, fuel, c, state) == Done([value]) && continues == IsTrue(value)
      ensures ok ==> Buffers(c, b, m0, n0, memory, next, cond, body, conditionBuffer, current, previous, true, iteration != 0)
      ensures ok ==> StateIsHeld(b, m0, memory, previous, pointers, state, iteration)
      ensures ok ==> (forall i :: 0 <= i < |c.inputIndexes| ==> c.inputIndexes[i] < |cond|) && PointersOf(cond, c.inputIndexes) == pointers
      ensures ok ==> |pointers| == |c.inputIndexes|
      ensures ok ==> Stable(old(memory), old(next), memory, next)
      ensures ok && ReadyLoop(k, sizes, c, b, cond0, body, current, previous, old(memory), old(next), state) ==>
                ReadyLoop(k, sizes, c, b, cond, body, current, previous, memory, next, state)
      ensures ReadyLoop(k, sizes, c, b, cond0, body, current, previous, old(memory), old(next), state) && RunModel(k, fuel, c, state).Done? ==> ok
      decreases c, 5
    {
      hide Runnable, RunModel, Repointed, IdsOf, TempIds, ShallowValid, CountsConsumers, Buffers, Holds, Prepared, Split, Separate, OwnPointers, Reentered,
           ReadyLoop, ReadyPart, Roomy, RoomyPointers, Stable, HaveSizes, ListsLifetime;
      ghost var ready := ReadyLoop(k, sizes, c, b, cond0, body, current, previous, memory, next, state);
      IsShallowlyValid(c);
      cond, value, continues := cond0, [], false;
      if iteration != 0 {
        FrontIsDistinct(c, |b.outputIndexes|);
        cond := SetPointers(cond, c.inputIndexes[..|b.outputIndexes|], body, b.outputIndexes);
      }
      if ready { ConditionIsReady(k, sizes, c, b, m0, n0, cond0, body, conditionBuffer, current, previous, memory, next, pointers, state, iteration, cond); }
      InputsAreSet(c, b, m0, n0, memory, next, cond0, body, conditionBuffer, current, previous, pointers, state, iteration, cond);
      hide AtHead;
      ghost var start, mem, n, rest := cond, memory, next, TempIds(body) + IdsOf(current) + IdsOf(previous);
      ConditionPart(c, b, m0, n0, memory, next, cond, body, conditionBuffer, current, previous, iteration != 0, pointers);
      StateIn(b, m0, memory, previous, pointers, state, iteration, rest);
      ghost var results;
      ok, cond, results := RunPart(k, fuel, c, cond, cond, iteration != 0, pointers, [Heap(conditionBuffer)], state, m0, n0, rest);
      if !ok { return; }
      value := results[0];
      assert results == [value];
      ConditionIsRead(c, cond, conditionBuffer, m0, n0, memory, next, rest);
      var content := Read(Heap(conditionBuffer));
      continues := IsTrue(content);
      AfterCondition(c, b, m0, n0, mem, n, start, body, conditionBuffer, current, previous, iteration != 0, iteration != 0, cond, memory, next);
      StateStays(b, m0, mem, previous, pointers, state, iteration, rest, memory);
      if ready { ReadyLoopLater(k, sizes, c, b, cond0, cond, body, current, previous, mem, n, memory, next, state); }
    }

    method EvaluateBody(k: Kernels, fuel: nat, c: Model, b: Model, cond: seq<Info>, body0: seq<Info>, ghost conditionBuffer: nat,
                        current0: seq<Pointer>, ghost previous: seq<Pointer>, ghost pointers: seq<Pointer>, ghost state: seq<Bytes>,
                        iteration: nat, ghost m0: Memory, ghost n0: nat)
      returns (ok: bool, body: seq<Info>, current: seq<Pointer>, ghost results: seq<Bytes>)
      requires Runnable(b) && |b.inputIndexes| == |c.inputIndexes| == |pointers|
      requires Buffers(c, b, m0, n0, memory, next, cond, body0, conditionBuffer, current0, previous, true, iteration != 0)
      requires StateIsHeld(b, m0, memory, previous, pointers, state, iteration)
      requires (forall i :: 0 <= i < |c.inputIndexes| ==> c.inputIndexes[i] < |cond|) && PointersOf(cond, c.inputIndexes) == pointers
      modifies this
      ensures ok ==> RunModel(k, fuel, b, state) == Done(results) && |results| == |current| == |b.outputIndexes| <= |pointers| == |state|
      ensures ok ==> AtHead(c, b, m0, n0, memory, next, cond, body, conditionBuffer, previous, current,
                            current + pointers[|current|..], results + state[|current|..], iteration + 1)
      ensures ok ==> Stable(old(memory), old(next), memory, next)
      ensures ok && ReadyLoop(k, sizes, c, b, cond, body0, current0, previous, old(memory), old(next), state) ==>
                ReadyLoop(k, sizes, c, b, cond, body, previous, current, memory, next, results + state[|results|..])
      ensures ReadyLoop(k, sizes, c, b, cond, body0, current0, previous, old(memory), old(next), state) && RunModel(k, fuel, b, state).Done? ==> ok
      decreases b, 5
    {
      hide Runnable, RunModel, Repointed, IdsOf, TempIds, ShallowValid, CountsConsumers, Holds, Prepared, Split, Separate, OwnPointers, Reentered, AtHead,
           ReadyLoop, ReadyPart, Roomy, RoomyPointers, Stable, HaveSizes, ListsLifetime;
      ghost var ready := ReadyLoop(k, sizes, c, b, cond, body0, current0, previous, memory, next, state);
      IsShallowlyValid(b);
      ListsOutputs(b);
      IndexesAreDistinct(b);
      current, results := current0, [];
      ghost var rest := TempIds(cond) + {conditionBuffer} + IdsOf(previous);
      BodyPart(c, b, m0, n0, memory, next, cond, body0, conditionBuffer, current, previous, true, iteration != 0);
      BodyIsReady(c, b, m0, n0, memory, next, cond, body0, conditionBuffer, current, previous, iteration != 0);
      StateIn(b, m0, memory, previous, pointers, state, iteration, rest);
      // The other fields of the records are the same.
      body := SetPointers(body0, b.inputIndexes, cond, c.inputIndexes);
      ghost var half, mem, n, freed := body, memory, next, {};
      current, freed := ResetUnknown(b, current);
      assert |half| == |body0| by { SameButPointers(body0, b.inputIndexes, pointers, half); }
      body := SetBuffers(body, b.outputIndexes, current);
      AfterReset(m0, n0, mem, n, TempIds(body0), IdsOf(current0), rest, freed, pointers, state);
      BothSet(b, body0, half, body, pointers, current, iteration != 0);
      FreedIsStable(mem, n, freed);
      ghost var m1, n1 := memory, next;
      if ready {
        PreparedFits(b, body0, iteration != 0);
        BodyIsReadyToRun(k, sizes, c, b, cond, body0, half, body, current0, current, previous, pointers, mem, n, freed, state);
      }
      ok, body, results := RunPart(k, fuel, b, body, body0, iteration != 0, pointers, current, state, m0, n0, rest);
      if !ok { return; }
      current := PointersOf(body, b.outputIndexes);
      StableTwice(mem, n, m1, n1, memory, next);
      if ready {
        ReadyForNext(k, sizes, c, b, cond, body0, body, current0, current, previous, mem, n, memory, next, state, results);
      }
      AfterBody(c, b, m0, n0, cond, body0, conditionBuffer, mem, n, current0, previous, iteration != 0, body, memory, next, current,
                pointers, state, results, iteration);
    }

    // Copies the state to the outputs and frees everything that the loop has allocated.
    method LeaveLoop(k: Kernels, fuel: nat, m: Model, i: nat, infos0: seq<Info>, ghost env0: Env, ghost again: bool, ghost m0: Memory, ghost n0: nat,
                     cond: seq<Info>, body: seq<Info>, conditionBuffer: nat, current: seq<Pointer>, previous: seq<Pointer>,
                     ghost pointers: seq<Pointer>, ghost state: seq<Bytes>, ghost iteration: nat, ghost sure: set<nat>)
      returns (ok: bool, infos: seq<Info>, ghost env: Env)
      requires Stable(m0, n0, memory, next)
      requires Runnable(m) && i < |m.operations| && m.operations[i].placement.InterpretWhile? && IsNext(m.operations[i], env0)
      requires Running(m, infos0, m0, n0, env0, [m.operations[i]] + m.operations[i + 1..], again)
      requires Buffers(m.operations[i].placement.condModel, m.operations[i].placement.bodyModel, m0, n0, memory, next, cond, body, conditionBuffer,
                       current, previous, true, iteration != 0)
      requires StateIsHeld(m.operations[i].placement.bodyModel, m0, memory, previous, pointers, state, iteration)
      requires |m.operations[i].outputs| <= |pointers| == |m.operations[i].placement.condModel.inputIndexes|
      requires forall j :: 0 <= j < |pointers| ==> m.operations[i].placement.condModel.inputIndexes[j] < |cond|
      requires PointersOf(cond, m.operations[i].placement.condModel.inputIndexes) == pointers
      modifies this
      ensures ok ==> |m.operations[i].outputs| <= |state| && env == Bind(env0, m.operations[i].outputs, state[..|m.operations[i].outputs|])
      ensures ok ==> env.Keys == env0.Keys + AsSet(m.operations[i].outputs)
      ensures ok ==> Running(m, infos, memory, next, env, m.operations[i + 1..], again) && Framed(infos0, m0, n0, infos, memory, next)
      ensures ok ==> Stable(m0, n0, memory, next)
      ensures var c := m.operations[i].placement.condModel;
              Ready(k, sizes, m, sure, infos0, m0, n0, env0) && HaveSizes(sizes, c, c.inputIndexes, state) && SizesAgree(sizes, c, c.inputIndexes, m, m.operations[i].outputs) ==>
                ok && Ready(k, sizes, m, sure, infos, memory, next, env)
    {
      hide Runnable, Running, Framed, Bind, OwnIds, IdsOf, TempIds, Prepared, Split, Separate, OwnPointers, Contents, IsNext,
           Ready, Roomy, HaveSizes, SizesAgree, Stable;
      var op := m.operations[i];
      ghost var rem := [op] + m.operations[i + 1..];
      var c := op.placement.condModel;
      infos, env := infos0, env0;
      var values := ReadState(cond, c.inputIndexes, |op.outputs|, pointers, state, m0.Keys + IdsOf(previous));
      ghost var loop := TempIds(cond) + {conditionBuffer} + (TempIds(body) + IdsOf(current) + IdsOf(previous));
      Everything(m0, n0, memory, next, TempIds(cond) + {conditionBuffer}, TempIds(body) + IdsOf(current) + IdsOf(previous));
      RunningInLoop(m, infos0, m0, n0, env0, rem, again, memory, next, loop, {});
      OutputsAreOwn(m, i, infos0, memory, next, env0, rem, again);
      NextKnows(op, env0);
      ghost var mem, n := memory, next;
      ghost var ready := Ready(k, sizes, m, sure, infos0, m0, n0, env0) && HaveSizes(sizes, c, c.inputIndexes, state) && SizesAgree(sizes, c, c.inputIndexes, m, op.outputs);
      if ready { StateFits(k, sizes, m, sure, infos0, m0, n0, env0, op.outputs, c, state, memory, next); }
      ok, infos := WriteOutputs(m, infos0, env0, rem, again, op.outputs, values);
      if !ok { return; }
      ghost var m1', n1' := memory, next;
      StableTwice(m0, n0, mem, n, m1', n1');
      env := Bind(env0, op.outputs, values);
      BindKeys(env0, op.outputs, values);
      LoopEnds(m, infos0, m0, n0, env0, rem, again, mem, n, loop, infos, memory, next, env);
      LoopCanBeFreed(c, op.placement.bodyModel, cond, body, true, iteration != 0);
      FreeLoop(cond, body, conditionBuffer, current, previous);
      ghost var i1, m1 := infos, memory;
      FreedIsStable(m1', n1', loop);
      StableTwice(m0, n0, m1', n1', m1, n1');
      infos := ConsumeOperationInputs(m, infos, env, op, m.operations[i + 1..], again);
      Composed(infos0, m0, n0, i1, m1, next, infos, memory, next, m, env0, rem, again);
      StableTwice(m0, n0, m1, next, memory, next);
      if ready {
        RoomyLater(sizes, m, i1, m1', n1', m1, next);
        StaysReady(k, sizes, m, sure, infos0, m0, n0, env0, infos, memory, next, op.outputs, values);
      }
    }

    // Reads the front of the state.
    method ReadState(cond: seq<Info>, indexes: seq<nat>, count: nat, ghost pointers: seq<Pointer>, ghost state: seq<Bytes>, ghost ids: set<nat>) returns (values: seq<Bytes>)
      requires Holds(pointers, state, memory, ids) && count <= |pointers| == |indexes|
      requires (forall j :: 0 <= j < |indexes| ==> indexes[j] < |cond|) && PointersOf(cond, indexes) == pointers
      ensures |state| == |pointers| && values == state[..count]
    {
      hide Contents;
      values := [];
      for j := 0 to count
        invariant values == state[..j]
      {
        assert cond[indexes[j]].pointer == pointers[j];
        var value := Read(cond[indexes[j]].pointer);
        values := values + [value];
      }
    }

    method FreeLoop(cond: seq<Info>, body: seq<Info>, conditionBuffer: nat, current: seq<Pointer>, previous: seq<Pointer>)
      requires Sweepable(cond) && Sweepable(body) && OwnPointers(current) && OwnPointers(previous)
      requires TempIds(cond) + {conditionBuffer} + (TempIds(body) + IdsOf(current) + IdsOf(previous)) <= memory.Keys
      requires conditionBuffer !in TempIds(cond) && TempIds(cond) + {conditionBuffer} !! TempIds(body) + IdsOf(current) + IdsOf(previous)
      requires TempIds(body) !! IdsOf(current) && TempIds(body) !! IdsOf(previous) && IdsOf(current) !! IdsOf(previous)
      modifies this`memory
      ensures memory == old(memory) - (TempIds(cond) + {conditionBuffer} + (TempIds(body) + IdsOf(current) + IdsOf(previous)))
    {
      hide TempIds, IdsOf, Sweepable, OwnPointers, AllSwept;
      FreeLoopOutputs(current);
      FreeLoopOutputs(previous);
      var _ := FreeUnusedSubgraphOperands(cond);
      var _ := FreeUnusedSubgraphOperands(body);
      Free(conditionBuffer);
    }

    /** The condition and the body alternate; the outputs of the body go to two sets of
        buffers in turn. */
    method ExecuteWhileOperation(k: Kernels, fuel: nat, m: Model, i: nat, infos0: seq<Info>, ghost env0: Env, ghost again: bool, ghost sure: set<nat>)
      returns (ok: bool, infos: seq<Info>, ghost env: Env)
      requires Runnable(m) && i < |m.operations| && m.operations[i].placement.InterpretWhile?
      requires Running(m, infos0, memory, next, env0, [m.operations[i]] + m.operations[i + 1..], again)
      requires IsNext(m.operations[i], env0)
      modifies this
      ensures ok ==> RunOperation(k, fuel, m.operations[i], env0) == Done(env) && env.Keys == env0.Keys + AsSet(m.operations[i].outputs)
      ensures ok ==> Running(m, infos, memory, next, env, m.operations[i + 1..], again) && Framed(infos0, old(memory), old(next), infos, memory, next)
      ensures ok ==> Stable(old(memory), old(next), memory, next)
      ensures ok && Ready(k, sizes, m, sure, infos0, old(memory), old(next), env0) ==> Ready(k, sizes, m, sure, infos, memory, next, env)
      ensures Ready(k, sizes, m, sure, infos0, old(memory), old(next), env0) && RunOperation(k, fuel, m.operations[i], env0).Done? ==> ok
      decreases m, 1
    {
      hide *;
      var op := m.operations[i];
      ghost var rem := [op] + m.operations[i + 1..];
      var c, b := op.placement.condModel, op.placement.bodyModel;
      infos, env := infos0, env0;
      FirstInputs();
      ReferredWhile(m, i);
      InputsAreInRange(m, i);
      NextKnows(op, env0);
      ghost var vals, m0, n0 := Get(env0, op.inputs), memory, next;
      ArgumentsArePassable(m, i, infos0, memory, next, env0, again, WHILE_FIRST_INPUT);
      ghost var ready := Ready(k, sizes, m, sure, infos0, memory, next, env0);
      if ready { LoopIsReady(k, sizes, m, sure, infos0, memory, next, env0, i); }
      WhileGoesOn(k, fuel, op, env0);
      var inputs := op.inputs[WHILE_FIRST_INPUT..];
      var nb := |b.outputIndexes|;
      var none: seq<Pointer> := seq(nb, _ => Null);
      var tmp1, tmp2 := none, none;
      var cond, body, conditionBuffer := StartLoop(k, c, b, infos0, inputs, PointersOf(infos0, op.outputs), vals[WHILE_FIRST_INPUT..], none);
      ghost var pointers, state := PointersOf(infos0, inputs), vals[WHILE_FIRST_INPUT..];
      var iteration: nat := 0;
      while iteration < fuel
        invariant iteration <= fuel
        invariant AtHead(c, b, m0, n0, memory, next, cond, body, conditionBuffer,
                         if iteration % 2 == 0 then tmp1 else tmp2, if iteration % 2 == 0 then tmp2 else tmp1, pointers, state, iteration)
        invariant Iterate(k, fuel, fuel, op, vals[WHILE_FIRST_INPUT..]) == Iterate(k, fuel - iteration, fuel, op, state)
        invariant Stable(m0, n0, memory, next)
        invariant ready ==> ReadyLoop(k, sizes, c, b, cond, body, if iteration % 2 == 0 then tmp1 else tmp2, if iteration % 2 == 0 then tmp2 else tmp1, memory, next, state)
      {
        IterationIsDone(k, fuel - iteration, fuel, op, state);
        ghost var m1, n1 := memory, next;
        var current, previous := if iteration % 2 == 0 then tmp1 else tmp2, if iteration % 2 == 0 then tmp2 else tmp1;
        var continues;
        ghost var value;
        ok, cond, continues, value := EvaluateCondition(k, fuel, c, b, cond, body, conditionBuffer, current, previous, pointers, state, iteration, m0, n0);
        if !ok { return; }
        StableTwice(m0, n0, m1, n1, memory, next);
        if !continues {
          IterateStops(k, fuel - iteration, fuel, op, state, value);
          WhileRuns(k, fuel, op, env0, state[..|op.outputs|]);
          if ready { StateHasSizes(k, sizes, c, b, cond, body, current, previous, memory, next, state); }
          ok, infos, env := LeaveLoop(k, fuel, m, i, infos0, env0, again, m0, n0, cond, body, conditionBuffer, current, previous, pointers, state, iteration, sure);
          return;
        }
        ghost var results, m2, n2 := [], memory, next;
        ok, body, current, results := EvaluateBody(k, fuel, c, b, cond, body, conditionBuffer, current, previous, pointers, state, iteration, m0, n0);
        if !ok { return; }
        StableTwice(m0, n0, m2, n2, memory, next);
        IterateGoesOn(k, fuel - iteration, fuel, op, state, value, results);
        if iteration % 2 == 0 { tmp1 := current; } else { tmp2 := current; }
        pointers, state := current + pointers[nb..], results + state[nb..];
        iteration := iteration + 1;
      }
      IterationIsDone(k, 0, fuel, op, state);
      ok := false;
    }
  }

  lemma Composed(i0: seq<Info>, m0: Memory, n0: nat, i1: seq<Info>, m1: Memory, n1: nat, i2: seq<Info>, m2: Memory, n2: nat,
                 m: Model, env: Env, rem: seq<Operation>, again: bool)
    requires Framed(i0, m0, n0, i1, m1, n1) && Framed(i1, m1, n1, i2, m2, n2) && Running(m, i0, m0, n0, env, rem, again)
    ensures Framed(i0, m0, n0, i2, m2, n2)
  {
    FramedTwice(i0, m0, n0, i1, m1, n1, i2, m2, n2);
  }

  lemma BindNone(env: Env, ks: seq<nat>, vs: seq<Bytes>)
    requires |ks| == |vs|
    ensures Bind(env, ks[..0], vs[..0]) == env
  {
  }

  lemma BindKeys(env: Env, ks: seq<nat>, vs: seq<Bytes>)
    requires |ks| == |vs|
    ensures forall x :: x in Bind(env, ks, vs) <==> x in env || x in ks
  {
  }

  lemma KnownIsInRange(m: Model, infos: seq<Info>, memory: Memory, next: nat, env: Env, rem: seq<Operation>, again: bool, x: nat)
    requires Running(m, infos, memory, next, env, rem, again) && x in env
    ensures x < |infos| && IsLive(infos[x].pointer, memory)
  {
  }

  // ----- what validation gives -----

  lemma IsShallowlyValid(m: Model)
    requires Runnable(m)
    ensures ShallowValid(m) && CountsConsumers(m)
  {
  }

  lemma OrderedHere(m: Model)
    requires Runnable(m)
    ensures Ordered(m.operations, KnownSet(m))
  {
  }

  lemma RestIsOrdered(ops: seq<Operation>, i: nat, env: Env)
    requires i < |ops| && Ordered(ops[i..], env.Keys)
    ensures ops[i..][0] == ops[i] && ops[i..][1..] == ops[i + 1..]
    ensures IsNext(ops[i], env) && Ordered(ops[i + 1..], env.Keys + AsSet(ops[i].outputs))
    ensures OutputsOf(ops[i..]) == AsSet(ops[i].outputs) + OutputsOf(ops[i + 1..])
  {
  }

  lemma NoOutputs(ops: seq<Operation>)
    ensures OutputsOf(ops[|ops|..]) == {} && ops[|ops|..] == []
  {
  }

  lemma OutputsAreOwn(m: Model, i: nat, infos: seq<Info>, memory: Memory, next: nat, env: Env, rem: seq<Operation>, again: bool)
    requires Runnable(m) && i < |m.operations| && Running(m, infos, memory, next, env, rem, again) && IsNext(m.operations[i], env)
    ensures forall x :: x in m.operations[i].outputs ==> x < |infos| && IsOwn(infos[x].lifetime) && x !in env
    ensures forall j :: 0 <= j < |m.operations[i].outputs| ==>
              m.operations[i].outputs[j] < |infos| && IsOwn(infos[m.operations[i].outputs[j]].lifetime) && m.operations[i].outputs[j] !in env
    ensures Indexes(m.operations[i].outputs, |infos|)
  {
    assert OperationFits(m.operations[i], m.operands);
    assert forall j :: 0 <= j < |m.operations[i].outputs| ==> m.operations[i].outputs[j] in m.operations[i].outputs;
  }

  lemma InputsAreInRange(m: Model, i: nat)
    requires Runnable(m) && i < |m.operations|
    ensures forall x :: x in m.operations[i].inputs ==> x < |m.operands|
    ensures forall j :: 0 <= j < |m.operations[i].inputs| ==> m.operations[i].inputs[j] < |m.operands|
  {
    assert OperationFits(m.operations[i], m.operands);
    assert forall j :: 0 <= j < |m.operations[i].inputs| ==> m.operations[i].inputs[j] in m.operations[i].inputs;
  }

  lemma ReferredIf(m: Model, i: nat)
    requires Runnable(m) && i < |m.operations| && m.operations[i].placement.InterpretIf?
    ensures var op := m.operations[i];
            && Runnable(op.placement.thenModel) && Runnable(op.placement.elseModel) && |op.inputs| >= IF_FIRST_INPUT
            && |op.placement.thenModel.inputIndexes| == |op.placement.elseModel.inputIndexes| == |op.inputs| - IF_FIRST_INPUT
            && |op.placement.thenModel.outputIndexes| == |op.placement.elseModel.outputIndexes| == |op.outputs|
  {
    assert OperationFits(m.operations[i], m.operands) && RunnablePlacement(m.operations[i].placement);
  }

  /** The buffers of an operation's inputs and outputs can be passed to a subgraph. */
  lemma ArgumentsArePassable(m: Model, i: nat, infos: seq<Info>, memory: Memory, next: nat, env: Env, again: bool, first: nat)
    requires Runnable(m) && i < |m.operations| && first <= |m.operations[i].inputs| && IsNext(m.operations[i], env)
    requires Running(m, infos, memory, next, env, [m.operations[i]] + m.operations[i + 1..], again)
    ensures Allocated(memory, next)
    ensures forall j :: 0 <= j < |m.operations[i].outputs| ==> m.operations[i].outputs[j] < |infos|
    ensures forall j :: 0 <= j < |m.operations[i].inputs[first..]| ==> m.operations[i].inputs[first..][j] < |infos|
    ensures MayBePassed(PointersOf(infos, m.operations[i].inputs[first..]), PointersOf(infos, m.operations[i].outputs), memory, Get(env, m.operations[i].inputs)[first..])
  {
    var op := m.operations[i];
    var inputs: seq<nat> := op.inputs[first..];
    OutputsAreOwn(m, i, infos, memory, next, env, [op] + m.operations[i + 1..], again);
    forall j: nat | j < |inputs|
      ensures inputs[j] < |infos| && inputs[j] in env && IsLive(infos[inputs[j]].pointer, memory) && Contents(infos[inputs[j]].pointer, memory) == env[inputs[j]]
    {
      assert inputs[j] == op.inputs[first + j] && inputs[j] in op.inputs;
      InputIsHeld(m, infos, memory, next, env, op, m.operations[i + 1..], again, inputs[j]);
    }
    IsTidy(m, infos, memory, next, env, [op] + m.operations[i + 1..], again);
    hide Runnable, Running, Tidy, Contents, Separate;
    PassedAreSeparate(infos, memory, inputs, op.outputs);
  }

  lemma IsTidy(m: Model, infos: seq<Info>, memory: Memory, next: nat, env: Env, rem: seq<Operation>, again: bool)
    requires Running(m, infos, memory, next, env, rem, again)
    ensures Tidy(infos, memory) && Allocated(memory, next)
  {
  }

  lemma PassedAreSeparate(infos: seq<Info>, memory: Memory, inputs: seq<nat>, outputs: seq<nat>)
    requires Tidy(infos, memory) && Indexes(outputs, |infos|)
    requires forall j :: 0 <= j < |outputs| ==> IsOwn(infos[outputs[j]].lifetime)
    requires forall j :: 0 <= j < |inputs| ==> inputs[j] < |infos| && inputs[j] !in outputs
    ensures Separate(PointersOf(infos, outputs))
    ensures forall j :: 0 <= j < |outputs| ==> IsLive(infos[outputs[j]].pointer, memory) && !infos[outputs[j]].pointer.Static?
    ensures forall i, j :: 0 <= i < |inputs| && 0 <= j < |outputs| && infos[outputs[j]].pointer.Heap? ==>
              infos[inputs[i]].pointer != infos[outputs[j]].pointer
  {
    assert forall j :: 0 <= j < |outputs| ==> outputs[j] in outputs;
  }

  lemma IndexesAreDistinct(t: Model)
    requires ShallowValid(t)
    ensures Indexes(t.inputIndexes, |t.operands|) && Indexes(t.outputIndexes, |t.operands|)
    ensures forall x :: x in t.inputIndexes ==> x < |t.operands| && t.operands[x].lifetime == SubgraphInput
    ensures forall x :: x in t.outputIndexes ==> x < |t.operands| && t.operands[x].lifetime == SubgraphOutput
  {
    assert forall j :: 0 <= j < |t.inputIndexes| ==> t.inputIndexes[j] in t.inputIndexes;
    assert forall j :: 0 <= j < |t.outputIndexes| ==> t.outputIndexes[j] in t.outputIndexes;
  }

  lemma PointersEntered(t: Model, start: seq<Info>, half: seq<Info>, infos: seq<Info>, ins: seq<Pointer>, outs: seq<Pointer>)
    requires ShallowValid(t) && |start| == |t.operands| && forall x :: 0 <= x < |start| ==> start[x] == Initialized(t.operands[x])
    requires Repointed(start, t.inputIndexes, ins, half) && Repointed(half, t.outputIndexes, outs, infos)
    ensures Entered(t, infos, ins, outs)
  {
    IndexesAreDistinct(t);
    SameButPointers(start, t.inputIndexes, ins, half);
    SameButPointers(half, t.outputIndexes, outs, infos);
    hide ShallowValid;
    forall i | 0 <= i < |ins| ensures infos[t.inputIndexes[i]].pointer == ins[i] {
      assert t.inputIndexes[i] in t.inputIndexes && t.inputIndexes[i] !in t.outputIndexes;
    }
  }

  lemma OutputsAreKnown(t: Model, env: Env)
    requires ShallowValid(t) && env.Keys == KnownSet(t) + OutputsOf(t.operations)
    ensures Knows(env, t.outputIndexes)
  {
  }

  lemma ReturnedIsTidy(t: Model, infos: seq<Info>, memory: Memory, next: nat, results: seq<Bytes>)
    requires Returned(t, infos, memory, next, results)
    ensures Tidy(infos, memory) && Allocated(memory, next) && Counting(infos, [], true) && Fits(t, infos)
  {
  }

  lemma SweptContents(t: Model, i1: seq<Info>, m1: Memory, n1: nat, i2: seq<Info>, results: seq<Bytes>)
    requires ShallowValid(t) && Returned(t, i1, m1, n1, results) && AllSwept(i1, i2)
    ensures forall j :: 0 <= j < |results| ==> t.outputIndexes[j] < |i2| && Contents(i2[t.outputIndexes[j]].pointer, m1 - TempIds(i1)) == results[j]
  {
    ListsOutputs(t);
    hide ShallowValid, TempIds;
    forall j | 0 <= j < |results| ensures t.outputIndexes[j] < |i2| && Contents(i2[t.outputIndexes[j]].pointer, m1 - TempIds(i1)) == results[j] {
      var x := t.outputIndexes[j];
      assert x in t.outputIndexes;
      if i1[x].pointer.Heap? { NotATemporarys(i1, m1, x); }
    }
  }

  lemma ListedAreOwn(t: Model, infos: seq<Info>)
    requires ShallowValid(t) && Fits(t, infos)
    ensures forall j :: 0 <= j < |t.outputIndexes| ==>
              t.outputIndexes[j] < |infos| && IsOwn(infos[t.outputIndexes[j]].lifetime) && !IsTemp(infos, t.outputIndexes[j])
  {
    ListsOutputs(t);
    assert forall j :: 0 <= j < |t.outputIndexes| ==> t.outputIndexes[j] in t.outputIndexes;
  }

  lemma SweptIsHanded(t: Model, i0: seq<Info>, m0: Memory, n0: nat, i1: seq<Info>, m1: Memory, n1: nat, i2: seq<Info>, outs: seq<Pointer>)
    requires ShallowValid(t) && Fits(t, i0) && Fits(t, i2)
    requires Framed(i0, m0, n0, i2, m1, n1) && Tidy(i2, m1) && Allocated(m1, n1) && TempIds(i2) == {}
    requires (forall j :: 0 <= j < |t.outputIndexes| ==> t.outputIndexes[j] < |i0|) && PointersOf(i0, t.outputIndexes) == outs && OwnIds(i0) == IdsOf(outs)
    ensures forall j :: 0 <= j < |t.outputIndexes| ==> t.outputIndexes[j] < |i2|
    ensures Handed(outs, m0, n0, PointersOf(i2, t.outputIndexes), m1, n1)
  {
    ListsOutputs(t);
    OwnIdsSplit(t, i2, m1);
    OwnIdsAreLive(i2, m1);
    ListedAreOwn(t, i0);
    ListedAreOwn(t, i2);
    hide OwnIds, IdsOf, TempIds, ShallowValid, Separate, ListsLifetime, Fits;
  }

  /** After the sweep only the outputs are left. */
  lemma SweptReturns(t: Model, i0: seq<Info>, m0: Memory, n0: nat, i1: seq<Info>, m1: Memory, n1: nat, i2: seq<Info>, outs: seq<Pointer>, results: seq<Bytes>)
    requires ShallowValid(t) && Returned(t, i1, m1, n1, results) && Framed(i0, m0, n0, i1, m1, n1) && OwnIds(i0) == IdsOf(outs)
    requires Allocated(m0, n0) && AllSwept(i1, i2)
    requires |i0| == |t.operands| && (forall j :: 0 <= j < |t.outputIndexes| ==> t.outputIndexes[j] < |i0|) && PointersOf(i0, t.outputIndexes) == outs
    ensures |i2| == |t.operands| && forall j :: 0 <= j < |t.outputIndexes| ==> t.outputIndexes[j] < |i2|
    ensures Handed(outs, m0, n0, PointersOf(i2, t.outputIndexes), m1 - TempIds(i1), n1)
    ensures forall j :: 0 <= j < |results| ==> t.outputIndexes[j] < |i2| && Contents(i2[t.outputIndexes[j]].pointer, m1 - TempIds(i1)) == results[j]
  {
    var m2 := m1 - TempIds(i1);
    SweepKeeps(i1, m1, n1, i2);
    FramedTwice(i0, m0, n0, i1, m1, n1, i2, m2, n1);
    SweptContents(t, i1, m1, n1, i2, results);
    assert Fits(t, i0) && Fits(t, i2);
    hide OwnIds, IdsOf, TempIds, ShallowValid, Contents, Framed, Tidy, Handed, Fits;
    SweptIsHanded(t, i0, m0, n0, i1, m2, n1, i2, outs);
  }

  lemma OneMoreTemp(infos: seq<Info>, x: nat)
    requires x < |infos| && TempsSeparate(infos)
    ensures TempIds(infos[..x + 1]) == TempIds(infos[..x]) + if IsTemp(infos, x) && infos[x].pointer.Heap? then {infos[x].pointer.id} else {}
    ensures IsTemp(infos, x) && infos[x].pointer.Heap? ==> infos[x].pointer.id !in TempIds(infos[..x])
  {
    var front, all := infos[..x], infos[..x + 1];
    assert all == front + [infos[x]];
    forall b ensures b in TempIds(all) <==> b in TempIds(front) || (IsTemp(infos, x) && infos[x].pointer == Heap(b)) {
      if b in TempIds(front) {
        var y :| 0 <= y < |front| && IsTemp(front, y) && front[y].pointer.Heap? && front[y].pointer.id == b;
        TempIdIsIn(all, y);
      }
      if IsTemp(infos, x) && infos[x].pointer == Heap(b) { TempIdIsIn(all, x); }
      if b in TempIds(all) {
        var y :| 0 <= y < |all| && IsTemp(all, y) && all[y].pointer.Heap? && all[y].pointer.id == b;
        if y < x { TempIdIsIn(front, y); }
      }
    }
  }

  ghost predicate SameAt(a: seq<Info>, b: seq<Info>, xs: seq<nat>) {
    |a| == |b| && forall x :: x in xs ==> x < |a| && a[x] == b[x]
  }

  lemma SameAtStart(infos: seq<Info>, xs: seq<nat>)
    requires forall x :: x in xs ==> x < |infos|
    ensures SameAt(infos, infos, xs[0..])
  {
  }

  lemma SameHere(a: seq<Info>, b: seq<Info>, xs: seq<nat>, j: nat)
    requires j < |xs| && SameAt(a, b, xs[j..])
    ensures xs[j] < |a| == |b| && a[xs[j]] == b[xs[j]]
  {
    assert xs[j..][0] == xs[j] && xs[j] in xs[j..];
  }

  lemma SameFurther(a: seq<Info>, b: seq<Info>, c: seq<Info>, xs: seq<nat>, j: nat)
    requires j < |xs| && SameAt(a, b, xs[j..]) && Distinct(xs)
    requires |c| == |b| && forall y :: 0 <= y < |c| && y != xs[j] ==> c[y] == b[y]
    ensures SameAt(a, c, xs[j + 1..])
  {
    forall x | x in xs[j + 1..] ensures x < |a| && a[x] == c[x] {
      var l :| 0 <= l < |xs[j + 1..]| && xs[j + 1..][l] == x;
      assert xs[j + 1 + l] == x && xs[j..][1 + l] == x && x in xs[j..] && xs[j] != x;
    }
  }

  /** The first j outputs have been written. */
  ghost predicate Partway(m: Model, i0: seq<Info>, m0: Memory, n0: nat, infos: seq<Info>, memory: Memory, next: nat,
                          env: Env, outputs: seq<nat>, values: seq<Bytes>, j: nat, rem: seq<Operation>, again: bool)
    requires |outputs| == |values|
  {
    && j <= |outputs| && Running(m, infos, memory, next, Bind(env, outputs[..j], values[..j]), rem, again)
    && Framed(i0, m0, n0, infos, memory, next) && SameAt(i0, infos, outputs[j..])
  }

  lemma NothingWritten(m: Model, i0: seq<Info>, m0: Memory, n0: nat, env: Env, outputs: seq<nat>, values: seq<Bytes>, rem: seq<Operation>, again: bool)
    requires Running(m, i0, m0, n0, env, rem, again) && |outputs| == |values| && forall x :: x in outputs ==> x < |i0|
    ensures Partway(m, i0, m0, n0, i0, m0, n0, env, outputs, values, 0, rem, again)
  {
    NothingFramed(i0, m0, n0);
    BindNone(env, outputs, values);
    SameAtStart(i0, outputs);
    hide Running, Framed, SameAt, Bind;
  }

  lemma NextIsUnwritten(m: Model, i0: seq<Info>, m0: Memory, n0: nat, infos: seq<Info>, memory: Memory, next: nat,
                        env: Env, outputs: seq<nat>, values: seq<Bytes>, j: nat, rem: seq<Operation>, again: bool)
    requires |outputs| == |values| && j < |outputs| && Distinct(outputs)
    requires forall x :: x in outputs ==> x < |i0| && IsOwn(i0[x].lifetime) && x !in env
    requires Partway(m, i0, m0, n0, infos, memory, next, env, outputs, values, j, rem, again)
    ensures outputs[j] < |infos| && IsOwn(infos[outputs[j]].lifetime) && outputs[j] !in Bind(env, outputs[..j], values[..j])
    ensures Running(m, infos, memory, next, Bind(env, outputs[..j], values[..j]), rem, again)
  {
    hide Running, Framed, IsOwn, SameAt;
    assert outputs[j] in outputs && outputs[j] !in outputs[..j];
    SameHere(i0, infos, outputs, j);
    BindKeys(env, outputs[..j], values[..j]);
  }

  lemma OneMoreWritten(m: Model, i0: seq<Info>, m0: Memory, n0: nat, i1: seq<Info>, m1: Memory, n1: nat, infos: seq<Info>, memory: Memory, next: nat,
                       env: Env, outputs: seq<nat>, values: seq<Bytes>, j: nat, rem: seq<Operation>, again: bool)
    requires |outputs| == |values| && j < |outputs| && Distinct(outputs)
    requires Partway(m, i0, m0, n0, i1, m1, n1, env, outputs, values, j, rem, again) && Running(m, i0, m0, n0, env, rem, again)
    requires Running(m, infos, memory, next, Bind(env, outputs[..j], values[..j])[outputs[j] := values[j]], rem, again)
    requires Framed(i1, m1, n1, infos, memory, next)
    requires |infos| == |i1| && forall y :: 0 <= y < |infos| && y != outputs[j] ==> infos[y] == i1[y]
    ensures Partway(m, i0, m0, n0, infos, memory, next, env, outputs, values, j + 1, rem, again)
  {
    hide Running, Framed, SameAt, Bind, Distinct;
    SameFurther(i0, i1, infos, outputs, j);
    Composed(i0, m0, n0, i1, m1, n1, infos, memory, next, m, env, rem, again);
    BindOneMore(env, outputs, values, j);
  }

  lemma BindOneMore(env: Env, ks: seq<nat>, vs: seq<Bytes>, j: nat)
    requires |ks| == |vs| && j < |ks|
    ensures Bind(env, ks[..j + 1], vs[..j + 1]) == Bind(env, ks[..j], vs[..j])[ks[j] := vs[j]]
  {
    hide Bind;
    assert ks[..j + 1] == ks[..j] + [ks[j]] && vs[..j + 1] == vs[..j] + [vs[j]];
    BindAppend(env, ks[..j], vs[..j], ks[j], vs[j]);
  }

  lemma AllAreWritten(m: Model, i0: seq<Info>, m0: Memory, n0: nat, infos: seq<Info>, memory: Memory, next: nat,
                      env: Env, outputs: seq<nat>, values: seq<Bytes>, rem: seq<Operation>, again: bool)
    requires |outputs| == |values| && Partway(m, i0, m0, n0, infos, memory, next, env, outputs, values, |outputs|, rem, again)
    ensures Running(m, infos, memory, next, Bind(env, outputs, values), rem, again) && Framed(i0, m0, n0, infos, memory, next)
  {
    hide Running, Framed, SameAt, Bind;
    assert outputs[..|outputs|] == outputs && values[..|values|] == values;
  }

  // ----- loops -----

  lemma TempsAreLive(m0: Memory, n0: nat, memory: Memory, next: nat, temps: set<nat>, outs: set<nat>, rest: set<nat>)
    requires Split(m0, n0, memory, next, temps + outs, rest)
    ensures temps <= memory.Keys && Allocated(memory, next)
  {
  }

  lemma RestIsLive(m0: Memory, n0: nat, memory: Memory, next: nat, own: set<nat>, rest: set<nat>)
    requires Split(m0, n0, memory, next, own, rest)
    ensures rest <= memory.Keys
  {
  }

  lemma ReenteredPointers(t: Model, before: seq<Info>, infos: seq<Info>, ins: seq<Pointer>, outs: seq<Pointer>, again: bool)
    requires ShallowValid(t) && Reentered(t, before, infos, ins, outs) && Prepared(t, before, again)
    ensures Fits(t, infos) && HasConstants(t, infos)
    ensures (forall i :: 0 <= i < |t.inputIndexes| ==> t.inputIndexes[i] < |infos| && t.operands[t.inputIndexes[i]].lifetime == SubgraphInput)
    ensures (forall j :: 0 <= j < |t.outputIndexes| ==> t.outputIndexes[j] < |infos| && t.operands[t.outputIndexes[j]].lifetime == SubgraphOutput)
    ensures PointersOf(infos, t.inputIndexes) == ins && PointersOf(infos, t.outputIndexes) == outs
  {
    assert forall i :: 0 <= i < |t.inputIndexes| ==> t.inputIndexes[i] in t.inputIndexes;
    assert forall j :: 0 <= j < |t.outputIndexes| ==> t.outputIndexes[j] in t.outputIndexes;
  }

  lemma ReturnedContents(t: Model, infos: seq<Info>, memory: Memory, next: nat, results: seq<Bytes>)
    requires Returned(t, infos, memory, next, results)
    ensures |results| == |t.outputIndexes|
    ensures forall j :: 0 <= j < |results| ==> t.outputIndexes[j] < |infos| && Contents(infos[t.outputIndexes[j]].pointer, memory) == results[j]
  {
  }

  lemma RemovedId(buffers: seq<Pointer>, j: nat)
    requires j < |buffers| && OwnPointers(buffers) && buffers[j].Heap?
    ensures OwnPointers(buffers[j := Null]) && IdsOf(buffers[j := Null]) == IdsOf(buffers) - {buffers[j].id}
  {
    var after := buffers[j := Null];
    forall b ensures b in IdsOf(after) <==> b in IdsOf(buffers) && b != buffers[j].id {
      if b in IdsOf(buffers) && b != buffers[j].id {
        var l := IdComesFrom(buffers, b);
        IdIsIn(after, l);
      }
      if b in IdsOf(after) {
        var l := IdComesFrom(after, b);
        IdIsIn(buffers, l);
      }
    }
  }

  lemma OneMoreId(buffers: seq<Pointer>, j: nat)
    requires j < |buffers| && OwnPointers(buffers)
    ensures IdsOf(buffers[..j + 1]) == IdsOf(buffers[..j]) + if buffers[j].Heap? then {buffers[j].id} else {}
    ensures buffers[j].Heap? ==> buffers[j].id !in IdsOf(buffers[..j])
    ensures !buffers[j].Static?
  {
    var front, all := buffers[..j], buffers[..j + 1];
    forall b ensures b in IdsOf(all) <==> b in IdsOf(front) || buffers[j] == Heap(b) {
      if b in IdsOf(front) {
        var l := IdComesFrom(front, b);
        IdIsIn(all, l);
      }
      if buffers[j] == Heap(b) { IdIsIn(all, j); }
      if b in IdsOf(all) {
        var l := IdComesFrom(all, b);
        if l < j { IdIsIn(front, l); }
      }
    }
  }

  lemma PreparedFits(t: Model, infos: seq<Info>, again: bool)
    requires Prepared(t, infos, again)
    ensures Fits(t, infos)
  {
  }

  /** The condition's inputs are set without touching its own buffers. */
  lemma ConditionIsReady(k: Kernels, sizes: Sizes, c: Model, b: Model, m0: Memory, n0: nat, cond0: seq<Info>, body: seq<Info>, conditionBuffer: nat,
                         current: seq<Pointer>, previous: seq<Pointer>, memory: Memory, next: nat, pointers: seq<Pointer>, state: seq<Bytes>,
                         iteration: nat, cond: seq<Info>)
    requires AtHead(c, b, m0, n0, memory, next, cond0, body, conditionBuffer, current, previous, pointers, state, iteration)
    requires ReadyLoop(k, sizes, c, b, cond0, body, current, previous, memory, next, state)
    requires ListsLifetime(c.inputIndexes, c.operands, SubgraphInput) && |b.outputIndexes| <= |c.inputIndexes|
    requires if iteration == 0 then cond == cond0
             else (forall j :: 0 <= j < |b.outputIndexes| ==> b.outputIndexes[j] < |body|)
                  && Repointed(cond0, c.inputIndexes[..|b.outputIndexes|], PointersOf(body, b.outputIndexes), cond)
    ensures ReadyPart(k, sizes, c, cond, memory, next, state)
  {
    if iteration != 0 {
      PreparedFits(c, cond0, true);
      hide Roomy, Repointed, Sizable, Buffers, ListsLifetime;
      var xs := c.inputIndexes[..|b.outputIndexes|];
      assert forall j :: 0 <= j < |xs| ==> xs[j] in c.inputIndexes;
      InputsRepointed(sizes, c, cond0, xs, PointersOf(body, b.outputIndexes), cond, memory, next);
    }
  }

  lemma StateHasSizes(k: Kernels, sizes: Sizes, c: Model, b: Model, cond: seq<Info>, body: seq<Info>, current: seq<Pointer>, previous: seq<Pointer>,
                      memory: Memory, next: nat, state: seq<Bytes>)
    requires ReadyLoop(k, sizes, c, b, cond, body, current, previous, memory, next, state)
    ensures HaveSizes(sizes, c, c.inputIndexes, state)
  {
  }

  lemma DistinctOutputs(op: Operation, env: Env)
    requires IsNext(op, env)
    ensures Distinct(op.outputs) && Knows(env, op.inputs)
  {
  }

  lemma NextKnows(op: Operation, env: Env)
    requires IsNext(op, env)
    ensures Knows(env, op.inputs) && Distinct(op.outputs) && forall x :: x in op.outputs ==> x !in env
  {
  }

  lemma ReferredWhile(m: Model, i: nat)
    requires Runnable(m) && i < |m.operations| && m.operations[i].placement.InterpretWhile?
    ensures var op := m.operations[i];
            var c, b := op.placement.condModel, op.placement.bodyModel;
            && Runnable(c) && Runnable(b) && ShallowValid(c) && |op.inputs| >= WHILE_FIRST_INPUT
            && |c.inputIndexes| == |b.inputIndexes| == |op.inputs| - WHILE_FIRST_INPUT && |c.outputIndexes| == 1
            && |op.outputs| <= |b.outputIndexes| <= |b.inputIndexes|
  {
    assert OperationFits(m.operations[i], m.operands) && RunnablePlacement(m.operations[i].placement);
  }

  lemma IterateStops(k: Kernels, n: nat, fuel: nat, op: Operation, state: seq<Bytes>, value: Bytes)
    requires n > 0 && op.placement.InterpretWhile? && RunModel(k, fuel, op.placement.condModel, state) == Done([value]) && !IsTrue(value)
    requires |op.outputs| <= |state|
    ensures Iterate(k, n, fuel, op, state) == Done(state[..|op.outputs|])
  {
    hide RunModel;
  }

  lemma IterateGoesOn(k: Kernels, n: nat, fuel: nat, op: Operation, state: seq<Bytes>, value: Bytes, results: seq<Bytes>)
    requires n > 0 && op.placement.InterpretWhile? && RunModel(k, fuel, op.placement.condModel, state) == Done([value]) && IsTrue(value)
    requires RunModel(k, fuel, op.placement.bodyModel, state) == Done(results) && |results| <= |state|
    ensures Iterate(k, n, fuel, op, state) == Iterate(k, n - 1, fuel, op, results + state[|results|..])
  {
    hide RunModel;
  }

  lemma FrontIsDistinct(c: Model, nb: nat)
    requires ShallowValid(c) && nb <= |c.inputIndexes|
    ensures Indexes(c.inputIndexes[..nb], |c.operands|)
  {
    IndexesAreDistinct(c);
  }

  lemma ConditionPart(c: Model, b: Model, m0: Memory, n0: nat, memory: Memory, next: nat, cond: seq<Info>, body: seq<Info>, conditionBuffer: nat,
                      current: seq<Pointer>, previous: seq<Pointer>, again: bool, pointers: seq<Pointer>)
    requires Buffers(c, b, m0, n0, memory, next, cond, body, conditionBuffer, current, previous, again, again) && ShallowValid(c)
    requires (forall i :: 0 <= i < |c.inputIndexes| ==> c.inputIndexes[i] < |cond|) && PointersOf(cond, c.inputIndexes) == pointers
    ensures Prepared(c, cond, again) && Reentered(c, cond, cond, pointers, [Heap(conditionBuffer)])
    ensures Split(m0, n0, memory, next, TempIds(cond) + IdsOf([Heap(conditionBuffer)]), TempIds(body) + IdsOf(current) + IdsOf(previous))
    ensures TempIds(cond) !! IdsOf([Heap(conditionBuffer)]) && OwnPointers([Heap(conditionBuffer)])
    ensures |c.outputIndexes| == 1
  {
    OneId(conditionBuffer);
    hide TempIds, IdsOf, Split, OwnPointers, ShallowValid, Counting;
    assert PointersOf(cond, c.outputIndexes) == [Heap(conditionBuffer)];
  }

  lemma StateIn(b: Model, m0: Memory, memory: Memory, previous: seq<Pointer>, pointers: seq<Pointer>, state: seq<Bytes>, iteration: nat, ids: set<nat>)
    requires StateIsHeld(b, m0, memory, previous, pointers, state, iteration) && IdsOf(previous) <= ids
    ensures Holds(pointers, state, memory, m0.Keys + ids)
  {
    HoldsMore(pointers, state, memory, m0.Keys + IdsOf(previous), m0.Keys + ids);
  }

  lemma StateStays(b: Model, m0: Memory, memory: Memory, previous: seq<Pointer>, pointers: seq<Pointer>, state: seq<Bytes>, iteration: nat, ids: set<nat>, memory': Memory)
    requires StateIsHeld(b, m0, memory, previous, pointers, state, iteration) && Holds(pointers, state, memory', m0.Keys + ids)
    ensures StateIsHeld(b, m0, memory', previous, pointers, state, iteration)
  {
    hide IdsOf, Contents;
  }

  lemma ConditionIsRead(c: Model, cond: seq<Info>, conditionBuffer: nat, m0: Memory, n0: nat, memory: Memory, next: nat, rest: set<nat>)
    requires |c.outputIndexes| == 1 && c.outputIndexes[0] < |cond| && cond[c.outputIndexes[0]].pointer == Heap(conditionBuffer)
    requires Split(m0, n0, memory, next, TempIds(cond) + IdsOf(PointersOf(cond, c.outputIndexes)), rest)
    ensures PointersOf(cond, c.outputIndexes) == [Heap(conditionBuffer)] && conditionBuffer in memory
  {
    OneId(conditionBuffer);
    assert PointersOf(cond, c.outputIndexes) == [Heap(conditionBuffer)];
    assert conditionBuffer in TempIds(cond) + IdsOf([Heap(conditionBuffer)]);
    hide TempIds, IdsOf;
  }

  lemma BodyIsReady(c: Model, b: Model, m0: Memory, n0: nat, memory: Memory, next: nat, cond: seq<Info>, body: seq<Info>, conditionBuffer: nat,
                    current: seq<Pointer>, previous: seq<Pointer>, again: bool)
    requires Buffers(c, b, m0, n0, memory, next, cond, body, conditionBuffer, current, previous, true, again)
    ensures Prepared(b, body, again) && |current| == |b.outputIndexes| && OwnPointers(current) && IdsOf(current) <= memory.Keys
    ensures TempIds(body) !! IdsOf(current) && |body| == |b.operands|
  {
    hide TempIds, IdsOf, OwnPointers, Prepared;
  }

  lemma AfterReset(m0: Memory, n0: nat, memory: Memory, next: nat, temps: set<nat>, outs: set<nat>, rest: set<nat>, freed: set<nat>, pointers: seq<Pointer>, state: seq<Bytes>)
    requires Split(m0, n0, memory, next, temps + outs, rest) && freed <= outs && temps !! outs && Holds(pointers, state, memory, m0.Keys + rest)
    ensures Split(m0, n0, memory - freed, next, temps + (outs - freed), rest) && Holds(pointers, state, memory - freed, m0.Keys + rest)
  {
    PartIsFreed(m0, n0, memory, next, temps + outs, rest, freed);
    assert temps + outs - freed == temps + (outs - freed);
    StillHolds(pointers, state, m0, n0, memory, next, temps + outs, memory - freed, next, temps + (outs - freed), rest);
  }

  lemma BothSet(b: Model, body0: seq<Info>, half: seq<Info>, body: seq<Info>, ins: seq<Pointer>, outs: seq<Pointer>, again: bool)
    requires ShallowValid(b) && Prepared(b, body0, again)
    requires Repointed(body0, b.inputIndexes, ins, half) && Repointed(half, b.outputIndexes, outs, body)
    ensures Reentered(b, body0, body, ins, outs)
  {
    IndexesAreDistinct(b);
    SameButPointers(body0, b.inputIndexes, ins, half);
    SameButPointers(half, b.outputIndexes, outs, body);
    hide ShallowValid, Counting;
    forall i | 0 <= i < |ins| ensures body[b.inputIndexes[i]].pointer == ins[i] {
      assert b.inputIndexes[i] in b.inputIndexes && b.inputIndexes[i] !in b.outputIndexes;
    }
  }

  lemma Everything(m0: Memory, n0: nat, memory: Memory, next: nat, own: set<nat>, rest: set<nat>)
    requires Split(m0, n0, memory, next, own, rest)
    ensures Split(m0, n0, memory, next, own + rest, {}) && own !! rest
  {
    Regroup(m0, n0, memory, next, own, rest, own + rest, {});
  }

  lemma LoopCanBeFreed(c: Model, b: Model, cond: seq<Info>, body: seq<Info>, condAgain: bool, bodyAgain: bool)
    requires Prepared(c, cond, condAgain) && Prepared(b, body, bodyAgain)
    ensures Sweepable(cond) && Sweepable(body)
  {
  }

  lemma BuffersAreKept(outputs: seq<Pointer>, m0: Memory, n0: nat, m1: Memory, n1: nat)
    requires Handed(outputs, m0, n0, outputs, m1, n1) && forall j :: 0 <= j < |outputs| ==> IsLive(outputs[j], m0)
    ensures m1.Keys == m0.Keys
  {
    assert IdsOf(outputs) <= m0.Keys;
    hide IdsOf;
    forall b ensures b in m1 <==> b in m0 {
      assert b in m1.Keys - IdsOf(outputs) <==> b in m0.Keys - IdsOf(outputs);
    }
  }
}
