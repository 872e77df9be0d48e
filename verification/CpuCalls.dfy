/** Calling a subgraph on the CPU: its inputs and outputs share the buffers of operands of
    the caller, and nothing else does. */
module CpuCalls {
  import opened Models
  import opened Semantics
  import opened Graphs
  import opened CpuMemories

  /** What validation promises of a model and of the models it refers to. */
  ghost predicate Runnable(m: Model) {
    && ShallowValid(m) && CountsConsumers(m)
    && forall i :: 0 <= i < |m.operations| ==> RunnablePlacement(m.operations[i].placement)
  }

  ghost predicate RunnablePlacement(p: Placement) {
    match p
    case OnDevice(_) => true
    case InterpretIf(t, e) => Runnable(t) && Runnable(e)
    case InterpretWhile(c, b) => Runnable(c) && Runnable(b)
  }

  /** The operation can run in the environment. */
  ghost predicate IsNext(op: Operation, env: Env) {
    Knows(env, op.inputs) && Distinct(op.outputs) && forall x :: x in op.outputs ==> x !in env
  }

  // ----- pointers that are passed -----

  ghost predicate Indexes(xs: seq<nat>, n: nat) {
    Distinct(xs) && forall j :: 0 <= j < |xs| ==> xs[j] < n
  }

  /** `infos` is `infos0` with the pointers of `xs` replaced. */
  ghost predicate Repointed(infos0: seq<Info>, xs: seq<nat>, pointers: seq<Pointer>, infos: seq<Info>)
    ensures Repointed(infos0, xs, pointers, infos) ==> |infos| == |infos0| && |pointers| == |xs|
  {
    && |infos| == |infos0| && |pointers| == |xs| && Indexes(xs, |infos|)
    && (forall x: nat :: x < |infos| && x !in xs ==> infos[x] == infos0[x])
    && (forall j :: 0 <= j < |xs| ==> infos[xs[j]] == infos0[xs[j]].(pointer := pointers[j]))
  }

  function PointersOf(infos: seq<Info>, xs: seq<nat>): (r: seq<Pointer>)
    requires forall j :: 0 <= j < |xs| ==> xs[j] < |infos|
    ensures |r| == |xs| && forall j :: 0 <= j < |xs| ==> r[j] == infos[xs[j]].pointer
  {
    seq(|xs|, j requires 0 <= j < |xs| => infos[xs[j]].pointer)
  }

  ghost function IdsOf(pointers: seq<Pointer>): set<nat> {
    set j | 0 <= j < |pointers| && pointers[j].Heap? :: pointers[j].id
  }

  lemma IdIsIn(pointers: seq<Pointer>, j: nat)
    requires j < |pointers| && pointers[j].Heap?
    ensures pointers[j].id in IdsOf(pointers)
  {
  }

  /** The buffers are all different. */
  ghost predicate Separate(pointers: seq<Pointer>) {
    forall i, j :: 0 <= i < j < |pointers| && pointers[i].Heap? ==> pointers[i] != pointers[j]
  }

  ghost function TempIds(infos: seq<Info>): set<nat> {
    set x | 0 <= x < |infos| && IsTemp(infos, x) && infos[x].pointer.Heap? :: infos[x].pointer.id
  }

  lemma TempIdIsIn(infos: seq<Info>, x: nat)
    requires IsTemp(infos, x) && infos[x].pointer.Heap?
    ensures infos[x].pointer.id in TempIds(infos)
  {
  }

  lemma IdComesFrom(pointers: seq<Pointer>, b: nat) returns (j: nat)
    requires b in IdsOf(pointers)
    ensures j < |pointers| && pointers[j] == Heap(b)
  {
    j :| 0 <= j < |pointers| && pointers[j].Heap? && pointers[j].id == b;
  }

  lemma OwnIdComesFrom(infos: seq<Info>, b: nat) returns (x: nat)
    requires b in OwnIds(infos)
    ensures x < |infos| && IsOwn(infos[x].lifetime) && infos[x].pointer == Heap(b)
  {
    x :| 0 <= x < |infos| && IsOwn(infos[x].lifetime) && infos[x].pointer.Heap? && infos[x].pointer.id == b;
  }

  /** The own buffers of a subgraph are those of its temporaries and of its outputs. */
  lemma OwnIdsSplit(t: Model, infos: seq<Info>, memory: Memory)
    requires Fits(t, infos) && ListsLifetime(t.outputIndexes, t.operands, SubgraphOutput)
    ensures Indexes(t.outputIndexes, |infos|)
    ensures OwnIds(infos) == TempIds(infos) + IdsOf(PointersOf(infos, t.outputIndexes))
    ensures Tidy(infos, memory) ==> TempIds(infos) !! IdsOf(PointersOf(infos, t.outputIndexes)) && Separate(PointersOf(infos, t.outputIndexes))
  {
    forall j | 0 <= j < |t.outputIndexes| ensures t.outputIndexes[j] < |infos| && infos[t.outputIndexes[j]].lifetime == SubgraphOutput {
      assert t.outputIndexes[j] in t.outputIndexes;
    }
    var outs := PointersOf(infos, t.outputIndexes);
    forall b | b in OwnIds(infos) ensures b in TempIds(infos) || b in IdsOf(outs) {
      var x := OwnIdComesFrom(infos, b);
      if !IsTemp(infos, x) {
        assert x in t.outputIndexes;
        var j :| 0 <= j < |t.outputIndexes| && t.outputIndexes[j] == x;
        IdIsIn(outs, j);
      }
    }
    forall b | b in TempIds(infos) ensures b in OwnIds(infos) {
      var x :| 0 <= x < |infos| && IsTemp(infos, x) && infos[x].pointer.Heap? && infos[x].pointer.id == b;
      OwnIdsAt(infos, x);
    }
    forall b | b in IdsOf(outs) ensures b in OwnIds(infos) {
      var j := IdComesFrom(outs, b);
      OwnIdsAt(infos, t.outputIndexes[j]);
    }
    if Tidy(infos, memory) {
      forall b | b in TempIds(infos) ensures b !in IdsOf(outs) {
        var x :| 0 <= x < |infos| && IsTemp(infos, x) && infos[x].pointer.Heap? && infos[x].pointer.id == b;
        assert forall j :: 0 <= j < |outs| ==> outs[j] != infos[x].pointer;
      }
    }
  }

  // ----- entering a subgraph for the first time -----

  /** The operands of a subgraph that points to the caller's buffers. */
  ghost predicate Entered(t: Model, infos: seq<Info>, ins: seq<Pointer>, outs: seq<Pointer>)
    ensures Entered(t, infos, ins, outs) ==> |infos| == |t.operands|
  {
    && |infos| == |t.operands| && |ins| == |t.inputIndexes| && |outs| == |t.outputIndexes|
    && (forall x :: 0 <= x < |infos| && infos[x].lifetime != SubgraphInput && infos[x].lifetime != SubgraphOutput ==>
          infos[x] == Initialized(t.operands[x]))
    && (forall x :: 0 <= x < |infos| ==> infos[x].lifetime == t.operands[x].lifetime && infos[x].usesLeft == Initialized(t.operands[x]).usesLeft)
    && (forall i :: 0 <= i < |ins| ==> t.inputIndexes[i] < |infos| && infos[t.inputIndexes[i]].pointer == ins[i])
    && (forall j :: 0 <= j < |outs| ==> t.outputIndexes[j] < |infos| && infos[t.outputIndexes[j]].pointer == outs[j])
  }

  /** The pointers that are passed: inputs hold the arguments, and the buffers of outputs
      are different from each other and from those of inputs. */
  ghost predicate MayBePassed(ins: seq<Pointer>, outs: seq<Pointer>, memory: Memory, args: seq<Bytes>) {
    && |args| == |ins|
    && (forall i :: 0 <= i < |ins| ==> IsLive(ins[i], memory) && Contents(ins[i], memory) == args[i])
    && (forall j :: 0 <= j < |outs| ==> IsLive(outs[j], memory) && !outs[j].Static?)
    && Separate(outs)
    && (forall i, j :: 0 <= i < |ins| && 0 <= j < |outs| && outs[j].Heap? ==> ins[i] != outs[j])
  }

  // An operand is an input, an output, or neither.
  lemma Classify(t: Model, x: nat)
    requires ShallowValid(t) && x < |t.operands|
    ensures t.operands[x].lifetime == SubgraphInput ==> x in t.inputIndexes
    ensures t.operands[x].lifetime == SubgraphOutput ==> x in t.outputIndexes
  {
  }

  lemma EnteredIsTidy(t: Model, infos: seq<Info>, memory: Memory, ins: seq<Pointer>, outs: seq<Pointer>, args: seq<Bytes>)
    requires ShallowValid(t) && Entered(t, infos, ins, outs) && MayBePassed(ins, outs, memory, args)
    ensures Tidy(infos, memory)
  {
    hide ShallowValid, Contents;
    forall x: nat | x < |infos|
      ensures infos[x].lifetime == SubgraphInput ==> exists i :: 0 <= i < |ins| && t.inputIndexes[i] == x && infos[x].pointer == ins[i]
      ensures infos[x].lifetime == SubgraphOutput ==> exists j :: 0 <= j < |outs| && t.outputIndexes[j] == x && infos[x].pointer == outs[j]
    {
      Classify(t, x);
    }
    assert forall x :: 0 <= x < |infos| && infos[x].lifetime != SubgraphInput && infos[x].lifetime != SubgraphOutput ==> !infos[x].pointer.Heap?;
    assert forall x :: 0 <= x < |infos| && infos[x].lifetime == TemporaryVariable ==> infos[x].pointer == Null;
  }

  lemma EnteredIsCallable(t: Model, infos: seq<Info>, memory: Memory, next: nat, ins: seq<Pointer>, outs: seq<Pointer>, args: seq<Bytes>)
    requires ShallowValid(t) && CountsConsumers(t) && Entered(t, infos, ins, outs) && MayBePassed(ins, outs, memory, args) && Allocated(memory, next)
    ensures Callable(t, infos, memory, next, args, false)
    ensures OwnIds(infos) == IdsOf(outs) && TempIds(infos) == {}
  {
    EnteredIsTidy(t, infos, memory, ins, outs, args);
    forall x: nat | x < |infos| ensures infos[x].usesLeft == if IsTemp(infos, x) then Left(t.operations, x) else 0 {
      LeftIsUses(t.operations, x);
    }
    ListsOutputs(t);
    OwnIdsSplit(t, infos, memory);
    assert PointersOf(infos, t.outputIndexes) == outs;
    hide OwnIds, IdsOf, Left, ShallowValid, CountsConsumers, Tidy;
  }

  lemma ListsOutputs(t: Model)
    requires ShallowValid(t)
    ensures ListsLifetime(t.outputIndexes, t.operands, SubgraphOutput) && ListsLifetime(t.inputIndexes, t.operands, SubgraphInput)
  {
  }

  // ----- entering a subgraph again -----

  /** The operands after a run, with new pointers for inputs and outputs. */
  ghost predicate Reentered(t: Model, before: seq<Info>, infos: seq<Info>, ins: seq<Pointer>, outs: seq<Pointer>)
    ensures Reentered(t, before, infos, ins, outs) ==> |infos| == |t.operands|
  {
    && |infos| == |before| == |t.operands| && |ins| == |t.inputIndexes| && |outs| == |t.outputIndexes|
    && (forall x :: 0 <= x < |infos| && infos[x].lifetime != SubgraphInput && infos[x].lifetime != SubgraphOutput ==> infos[x] == before[x])
    && (forall x :: 0 <= x < |infos| ==> infos[x].lifetime == t.operands[x].lifetime == before[x].lifetime && infos[x].usesLeft == before[x].usesLeft)
    && (forall i :: 0 <= i < |ins| ==> t.inputIndexes[i] < |infos| && infos[t.inputIndexes[i]].pointer == ins[i])
    && (forall j :: 0 <= j < |outs| ==> t.outputIndexes[j] < |infos| && infos[t.outputIndexes[j]].pointer == outs[j])
  }

  /** What does not change between runs. */
  ghost predicate HasConstants(t: Model, infos: seq<Info>) {
    |infos| == |t.operands| &&
    forall x :: 0 <= x < |infos| && KnownInitially(infos[x].lifetime) && infos[x].lifetime != SubgraphInput ==>
      infos[x].pointer == if t.operands[x].value == [] then Null else Static(t.operands[x].value)
  }

  /** The buffers of temporaries are different from those that are passed. */
  ghost predicate Apart(ids: set<nat>, pointers: seq<Pointer>) {
    forall i :: 0 <= i < |pointers| && pointers[i].Heap? ==> pointers[i].id !in ids
  }

  /** The temporaries have buffers of their own. */
  ghost predicate TempsSeparate(infos: seq<Info>) {
    && (forall x :: 0 <= x < |infos| && IsTemp(infos, x) ==> !infos[x].pointer.Static?)
    && (forall x, y :: 0 <= x < y < |infos| && IsTemp(infos, x) && IsTemp(infos, y) && infos[x].pointer.Heap? ==> infos[x].pointer != infos[y].pointer)
  }

  /** A table that is ready for a run, but for the pointers that are passed. */
  ghost predicate Prepared(t: Model, infos: seq<Info>, again: bool)
    ensures Prepared(t, infos, again) ==> |infos| == |t.operands|
  {
    && Fits(t, infos) && HasConstants(t, infos) && TempsSeparate(infos)
    && if again then Counting(infos, [], true)
       else forall x :: 0 <= x < |infos| ==> infos[x].usesLeft == Initialized(t.operands[x]).usesLeft && (IsTemp(infos, x) ==> infos[x].pointer == Null)
  }

  lemma ReenteredIsTidy(t: Model, before: seq<Info>, infos: seq<Info>, memory: Memory, ins: seq<Pointer>, outs: seq<Pointer>, args: seq<Bytes>)
    requires ShallowValid(t) && Reentered(t, before, infos, ins, outs) && MayBePassed(ins, outs, memory, args)
    requires TempsSeparate(before) && TempIds(before) <= memory.Keys && HasConstants(t, before)
    requires Apart(TempIds(before), ins) && Apart(TempIds(before), outs)
    ensures Tidy(infos, memory)
  {
    hide ShallowValid, Contents;
    forall x: nat | x < |infos|
      ensures infos[x].lifetime == SubgraphInput ==> exists i :: 0 <= i < |ins| && t.inputIndexes[i] == x && infos[x].pointer == ins[i]
      ensures infos[x].lifetime == SubgraphOutput ==> exists j :: 0 <= j < |outs| && t.outputIndexes[j] == x && infos[x].pointer == outs[j]
      ensures IsTemp(infos, x) && infos[x].pointer.Heap? ==> infos[x].pointer.id in TempIds(before)
    {
      Classify(t, x);
      if IsTemp(infos, x) && infos[x].pointer.Heap? { TempIdIsIn(before, x); }
    }
    hide TempIds;
    assert forall x :: 0 <= x < |infos| && KnownInitially(infos[x].lifetime) && infos[x].lifetime != SubgraphInput ==> !infos[x].pointer.Heap?;
    assert forall x :: 0 <= x < |infos| && IsTemp(infos, x) ==> infos[x] == before[x];
  }

  /** A prepared table with its pointers passed is ready to run. */
  lemma PreparedIsCallable(t: Model, before: seq<Info>, infos: seq<Info>, memory: Memory, next: nat, ins: seq<Pointer>, outs: seq<Pointer>, args: seq<Bytes>, again: bool)
    requires ShallowValid(t) && CountsConsumers(t) && Prepared(t, before, again)
    requires Reentered(t, before, infos, ins, outs) && MayBePassed(ins, outs, memory, args) && Allocated(memory, next)
    requires TempIds(before) <= memory.Keys && Apart(TempIds(before), ins) && Apart(TempIds(before), outs)
    ensures Callable(t, infos, memory, next, args, again)
    ensures OwnIds(infos) == TempIds(before) + IdsOf(outs) && TempIds(infos) == TempIds(before)
  {
    ReenteredIsTidy(t, before, infos, memory, ins, outs, args);
    ListsOutputs(t);
    OwnIdsSplit(t, infos, memory);
    assert PointersOf(infos, t.outputIndexes) == outs;
    SameTempIds(before, infos);
    if !again {
      forall x: nat | x < |infos| ensures infos[x].usesLeft == if IsTemp(infos, x) then Left(t.operations, x) else 0 {
        LeftIsUses(t.operations, x);
      }
    }
    hide OwnIds, IdsOf, Left, ShallowValid, Tidy, TempIds, CountsConsumers;
  }

  lemma SameTempIds(a: seq<Info>, b: seq<Info>)
    requires |a| == |b| && forall x :: 0 <= x < |a| ==> a[x].lifetime == b[x].lifetime && (IsTemp(a, x) ==> a[x] == b[x])
    ensures TempIds(a) == TempIds(b)
  {
    forall c ensures c in TempIds(a) <==> c in TempIds(b) {
      if x: nat :| IsTemp(a, x) && a[x].pointer == Heap(c) { TempIdIsIn(b, x); }
      if x: nat :| IsTemp(b, x) && b[x].pointer == Heap(c) { TempIdIsIn(a, x); }
    }
  }

  /** A table that has run is prepared for the next run. */
  lemma ReturnedIsPrepared(t: Model, start: seq<Info>, m0: Memory, n0: nat, infos: seq<Info>, m1: Memory, n1: nat, results: seq<Bytes>)
    requires Returned(t, infos, m1, n1, results) && Framed(start, m0, n0, infos, m1, n1) && HasConstants(t, start)
    ensures Prepared(t, infos, true)
  {
    hide OwnIds, Contents;
  }

  // ----- returning to the caller -----

  lemma OwnIdsRepointed(infos0: seq<Info>, memory: Memory, outs: seq<nat>, pointers: seq<Pointer>, infos: seq<Info>)
    requires Tidy(infos0, memory) && Repointed(infos0, outs, pointers, infos)
    requires forall j :: 0 <= j < |outs| ==> outs[j] < |infos0| && IsOwn(infos0[outs[j]].lifetime)
    ensures OwnIds(infos) == OwnIds(infos0) - IdsOf(PointersOf(infos0, outs)) + IdsOf(pointers)
  {
    var old' := PointersOf(infos0, outs);
    forall b | b in OwnIds(infos) ensures (b in OwnIds(infos0) && b !in IdsOf(old')) || b in IdsOf(pointers) {
      var x := OwnIdComesFrom(infos, b);
      if x in outs {
        var j :| 0 <= j < |outs| && outs[j] == x;
        IdIsIn(pointers, j);
      } else {
        OwnIdsAt(infos0, x);
        NotPassed(infos0, memory, outs, x);
      }
    }
    forall b | b in OwnIds(infos0) ensures b in OwnIds(infos) || b in IdsOf(old') {
      var x := OwnIdComesFrom(infos0, b);
      if x in outs {
        var j :| 0 <= j < |outs| && outs[j] == x;
        IdIsIn(old', j);
      } else {
        OwnIdsAt(infos, x);
      }
    }
    forall b | b in IdsOf(pointers) ensures b in OwnIds(infos) {
      var j := IdComesFrom(pointers, b);
      OwnIdsAt(infos, outs[j]);
    }
  }

  /** Buffers that the caller did not pass as outputs are as they were; what the outputs
      point to now is new or was passed. */
  ghost predicate Handed(passed: seq<Pointer>, m0: Memory, n0: nat, returned: seq<Pointer>, m1: Memory, n1: nat) {
    && n0 <= n1 && Allocated(m1, n1)
    && (forall b :: b in m0 && b !in IdsOf(passed) ==> b in m1 && m1[b] == m0[b])
    && m1.Keys - IdsOf(returned) == m0.Keys - IdsOf(passed)
    && (forall b :: b in IdsOf(returned) ==> b in m1 && (b in IdsOf(passed) || b >= n0))
    && Separate(returned) && (forall j :: 0 <= j < |returned| ==> !returned[j].Static?)
    && |returned| == |passed| && (forall j :: 0 <= j < |passed| && passed[j].Heap? ==> returned[j] == passed[j])
  }

  /** The caller goes on with the outputs of the subgraph. */
  lemma OutputsReturn(m: Model, infos0: seq<Info>, m0: Memory, n0: nat, env: Env, rem: seq<Operation>, again: bool,
                      outs: seq<nat>, pointers: seq<Pointer>, infos: seq<Info>, m1: Memory, n1: nat, vals: seq<Bytes>)
    requires Running(m, infos0, m0, n0, env, rem, again) && Repointed(infos0, outs, pointers, infos)
    requires forall j :: 0 <= j < |outs| ==> outs[j] < |infos0| && IsOwn(infos0[outs[j]].lifetime) && outs[j] !in env
    requires Handed(PointersOf(infos0, outs), m0, n0, pointers, m1, n1)
    requires |vals| == |outs| && forall j :: 0 <= j < |outs| ==> Contents(pointers[j], m1) == vals[j]
    ensures Running(m, infos, m1, n1, Bind(env, outs, vals), rem, again)
    ensures Framed(infos0, m0, n0, infos, m1, n1)
  {
    hide OwnIds, IdsOf, Left, Tidy, Holding, Bind, Separate, Framed, FreedAtLastUse, Repointed, Contents;
    OthersAreKept(m, infos0, m0, n0, env, rem, again, outs, pointers, infos, m1, n1);
    TidyAfterReturn(infos0, m0, n0, outs, pointers, infos, m1, n1);
    SameButPointers(infos0, outs, pointers, infos);
    HoldingAfterReturn(infos0, m0, env, rem, again, outs, pointers, infos, m1, vals);
    if !again { FreedAfterReturn(m, infos0, env, rem, outs, infos, vals); }
    FramedAfterReturn(infos0, m0, n0, outs, pointers, infos, m1, n1);
  }

  lemma IdsAreOwn(infos: seq<Info>, outs: seq<nat>)
    requires forall j :: 0 <= j < |outs| ==> outs[j] < |infos| && IsOwn(infos[outs[j]].lifetime)
    ensures IdsOf(PointersOf(infos, outs)) <= OwnIds(infos)
  {
    forall b | b in IdsOf(PointersOf(infos, outs)) ensures b in OwnIds(infos) {
      var j := IdComesFrom(PointersOf(infos, outs), b);
      OwnIdsAt(infos, outs[j]);
    }
  }

  // Operands that are not outputs have not passed their buffers.
  lemma OthersAreKept(m: Model, infos0: seq<Info>, m0: Memory, n0: nat, env: Env, rem: seq<Operation>, again: bool,
                      outs: seq<nat>, pointers: seq<Pointer>, infos: seq<Info>, m1: Memory, n1: nat)
    requires Running(m, infos0, m0, n0, env, rem, again) && Repointed(infos0, outs, pointers, infos)
    requires forall j :: 0 <= j < |outs| ==> outs[j] < |infos0| && IsOwn(infos0[outs[j]].lifetime)
    requires Handed(PointersOf(infos0, outs), m0, n0, pointers, m1, n1)
    ensures forall x: nat :: x < |infos| && x !in outs ==>
              && infos[x] == infos0[x] && IsLive(infos[x].pointer, m1) && Contents(infos[x].pointer, m1) == Contents(infos0[x].pointer, m0)
  {
    forall x: nat | x < |infos| && x !in outs
      ensures infos[x] == infos0[x] && IsLive(infos[x].pointer, m1) && Contents(infos[x].pointer, m1) == Contents(infos0[x].pointer, m0)
    {
      if infos0[x].pointer.Heap? { NotPassed(infos0, m0, outs, x); }
    }
  }

  lemma NotPassed(infos: seq<Info>, memory: Memory, outs: seq<nat>, x: nat)
    requires Tidy(infos, memory) && x < |infos| && infos[x].pointer.Heap? && x !in outs
    requires forall j :: 0 <= j < |outs| ==> outs[j] < |infos| && IsOwn(infos[outs[j]].lifetime)
    ensures infos[x].pointer.id in memory && infos[x].pointer.id !in IdsOf(PointersOf(infos, outs))
  {
    assert forall j :: 0 <= j < |outs| ==> outs[j] in outs && infos[outs[j]].pointer != infos[x].pointer;
  }

  lemma TidyAfterReturn(infos0: seq<Info>, m0: Memory, n0: nat, outs: seq<nat>, pointers: seq<Pointer>, infos: seq<Info>, m1: Memory, n1: nat)
    requires Tidy(infos0, m0) && Allocated(m0, n0) && Repointed(infos0, outs, pointers, infos)
    requires forall j :: 0 <= j < |outs| ==> outs[j] < |infos0| && IsOwn(infos0[outs[j]].lifetime)
    requires Handed(PointersOf(infos0, outs), m0, n0, pointers, m1, n1)
    ensures Tidy(infos, m1)
  {
    forall x: nat | x < |infos|
      ensures x in outs ==> exists j :: 0 <= j < |outs| && outs[j] == x && infos[x].pointer == pointers[j]
      ensures x in outs && infos[x].pointer.Heap? ==> infos[x].pointer.id in m1
      ensures x !in outs && infos[x].pointer.Heap? ==> infos[x].pointer.id in m0 && infos[x].pointer.id in m1 && infos[x].pointer.id !in IdsOf(pointers)
      ensures x in outs && infos[x].pointer.Heap? ==> infos[x].pointer.id in IdsOf(pointers)
    {
      if x in outs {
        var j :| 0 <= j < |outs| && outs[j] == x;
        if pointers[j].Heap? { IdIsIn(pointers, j); }
      } else if infos[x].pointer.Heap? {
        NotPassed(infos0, m0, outs, x);
      }
    }
    hide IdsOf;
  }

  lemma FramedAfterReturn(infos0: seq<Info>, m0: Memory, n0: nat, outs: seq<nat>, pointers: seq<Pointer>, infos: seq<Info>, m1: Memory, n1: nat)
    requires Tidy(infos0, m0) && Repointed(infos0, outs, pointers, infos)
    requires forall j :: 0 <= j < |outs| ==> outs[j] < |infos0| && IsOwn(infos0[outs[j]].lifetime)
    requires Handed(PointersOf(infos0, outs), m0, n0, pointers, m1, n1)
    ensures Framed(infos0, m0, n0, infos, m1, n1)
  {
    OwnIdsRepointed(infos0, m0, outs, pointers, infos);
    SameButPointers(infos0, outs, pointers, infos);
    OwnIdsAreLive(infos0, m0);
    IdsAreOwn(infos0, outs);
    Differences(m0.Keys, m1.Keys, OwnIds(infos0), IdsOf(PointersOf(infos0, outs)), IdsOf(pointers));
    hide OwnIds, IdsOf, Tidy, Separate;
    forall x: nat | x < |infos|
      ensures x in outs ==> IsOwn(infos0[x].lifetime) && (infos0[x].pointer.Heap? ==> infos[x].pointer == infos0[x].pointer)
    {
      if x in outs { var j :| 0 <= j < |outs| && outs[j] == x; }
    }
  }

  lemma Differences(k0: set<nat>, k1: set<nat>, own: set<nat>, passed: set<nat>, returned: set<nat>)
    requires passed <= own && k1 - returned == k0 - passed
    ensures k1 - (own - passed + returned) == k0 - own
  {
    forall b ensures b in k1 - (own - passed + returned) <==> b in k0 - own {
      assert b in k1 - returned <==> b in k0 - passed;
    }
  }

  lemma SameButPointers(infos0: seq<Info>, outs: seq<nat>, pointers: seq<Pointer>, infos: seq<Info>)
    requires Repointed(infos0, outs, pointers, infos)
    ensures |infos| == |infos0|
    ensures forall x :: 0 <= x < |infos| ==> infos[x].lifetime == infos0[x].lifetime && infos[x].usesLeft == infos0[x].usesLeft
  {
    forall x: nat | x < |infos| ensures infos[x].lifetime == infos0[x].lifetime && infos[x].usesLeft == infos0[x].usesLeft {
      if x in outs { var j :| 0 <= j < |outs| && outs[j] == x; }
    }
  }

  lemma HoldingAfterReturn(infos0: seq<Info>, m0: Memory, env: Env, rem: seq<Operation>, again: bool,
                           outs: seq<nat>, pointers: seq<Pointer>, infos: seq<Info>, m1: Memory, vals: seq<Bytes>)
    requires Holding(infos0, m0, env, rem, again) && Repointed(infos0, outs, pointers, infos)
    requires forall x: nat :: x < |infos| && x !in outs ==>
               infos[x] == infos0[x] && Contents(infos[x].pointer, m1) == Contents(infos0[x].pointer, m0)
    requires |vals| == |outs| && forall j :: 0 <= j < |outs| ==> Contents(pointers[j], m1) == vals[j]
    ensures Holding(infos, m1, Bind(env, outs, vals), rem, again)
  {
    var env' := Bind(env, outs, vals);
    hide Bind, Left, Contents;
    forall x | x in env' ensures x < |infos| && (Needed(infos, rem, again, x) ==> Contents(infos[x].pointer, m1) == env'[x]) {
      if x in outs {
        var j :| 0 <= j < |outs| && outs[j] == x;
        assert env'[outs[j]] == vals[j];
      }
    }
  }

  lemma FreedAfterReturn(m: Model, infos0: seq<Info>, env: Env, rem: seq<Operation>, outs: seq<nat>, infos: seq<Info>, vals: seq<Bytes>)
    requires FreedAtLastUse(infos0, env, m.operations, rem) && |infos| == |infos0| && |vals| == |outs|
    requires forall x :: 0 <= x < |infos| ==> infos[x].lifetime == infos0[x].lifetime
    requires forall x: nat :: x < |infos| && x !in outs ==> infos[x] == infos0[x]
    requires forall j :: 0 <= j < |outs| ==> outs[j] !in env
    ensures FreedAtLastUse(infos, Bind(env, outs, vals), m.operations, rem)
  {
    hide Left, Bind;
    forall x: nat | IsTemp(infos, x) ensures IsTemp(infos0, x) && (x in outs ==> x !in env) {
      if x in outs { var j :| 0 <= j < |outs| && outs[j] == x; }
    }
  }

  // ----- the final sweep -----

  ghost predicate AllSwept(infos0: seq<Info>, infos: seq<Info>) {
    |infos| == |infos0| && forall x :: 0 <= x < |infos| ==> infos[x] == Swept(infos0[x])
  }

  // Temporaries that have a buffer have no uses left.
  ghost predicate Sweepable(infos: seq<Info>) {
    TempsSeparate(infos) && forall x :: 0 <= x < |infos| && IsTemp(infos, x) && infos[x].pointer.Heap? ==> infos[x].usesLeft == 0
  }

  lemma TidyIsSweepable(infos: seq<Info>, memory: Memory)
    requires Tidy(infos, memory) && Counting(infos, [], true)
    ensures Sweepable(infos) && TempIds(infos) <= memory.Keys
  {
  }

  /** The sweep frees exactly the buffers of temporaries. */
  lemma SweepKeeps(infos0: seq<Info>, memory: Memory, next: nat, infos: seq<Info>)
    requires Tidy(infos0, memory) && Allocated(memory, next) && Counting(infos0, [], true) && AllSwept(infos0, infos)
    ensures Tidy(infos, memory - TempIds(infos0)) && Framed(infos0, memory, next, infos, memory - TempIds(infos0), next)
    ensures OwnIds(infos) == OwnIds(infos0) - TempIds(infos0) && TempIds(infos) == {}
  {
    var m1 := memory - TempIds(infos0);
    forall x: nat | x < |infos|
      ensures IsTemp(infos0, x) ==> infos[x].pointer == Null
      ensures !IsTemp(infos0, x) ==> infos[x] == infos0[x] && (infos[x].pointer.Heap? ==> infos[x].pointer.id in m1)
    {
      if !IsTemp(infos0, x) && infos[x].pointer.Heap? { NotATemporarys(infos0, memory, x); }
    }
    forall b ensures b in OwnIds(infos) <==> b in OwnIds(infos0) && b !in TempIds(infos0) {
      if b in OwnIds(infos) {
        var x := OwnIdComesFrom(infos, b);
        OwnIdsAt(infos0, x);
      }
      if b in OwnIds(infos0) && b !in TempIds(infos0) {
        var x := OwnIdComesFrom(infos0, b);
        OwnIdsAt(infos, x);
      }
    }
    TempIdsAreOwn(infos0);
    OwnIdsAreLive(infos0, memory);
    assert TempIds(infos) == {};
    hide OwnIds, TempIds;
    Remaining(memory.Keys, OwnIds(infos0), TempIds(infos0));
  }

  lemma Remaining(keys: set<nat>, own: set<nat>, temps: set<nat>)
    requires temps <= own
    ensures keys - temps - (own - temps) == keys - own
  {
  }

  lemma TempIdsAreOwn(infos: seq<Info>)
    ensures TempIds(infos) <= OwnIds(infos)
  {
    forall b | b in TempIds(infos) ensures b in OwnIds(infos) {
      var x :| 0 <= x < |infos| && IsTemp(infos, x) && infos[x].pointer.Heap? && infos[x].pointer.id == b;
      OwnIdsAt(infos, x);
    }
  }

  lemma NotATemporarys(infos: seq<Info>, memory: Memory, x: nat)
    requires Tidy(infos, memory) && x < |infos| && !IsTemp(infos, x) && infos[x].pointer.Heap?
    ensures infos[x].pointer.id in memory && infos[x].pointer.id !in TempIds(infos)
  {
    assert forall y :: 0 <= y < |infos| && IsTemp(infos, y) && infos[y].pointer.Heap? ==> infos[y].pointer != infos[x].pointer;
  }
}
