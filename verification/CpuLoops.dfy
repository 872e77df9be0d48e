/** The buffers of a WHILE on the CPU: those of the condition and of the body, and two sets
    of buffers that take turns to hold the state. */
module CpuLoops {
  import opened Models
  import opened Semantics
  import opened CpuMemories
  import opened CpuCalls

  /** Since memory m0 the loop has allocated the buffers in `own` and in `rest`. */
  ghost predicate Split(m0: Memory, n0: nat, memory: Memory, next: nat, own: set<nat>, rest: set<nat>)
    ensures Split(m0, n0, memory, next, own, rest) ==> Allocated(memory, next) && own <= memory.Keys && rest <= memory.Keys
  {
    && n0 <= next && Allocated(m0, n0) && Allocated(memory, next)
    && (forall b :: b in m0 ==> b in memory && memory[b] == m0[b])
    && memory.Keys == m0.Keys + own + rest && own !! rest
    && (forall b :: b in own || b in rest ==> b >= n0)
  }

  lemma Regroup(m0: Memory, n0: nat, memory: Memory, next: nat, a: set<nat>, b: set<nat>, a': set<nat>, b': set<nat>)
    requires Split(m0, n0, memory, next, a, b) && a + b == a' + b' && a' !! b'
    ensures Split(m0, n0, memory, next, a', b')
  {
    forall x | x in a' || x in b' ensures x >= n0 { assert x in a + b; }
    assert m0.Keys + a + b == m0.Keys + (a + b) == m0.Keys + (a' + b') == m0.Keys + a' + b';
  }

  /** A run of a subgraph changes its own part only. */
  lemma PartRuns(m0: Memory, n0: nat, memory: Memory, next: nat, rest: set<nat>,
                 i0: seq<Info>, i1: seq<Info>, memory': Memory, next': nat)
    requires Split(m0, n0, memory, next, OwnIds(i0), rest) && Framed(i0, memory, next, i1, memory', next')
    requires Tidy(i1, memory') && Allocated(memory', next')
    ensures Split(m0, n0, memory', next', OwnIds(i1), rest)
    ensures forall b :: b in rest ==> memory'[b] == memory[b]
  {
    OwnIdsAreLive(i1, memory');
    hide OwnIds, Tidy;
    forall b ensures b in memory' <==> b in m0.Keys + OwnIds(i1) + rest {
      assert b in memory'.Keys - OwnIds(i1) <==> b in memory.Keys - OwnIds(i0);
    }
  }

  lemma PartIsFreed(m0: Memory, n0: nat, memory: Memory, next: nat, own: set<nat>, rest: set<nat>, freed: set<nat>)
    requires Split(m0, n0, memory, next, own, rest) && freed <= own
    ensures Split(m0, n0, memory - freed, next, own - freed, rest)
  {
  }

  /** Pointers that hold a state, in buffers among the given ones. */
  ghost predicate Holds(pointers: seq<Pointer>, state: seq<Bytes>, memory: Memory, ids: set<nat>) {
    |pointers| == |state| && forall i :: 0 <= i < |state| ==>
      && Contents(pointers[i], memory) == state[i]
      && (pointers[i].Heap? ==> pointers[i].id in ids && pointers[i].id in memory)
  }

  /** Pointers to different buffers. */
  ghost predicate OwnPointers(pointers: seq<Pointer>) {
    Separate(pointers) && forall j :: 0 <= j < |pointers| ==> !pointers[j].Static?
  }

  lemma StillHolds(pointers: seq<Pointer>, state: seq<Bytes>, m0: Memory, n0: nat, memory: Memory, next: nat, own: set<nat>,
                   memory': Memory, next': nat, own': set<nat>, rest: set<nat>)
    requires Holds(pointers, state, memory, m0.Keys + rest) && Split(m0, n0, memory, next, own, rest) && Split(m0, n0, memory', next', own', rest)
    requires forall b :: b in rest ==> memory'[b] == memory[b]
    ensures Holds(pointers, state, memory', m0.Keys + rest)
  {
    forall i | 0 <= i < |state| && pointers[i].Heap? ensures pointers[i].id in memory' && memory'[pointers[i].id] == memory[pointers[i].id] {
      assert pointers[i].id in m0 || pointers[i].id in rest;
    }
  }

  lemma HoldsIsPassable(ins: seq<Pointer>, state: seq<Bytes>, outs: seq<Pointer>, m0: Memory, n0: nat, memory: Memory, next: nat, temps: set<nat>, rest: set<nat>)
    requires Split(m0, n0, memory, next, temps + IdsOf(outs), rest) && temps !! IdsOf(outs)
    requires Holds(ins, state, memory, m0.Keys + rest) && OwnPointers(outs)
    ensures MayBePassed(ins, outs, memory, state) && Apart(temps, ins) && Apart(temps, outs)
  {
    forall j | 0 <= j < |outs| && outs[j].Heap? ensures outs[j].id in IdsOf(outs) { IdIsIn(outs, j); }
    hide IdsOf, Contents, Separate;
    forall i | 0 <= i < |ins| && ins[i].Heap? ensures ins[i].id !in temps + IdsOf(outs) {
      assert ins[i].id in m0 || ins[i].id in rest;
    }
  }

  lemma OneId(b: nat)
    ensures IdsOf([Heap(b)]) == {b} && OwnPointers([Heap(b)])
  {
    IdIsIn([Heap(b)], 0);
  }

  // After a run the inputs point where they did, and outputs kept their buffers.
  lemma PointersStay(t: Model, i0: seq<Info>, m0: Memory, n0: nat, i1: seq<Info>, m1: Memory, n1: nat)
    requires Framed(i0, m0, n0, i1, m1, n1) && Fits(t, i0)
    requires forall i :: 0 <= i < |t.inputIndexes| ==> t.inputIndexes[i] < |i0| && t.operands[t.inputIndexes[i]].lifetime == SubgraphInput
    requires forall j :: 0 <= j < |t.outputIndexes| ==> t.outputIndexes[j] < |i0| && t.operands[t.outputIndexes[j]].lifetime == SubgraphOutput
    ensures PointersOf(i1, t.inputIndexes) == PointersOf(i0, t.inputIndexes)
    ensures forall j :: 0 <= j < |t.outputIndexes| && i0[t.outputIndexes[j]].pointer.Heap? ==> i1[t.outputIndexes[j]].pointer == i0[t.outputIndexes[j]].pointer
  {
    hide OwnIds;
  }

  // After a run the own buffers are those of temporaries and outputs.
  lemma OwnAfterRun(t: Model, infos: seq<Info>, memory: Memory, next: nat, results: seq<Bytes>)
    requires ShallowValid(t) && Returned(t, infos, memory, next, results)
    ensures forall j :: 0 <= j < |t.outputIndexes| ==> t.outputIndexes[j] < |infos|
    ensures var outs := PointersOf(infos, t.outputIndexes);
            OwnIds(infos) == TempIds(infos) + IdsOf(outs) && TempIds(infos) !! IdsOf(outs) && OwnPointers(outs)
    ensures Tidy(infos, memory) && Allocated(memory, next)
  {
    ListsOutputs(t);
    OwnIdsSplit(t, infos, memory);
    hide OwnIds, IdsOf, TempIds, Contents, Separate, ShallowValid;
    forall j | 0 <= j < |t.outputIndexes| ensures t.outputIndexes[j] < |infos| && IsOwn(infos[t.outputIndexes[j]].lifetime) {
      assert t.outputIndexes[j] in t.outputIndexes;
    }
  }

  // ----- the caller while the loop runs -----

  /** The caller only depends on buffers that its operands point to. */
  lemma RunningElsewhere(m: Model, infos: seq<Info>, memory: Memory, next: nat, env: Env, rem: seq<Operation>, again: bool, memory': Memory, next': nat)
    requires Running(m, infos, memory, next, env, rem, again) && Allocated(memory', next')
    requires forall x :: 0 <= x < |infos| && infos[x].pointer.Heap? && infos[x].pointer.id in memory ==>
               infos[x].pointer.id in memory' && memory'[infos[x].pointer.id] == memory[infos[x].pointer.id]
    ensures Running(m, infos, memory', next', env, rem, again)
  {
    hide Left, OwnIds;
  }

  lemma RunningInLoop(m: Model, infos: seq<Info>, m0: Memory, n0: nat, env: Env, rem: seq<Operation>, again: bool, memory: Memory, next: nat, own: set<nat>, rest: set<nat>)
    requires Running(m, infos, m0, n0, env, rem, again) && Split(m0, n0, memory, next, own, rest)
    ensures Running(m, infos, memory, next, env, rem, again)
  {
    hide Running;
    RunningElsewhere(m, infos, m0, n0, env, rem, again, memory, next);
  }

  /** When the buffers of the loop are freed the caller goes on as if there had been none. */
  lemma LoopFramed(infos0: seq<Info>, m0: Memory, n0: nat, m1: Memory, n1: nat, loop: set<nat>, infos1: seq<Info>, m2: Memory, n2: nat)
    requires Split(m0, n0, m1, n1, loop, {}) && Framed(infos0, m1, n1, infos1, m2, n2)
    requires OwnIds(infos1) !! loop && OwnIds(infos0) !! loop
    ensures Framed(infos0, m0, n0, infos1, m2 - loop, n2)
  {
    hide OwnIds;
    forall b ensures b in (m2 - loop).Keys - OwnIds(infos1) <==> b in m0.Keys - OwnIds(infos0) {
      assert b in m2.Keys - OwnIds(infos1) <==> b in m1.Keys - OwnIds(infos0);
    }
  }

  lemma PointsElsewhere(infos0: seq<Info>, m0: Memory, n0: nat, m1: Memory, n1: nat, loop: set<nat>, infos1: seq<Info>, m2: Memory, n2: nat)
    requires Tidy(infos0, m0) && Split(m0, n0, m1, n1, loop, {}) && Framed(infos0, m1, n1, infos1, m2, n2)
    requires OwnIds(infos1) !! loop
    ensures forall x :: 0 <= x < |infos1| && infos1[x].pointer.Heap? ==> infos1[x].pointer.id !in loop
  {
    forall x | 0 <= x < |infos1| && infos1[x].pointer.Heap? ensures infos1[x].pointer.id !in loop {
      if IsOwn(infos1[x].lifetime) {
        OwnIdsAt(infos1, x);
      } else {
        assert infos1[x] == infos0[x] && IsLive(infos0[x].pointer, m0);
      }
    }
  }

  lemma LoopEnds(m: Model, infos0: seq<Info>, m0: Memory, n0: nat, env0: Env, rem: seq<Operation>, again: bool, m1: Memory, n1: nat, loop: set<nat>,
                 infos1: seq<Info>, m2: Memory, n2: nat, env1: Env)
    requires Running(m, infos0, m0, n0, env0, rem, again) && Split(m0, n0, m1, n1, loop, {})
    requires Framed(infos0, m1, n1, infos1, m2, n2) && Running(m, infos1, m2, n2, env1, rem, again)
    ensures loop <= m2.Keys
    ensures Running(m, infos1, m2 - loop, n2, env1, rem, again) && Framed(infos0, m0, n0, infos1, m2 - loop, n2)
  {
    LoopIsNotOurs(infos0, m0, n0, m1, n1, loop, infos1, m2, n2);
    PointsElsewhere(infos0, m0, n0, m1, n1, loop, infos1, m2, n2);
    LoopFramed(infos0, m0, n0, m1, n1, loop, infos1, m2, n2);
    assert Allocated(m2 - loop, n2);
    hide OwnIds, Framed, Split, Tidy;
    RunningElsewhere(m, infos1, m2, n2, env1, rem, again, m2 - loop, n2);
  }

  lemma LoopIsNotOurs(infos0: seq<Info>, m0: Memory, n0: nat, m1: Memory, n1: nat, loop: set<nat>, infos1: seq<Info>, m2: Memory, n2: nat)
    requires Tidy(infos0, m0) && Split(m0, n0, m1, n1, loop, {}) && Framed(infos0, m1, n1, infos1, m2, n2)
    ensures OwnIds(infos0) !! loop && OwnIds(infos1) !! loop && loop <= m2.Keys
  {
    OwnIdsAreLive(infos0, m0);
    hide OwnIds;
  }

  // ----- the state of the loop -----

  /** Before the condition is evaluated for the given time. The state is held by one of
      the two sets of buffers, or still by the caller. */
  ghost predicate AtHead(c: Model, b: Model, m0: Memory, n0: nat, memory: Memory, next: nat, cond: seq<Info>, body: seq<Info>, conditionBuffer: nat,
                         current: seq<Pointer>, previous: seq<Pointer>, pointers: seq<Pointer>, state: seq<Bytes>, iteration: nat)
    ensures AtHead(c, b, m0, n0, memory, next, cond, body, conditionBuffer, current, previous, pointers, state, iteration) ==> |cond| == |c.operands| && |body| == |b.operands|
  {
    && Buffers(c, b, m0, n0, memory, next, cond, body, conditionBuffer, current, previous, iteration != 0, iteration != 0)
    && StateIsHeld(b, m0, memory, previous, pointers, state, iteration)
    && |pointers| == |c.inputIndexes| && (forall i :: 0 <= i < |pointers| ==> c.inputIndexes[i] < |cond|)
    && (iteration == 0 ==> forall i :: 0 <= i < |pointers| ==> cond[c.inputIndexes[i]].pointer == pointers[i])
    && (iteration != 0 ==>
          && (forall j :: 0 <= j < |b.outputIndexes| ==> b.outputIndexes[j] < |body| && body[b.outputIndexes[j]].pointer == pointers[j])
          && (forall i :: |b.outputIndexes| <= i < |pointers| ==> cond[c.inputIndexes[i]].pointer == pointers[i]))
  }

  /** Who owns which buffer of the loop. */
  ghost predicate Buffers(c: Model, b: Model, m0: Memory, n0: nat, memory: Memory, next: nat, cond: seq<Info>, body: seq<Info>, conditionBuffer: nat,
                          current: seq<Pointer>, previous: seq<Pointer>, condAgain: bool, bodyAgain: bool)
    ensures Buffers(c, b, m0, n0, memory, next, cond, body, conditionBuffer, current, previous, condAgain, bodyAgain) ==> |cond| == |c.operands| && |body| == |b.operands|
  {
    && Prepared(c, cond, condAgain) && Prepared(b, body, bodyAgain)
    && |current| == |previous| == |b.outputIndexes| && OwnPointers(current) && OwnPointers(previous)
    && Split(m0, n0, memory, next, TempIds(cond) + {conditionBuffer}, TempIds(body) + IdsOf(current) + IdsOf(previous))
    && conditionBuffer !in TempIds(cond)
    && TempIds(body) !! IdsOf(current) && TempIds(body) !! IdsOf(previous) && IdsOf(current) !! IdsOf(previous)
    && |c.outputIndexes| == 1 && c.outputIndexes[0] < |cond| && cond[c.outputIndexes[0]].pointer == Heap(conditionBuffer)
  }

  ghost predicate StateIsHeld(b: Model, m0: Memory, memory: Memory, previous: seq<Pointer>, pointers: seq<Pointer>, state: seq<Bytes>, iteration: nat)
    ensures StateIsHeld(b, m0, memory, previous, pointers, state, iteration) ==> |pointers| == |state| && |b.outputIndexes| <= |pointers|
  {
    && Holds(pointers, state, memory, m0.Keys + IdsOf(previous)) && |b.outputIndexes| <= |pointers|
    && (iteration != 0 ==> pointers[..|b.outputIndexes|] == previous)
    && (forall i :: 0 <= i < |pointers| && pointers[i].Heap? && (iteration == 0 || i >= |b.outputIndexes|) ==> pointers[i].id in m0)
  }

  lemma HoldsMore(pointers: seq<Pointer>, state: seq<Bytes>, memory: Memory, ids: set<nat>, more: set<nat>)
    requires Holds(pointers, state, memory, ids) && ids <= more
    ensures Holds(pointers, state, memory, more)
  {
  }

  /** The inputs of the condition are set from the last outputs of the body. */
  lemma InputsAreSet(c: Model, b: Model, m0: Memory, n0: nat, memory: Memory, next: nat, cond: seq<Info>, body: seq<Info>, conditionBuffer: nat,
                     current: seq<Pointer>, previous: seq<Pointer>, pointers: seq<Pointer>, state: seq<Bytes>, iteration: nat, cond': seq<Info>)
    requires AtHead(c, b, m0, n0, memory, next, cond, body, conditionBuffer, current, previous, pointers, state, iteration) && ShallowValid(c)
    requires if iteration == 0 then cond' == cond
             else (forall j :: 0 <= j < |b.outputIndexes| ==> b.outputIndexes[j] < |body|) && |b.outputIndexes| <= |c.inputIndexes|
                  && Repointed(cond, c.inputIndexes[..|b.outputIndexes|], PointersOf(body, b.outputIndexes), cond')
    ensures Buffers(c, b, m0, n0, memory, next, cond', body, conditionBuffer, current, previous, iteration != 0, iteration != 0)
    ensures TempIds(cond') == TempIds(cond)
    ensures (forall i :: 0 <= i < |c.inputIndexes| ==> c.inputIndexes[i] < |cond'|) && PointersOf(cond', c.inputIndexes) == pointers
  {
    hide Split, IdsOf, Separate, OwnPointers, StateIsHeld, TempIds, Counting, Initialized;
    if iteration != 0 {
      var nb := |b.outputIndexes|;
      var ins := c.inputIndexes[..nb];
      SameButPointers(cond, ins, PointersOf(body, b.outputIndexes), cond');
      forall x | x in ins ensures x < |cond| && cond[x].lifetime == SubgraphInput {
        assert x in c.inputIndexes;
      }
      hide ShallowValid;
      forall x | 0 <= x < |cond| && cond[x].lifetime != SubgraphInput ensures cond'[x] == cond[x] {
        assert x !in ins;
      }
      SameTempIds(cond, cond');
      forall i | 0 <= i < |c.inputIndexes| ensures cond'[c.inputIndexes[i]].pointer == pointers[i] {
        if i < nb {
          assert ins[i] == c.inputIndexes[i];
        } else {
          IsListed(c, i, nb);
        }
      }
      StaysPrepared(c, cond, cond', true);
      OutputIsNoInput(c);
    }
  }

  lemma IsListed(c: Model, i: nat, nb: nat)
    requires ListsLifetime(c.inputIndexes, c.operands, SubgraphInput) && nb <= i < |c.inputIndexes|
    ensures c.inputIndexes[i] !in c.inputIndexes[..nb]
  {
  }

  lemma OutputIsNoInput(c: Model)
    requires ShallowValid(c) && |c.outputIndexes| == 1
    ensures c.outputIndexes[0] < |c.operands| && c.operands[c.outputIndexes[0]].lifetime == SubgraphOutput
  {
    assert c.outputIndexes[0] in c.outputIndexes;
  }

  lemma StaysPrepared(t: Model, infos: seq<Info>, infos': seq<Info>, again: bool)
    requires Prepared(t, infos, again) && |infos'| == |infos|
    requires forall x :: 0 <= x < |infos| ==> infos'[x].lifetime == infos[x].lifetime && infos'[x].usesLeft == infos[x].usesLeft
    requires forall x :: 0 <= x < |infos| && infos[x].lifetime != SubgraphInput && infos[x].lifetime != SubgraphOutput ==> infos'[x] == infos[x]
    ensures Prepared(t, infos', again)
  {
  }

  lemma CondIsPrepared(c: Model, n0: nat, cond0: seq<Info>, cond1: seq<Info>, cond: seq<Info>, pointers: seq<Pointer>)
    requires ShallowValid(c) && |c.outputIndexes| == 1
    requires |cond0| == |c.operands| && forall x :: 0 <= x < |cond0| ==> cond0[x] == Initialized(c.operands[x])
    requires Repointed(cond0, c.inputIndexes, pointers, cond1) && c.outputIndexes[0] < |cond1|
    requires cond == cond1[c.outputIndexes[0] := cond1[c.outputIndexes[0]].(pointer := Heap(n0))]
    ensures Prepared(c, cond, false) && TempIds(cond) == {}
    ensures |pointers| == |c.inputIndexes| && forall i :: 0 <= i < |pointers| ==> c.inputIndexes[i] < |cond| && cond[c.inputIndexes[i]].pointer == pointers[i]
  {
    SameButPointers(cond0, c.inputIndexes, pointers, cond1);
    InputsAreInputs(c);
    OutputIsNoInput(c);
    hide ShallowValid;
    forall i | 0 <= i < |pointers| ensures c.inputIndexes[i] < |cond| && cond[c.inputIndexes[i]].pointer == pointers[i] {
      assert c.inputIndexes[i] in c.inputIndexes;
    }
  }

  lemma BodyIsPrepared(b: Model, body: seq<Info>)
    requires |body| == |b.operands| && forall x :: 0 <= x < |body| ==> body[x] == Initialized(b.operands[x])
    ensures Prepared(b, body, false) && TempIds(body) == {}
  {
  }

  lemma NullsAreNobodys(none: seq<Pointer>)
    requires forall j :: 0 <= j < |none| ==> none[j] == Null
    ensures IdsOf(none) == {} && OwnPointers(none)
  {
  }

  lemma StartIsSplit(m0: Memory, n0: nat)
    requires Allocated(m0, n0)
    ensures Split(m0, n0, m0[n0 := Buffer([], 1)], n0 + 1, {} + {n0}, {} + {} + {})
  {
  }

  lemma StartIsHeld(b: Model, m0: Memory, n0: nat, pointers: seq<Pointer>, state: seq<Bytes>, outs: seq<Pointer>, none: seq<Pointer>)
    requires Allocated(m0, n0) && MayBePassed(pointers, outs, m0, state) && |b.outputIndexes| <= |pointers|
    ensures StateIsHeld(b, m0, m0[n0 := Buffer([], 1)], none, pointers, state, 0)
  {
    hide IdsOf;
    var memory := m0[n0 := Buffer([], 1)];
    forall i | 0 <= i < |pointers|
      ensures Contents(pointers[i], memory) == state[i] && (pointers[i].Heap? ==> pointers[i].id in m0)
    {
    }
  }

  /** The loop starts with the caller's buffers as its state. */
  lemma LoopStarts(c: Model, b: Model, m0: Memory, n0: nat, cond0: seq<Info>, cond1: seq<Info>, cond: seq<Info>, body: seq<Info>,
                   pointers: seq<Pointer>, state: seq<Bytes>, outs: seq<Pointer>, none: seq<Pointer>)
    requires ShallowValid(c) && |c.outputIndexes| == 1 && Allocated(m0, n0) && |b.outputIndexes| <= |b.inputIndexes| == |c.inputIndexes|
    requires |cond0| == |c.operands| && forall x :: 0 <= x < |cond0| ==> cond0[x] == Initialized(c.operands[x])
    requires |body| == |b.operands| && forall x :: 0 <= x < |body| ==> body[x] == Initialized(b.operands[x])
    requires Repointed(cond0, c.inputIndexes, pointers, cond1) && c.outputIndexes[0] < |cond1|
    requires cond == cond1[c.outputIndexes[0] := cond1[c.outputIndexes[0]].(pointer := Heap(n0))]
    requires MayBePassed(pointers, outs, m0, state) && |none| == |b.outputIndexes| && forall j :: 0 <= j < |none| ==> none[j] == Null
    ensures AtHead(c, b, m0, n0, m0[n0 := Buffer([], 1)], n0 + 1, cond, body, n0, none, none, pointers, state, 0)
  {
    hide ShallowValid, Prepared, IdsOf, TempIds, OwnPointers, Split, MayBePassed, Holds, StateIsHeld, Initialized;
    CondIsPrepared(c, n0, cond0, cond1, cond, pointers);
    hide Repointed;
    BodyIsPrepared(b, body);
    NullsAreNobodys(none);
    StartIsSplit(m0, n0);
    StartIsHeld(b, m0, n0, pointers, state, outs, none);
    assert Buffers(c, b, m0, n0, m0[n0 := Buffer([], 1)], n0 + 1, cond, body, n0, none, none, false, false);
  }

  lemma InputsAreInputs(c: Model)
    requires ShallowValid(c)
    ensures forall x :: x in c.inputIndexes ==> x < |c.operands| && c.operands[x].lifetime == SubgraphInput
  {
  }

  /** The condition has been evaluated: only its temporaries have changed. */
  lemma AfterCondition(c: Model, b: Model, m0: Memory, n0: nat, memory: Memory, next: nat, cond: seq<Info>, body: seq<Info>, conditionBuffer: nat,
                       current: seq<Pointer>, previous: seq<Pointer>, condAgain: bool, bodyAgain: bool, cond': seq<Info>, memory': Memory, next': nat)
    requires Buffers(c, b, m0, n0, memory, next, cond, body, conditionBuffer, current, previous, condAgain, bodyAgain)
    requires Prepared(c, cond', true) && c.outputIndexes[0] < |cond'| && cond'[c.outputIndexes[0]].pointer == Heap(conditionBuffer)
    requires Split(m0, n0, memory', next', TempIds(cond') + IdsOf([Heap(conditionBuffer)]), TempIds(body) + IdsOf(current) + IdsOf(previous))
    requires TempIds(cond') !! IdsOf([Heap(conditionBuffer)])
    ensures Buffers(c, b, m0, n0, memory', next', cond', body, conditionBuffer, current, previous, true, bodyAgain)
  {
    OneId(conditionBuffer);
    assert conditionBuffer in IdsOf([Heap(conditionBuffer)]);
    hide TempIds, IdsOf, Prepared, Split;
  }

  /** What the body owns, and what it must not change. */
  lemma BodyPart(c: Model, b: Model, m0: Memory, n0: nat, memory: Memory, next: nat, cond: seq<Info>, body: seq<Info>, conditionBuffer: nat,
                 current: seq<Pointer>, previous: seq<Pointer>, condAgain: bool, bodyAgain: bool)
    requires Buffers(c, b, m0, n0, memory, next, cond, body, conditionBuffer, current, previous, condAgain, bodyAgain)
    ensures Split(m0, n0, memory, next, TempIds(body) + IdsOf(current), TempIds(cond) + {conditionBuffer} + IdsOf(previous))
  {
    var a, d := TempIds(cond) + {conditionBuffer}, TempIds(body) + IdsOf(current) + IdsOf(previous);
    var a', d' := TempIds(body) + IdsOf(current), TempIds(cond) + {conditionBuffer} + IdsOf(previous);
    hide TempIds, IdsOf, Prepared;
    assert a !! d;
    hide Split;
    assert a + d == a' + d';
    Regroup(m0, n0, memory, next, a, d, a', d');
  }

  /** The body has been run: its outputs hold the front of the new state. */
  lemma BuffersAfterBody(c: Model, b: Model, m0: Memory, n0: nat, cond: seq<Info>, body: seq<Info>, conditionBuffer: nat,
                         m1: Memory, n1: nat, current: seq<Pointer>, previous: seq<Pointer>, bodyAgain: bool,
                         body': seq<Info>, memory: Memory, next: nat, outs: seq<Pointer>)
    requires Buffers(c, b, m0, n0, m1, n1, cond, body, conditionBuffer, current, previous, true, bodyAgain)
    requires Prepared(b, body', true) && |outs| == |b.outputIndexes|
    requires Split(m0, n0, memory, next, TempIds(body') + IdsOf(outs), TempIds(cond) + {conditionBuffer} + IdsOf(previous))
    requires TempIds(body') !! IdsOf(outs) && OwnPointers(outs)
    ensures Buffers(c, b, m0, n0, memory, next, cond, body', conditionBuffer, previous, outs, true, true)
  {
    BodyIsApart(c, b, m0, n0, m1, n1, cond, body, conditionBuffer, current, previous, bodyAgain);
    hide TempIds, IdsOf, Prepared, OwnPointers, Buffers;
    var a, d := TempIds(body') + IdsOf(outs), TempIds(cond) + {conditionBuffer} + IdsOf(previous);
    var a', d' := TempIds(cond) + {conditionBuffer}, TempIds(body') + IdsOf(previous) + IdsOf(outs);
    assert a !! d by { SplitIsApart(m0, n0, memory, next, a, d); }
    Regroup(m0, n0, memory, next, a, d, a', d');
    hide Split;
    BuffersAre(c, b, m0, n0, memory, next, cond, body', conditionBuffer, previous, outs);
  }

  lemma SplitIsApart(m0: Memory, n0: nat, memory: Memory, next: nat, own: set<nat>, rest: set<nat>)
    requires Split(m0, n0, memory, next, own, rest)
    ensures own !! rest && own <= memory.Keys && rest <= memory.Keys
  {
  }

  lemma BuffersAre(c: Model, b: Model, m0: Memory, n0: nat, memory: Memory, next: nat, cond: seq<Info>, body: seq<Info>, conditionBuffer: nat,
                   current: seq<Pointer>, previous: seq<Pointer>)
    requires Prepared(c, cond, true) && Prepared(b, body, true)
    requires |current| == |previous| == |b.outputIndexes| && OwnPointers(current) && OwnPointers(previous)
    requires Split(m0, n0, memory, next, TempIds(cond) + {conditionBuffer}, TempIds(body) + IdsOf(current) + IdsOf(previous))
    requires conditionBuffer !in TempIds(cond)
    requires TempIds(body) !! IdsOf(current) && TempIds(body) !! IdsOf(previous) && IdsOf(current) !! IdsOf(previous)
    requires |c.outputIndexes| == 1 && c.outputIndexes[0] < |cond| && cond[c.outputIndexes[0]].pointer == Heap(conditionBuffer)
    ensures Buffers(c, b, m0, n0, memory, next, cond, body, conditionBuffer, current, previous, true, true)
  {
    hide Prepared, OwnPointers, Split, TempIds, IdsOf;
  }

  lemma StateAfterBody(b: Model, m0: Memory, n0: nat, m1: Memory, previous: seq<Pointer>, memory: Memory, next: nat, rest: set<nat>, own: set<nat>, outs: seq<Pointer>,
                       pointers: seq<Pointer>, state: seq<Bytes>, results: seq<Bytes>, iteration: nat)
    requires StateIsHeld(b, m0, m1, previous, pointers, state, iteration)
    requires |outs| == |b.outputIndexes| == |results| && IdsOf(outs) <= own && Split(m0, n0, memory, next, own, rest)
    requires Holds(pointers, state, memory, m0.Keys + rest)
    requires forall j :: 0 <= j < |outs| ==> Contents(outs[j], memory) == results[j]
    ensures StateIsHeld(b, m0, memory, outs, outs + pointers[|outs|..], results + state[|outs|..], iteration + 1)
  {
    var nb := |outs|;
    var pointers', state' := outs + pointers[nb..], results + state[nb..];
    forall j | 0 <= j < nb && outs[j].Heap? ensures outs[j].id in IdsOf(outs) && outs[j].id in memory {
      IdIsIn(outs, j);
      assert outs[j].id in own;
    }
    hide IdsOf, Contents;
    forall i | 0 <= i < |state'|
      ensures Contents(pointers'[i], memory) == state'[i]
      ensures pointers'[i].Heap? ==> pointers'[i].id in m0.Keys + IdsOf(outs) && pointers'[i].id in memory
      ensures i >= nb && pointers'[i].Heap? ==> pointers'[i].id in m0
    {
      if i >= nb { assert pointers'[i] == pointers[i] && state'[i] == state[i]; }
    }
    assert pointers'[..nb] == outs;
  }

  lemma AfterBody(c: Model, b: Model, m0: Memory, n0: nat, cond: seq<Info>, body: seq<Info>, conditionBuffer: nat,
                  m1: Memory, n1: nat, current: seq<Pointer>, previous: seq<Pointer>, bodyAgain: bool,
                  body': seq<Info>, memory: Memory, next: nat, outs: seq<Pointer>,
                  pointers: seq<Pointer>, state: seq<Bytes>, results: seq<Bytes>, iteration: nat)
    requires Buffers(c, b, m0, n0, m1, n1, cond, body, conditionBuffer, current, previous, true, bodyAgain)
    requires StateIsHeld(b, m0, m1, previous, pointers, state, iteration)
    requires |pointers| == |c.inputIndexes| && (forall i :: 0 <= i < |pointers| ==> c.inputIndexes[i] < |cond|) && PointersOf(cond, c.inputIndexes) == pointers
    requires Prepared(b, body', true) && (forall j :: 0 <= j < |b.outputIndexes| ==> b.outputIndexes[j] < |body'|) && PointersOf(body', b.outputIndexes) == outs
    requires Split(m0, n0, memory, next, TempIds(body') + IdsOf(outs), TempIds(cond) + {conditionBuffer} + IdsOf(previous))
    requires TempIds(body') !! IdsOf(outs) && OwnPointers(outs)
    requires Holds(pointers, state, memory, m0.Keys + (TempIds(cond) + {conditionBuffer} + IdsOf(previous)))
    requires |results| == |outs| && forall j :: 0 <= j < |outs| ==> Contents(outs[j], memory) == results[j]
    ensures |outs| == |b.outputIndexes| <= |pointers| == |state|
    ensures AtHead(c, b, m0, n0, memory, next, cond, body', conditionBuffer, previous, outs, outs + pointers[|outs|..], results + state[|outs|..], iteration + 1)
  {
    BuffersAfterBody(c, b, m0, n0, cond, body, conditionBuffer, m1, n1, current, previous, bodyAgain, body', memory, next, outs);
    hide Buffers, OwnPointers, TempIds, IdsOf, Prepared, Contents;
    StateAfterBody(b, m0, n0, m1, previous, memory, next, TempIds(cond) + {conditionBuffer} + IdsOf(previous), TempIds(body') + IdsOf(outs), outs,
                   pointers, state, results, iteration);
    hide Split, Holds, StateIsHeld;
  }

  lemma BodyIsApart(c: Model, b: Model, m0: Memory, n0: nat, memory: Memory, next: nat, cond: seq<Info>, body: seq<Info>, conditionBuffer: nat,
                    current: seq<Pointer>, previous: seq<Pointer>, bodyAgain: bool)
    requires Buffers(c, b, m0, n0, memory, next, cond, body, conditionBuffer, current, previous, true, bodyAgain)
    ensures TempIds(cond) + {conditionBuffer} !! IdsOf(previous) && |previous| == |b.outputIndexes| && OwnPointers(previous)
    ensures Prepared(c, cond, true) && conditionBuffer !in TempIds(cond)
    ensures |c.outputIndexes| == 1 && c.outputIndexes[0] < |cond| && cond[c.outputIndexes[0]].pointer == Heap(conditionBuffer)
  {
    hide TempIds, IdsOf, Prepared, Separate;
  }
}
