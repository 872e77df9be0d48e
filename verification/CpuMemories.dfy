/** The buffers of the CPU executor: what the operands of a running subgraph point to, who
    owns a buffer, and how many uses are left. */
module CpuMemories {
  import opened Models
  import opened Semantics
  import opened Trackers
  import opened Graphs

  // Where an operand's data is. Data of the model itself is not in a buffer.
  datatype Pointer = Null | Static(value: Bytes) | Heap(id: nat)

  datatype Buffer = Buffer(content: Bytes, capacity: nat)

  // Buffers that have been allocated and not freed.
  type Memory = map<nat, Buffer>

  datatype Info = Info(lifetime: Lifetime, usesLeft: nat, pointer: Pointer)

  predicate IsLive(p: Pointer, memory: Memory) {
    p.Heap? ==> p.id in memory
  }

  function Contents(p: Pointer, memory: Memory): Bytes {
    match p
    case Null => []
    case Static(v) => v
    case Heap(b) => if b in memory then memory[b].content else []
  }

  /** The executor allocates buffers for temporaries and outputs. */
  predicate IsOwn(l: Lifetime) {
    !KnownInitially(l)
  }

  ghost function OwnIds(infos: seq<Info>): set<nat> {
    set x | 0 <= x < |infos| && IsOwn(infos[x].lifetime) && infos[x].pointer.Heap? :: infos[x].pointer.id
  }

  ghost predicate Allocated(memory: Memory, next: nat) {
    forall b :: b in memory ==> b < next
  }

  /** Every pointer is live, and no operand shares the buffer of a temporary or an output. */
  ghost predicate Tidy(infos: seq<Info>, memory: Memory) {
    && (forall x :: 0 <= x < |infos| ==> IsLive(infos[x].pointer, memory))
    && (forall x :: 0 <= x < |infos| && IsOwn(infos[x].lifetime) ==> !infos[x].pointer.Static?)
    && (forall x, y :: 0 <= x < |infos| && 0 <= y < |infos| && x != y && IsOwn(infos[x].lifetime) && infos[x].pointer.Heap? ==>
          infos[y].pointer != infos[x].pointer)
  }

  ghost predicate Fits(m: Model, infos: seq<Info>) {
    |infos| == |m.operands| && forall x :: 0 <= x < |infos| ==> infos[x].lifetime == m.operands[x].lifetime
  }

  /** How often operations read an operand. */
  function Left(rem: seq<Operation>, x: nat): nat {
    if rem == [] then 0 else Occurrences(rem[0].inputs, x) + Left(rem[1..], x)
  }

  lemma {:induction false} LeftAppend(rem: seq<Operation>, op: Operation, x: nat)
    ensures Left(rem + [op], x) == Left(rem, x) + Occurrences(op.inputs, x)
  {
    if rem == [] {
      assert rem + [op] == [op] && [op][1..] == [];
    } else {
      assert (rem + [op])[1..] == rem[1..] + [op];
      LeftAppend(rem[1..], op, x);
    }
  }

  lemma {:induction false} LeftIsUses(ops: seq<Operation>, x: nat)
    ensures Left(ops, x) == Uses(ops, x)
  {
    if ops != [] {
      var front, last := ops[..|ops| - 1], ops[|ops| - 1];
      assert ops == front + [last];
      LeftAppend(front, last, x);
      LeftIsUses(front, x);
    }
  }

  predicate IsTemp(infos: seq<Info>, x: int) {
    0 <= x < |infos| && infos[x].lifetime == TemporaryVariable
  }

  /** The uses left of temporaries are those in the operations that remain; a subgraph
      that runs again has none left. Other operands are not counted. */
  ghost predicate Counting(infos: seq<Info>, rem: seq<Operation>, again: bool) {
    forall x: nat :: x < |infos| ==>
      infos[x].usesLeft == if IsTemp(infos, x) && !again then Left(rem, x) else 0
  }

  /** A value that operations may still read. */
  predicate Needed(infos: seq<Info>, rem: seq<Operation>, again: bool, x: nat) {
    !IsTemp(infos, x) || again || Left(rem, x) > 0
  }

  /** Every known value that is still needed is where its operand points. */
  ghost predicate Holding(infos: seq<Info>, memory: Memory, env: Env, rem: seq<Operation>, again: bool) {
    forall x :: x in env ==> x < |infos| && (Needed(infos, rem, again, x) ==> Contents(infos[x].pointer, memory) == env[x])
  }

  /** In a subgraph that runs once, a temporary that has been read for the last time has
      been freed, and one that has not been written has not been read. */
  ghost predicate FreedAtLastUse(infos: seq<Info>, env: Env, ops: seq<Operation>, rem: seq<Operation>) {
    forall x: nat :: IsTemp(infos, x) ==>
      && (x !in env ==> Left(rem, x) == Left(ops, x))
      && (x in env && Left(rem, x) == 0 && Left(ops, x) > 0 ==> infos[x].pointer == Null)
  }

  /** A subgraph between two of its operations. */
  ghost predicate Running(m: Model, infos: seq<Info>, memory: Memory, next: nat, env: Env, rem: seq<Operation>, again: bool)
    ensures Running(m, infos, memory, next, env, rem, again) ==> |infos| == |m.operands|
  {
    && Fits(m, infos) && Allocated(memory, next) && Tidy(infos, memory)
    && Counting(infos, rem, again) && Holding(infos, memory, env, rem, again)
    && (!again ==> FreedAtLastUse(infos, env, m.operations, rem))
  }

  /** What a step does to buffers that are not its own: nothing. It accounts for all
      buffers that it allocates and frees. */
  ghost predicate Framed(infos: seq<Info>, memory: Memory, next: nat, infos': seq<Info>, memory': Memory, next': nat)
    ensures Framed(infos, memory, next, infos', memory', next') ==> |infos'| == |infos| && next <= next'
  {
    && next <= next' && |infos'| == |infos|
    && (forall x :: 0 <= x < |infos| ==> infos'[x].lifetime == infos[x].lifetime && (!IsOwn(infos[x].lifetime) ==> infos'[x] == infos[x]))
    && (forall b :: b in memory && b !in OwnIds(infos) ==> b in memory' && memory'[b] == memory[b])
    && memory'.Keys - OwnIds(infos') == memory.Keys - OwnIds(infos)
    && (forall b :: b in OwnIds(infos') ==> b in OwnIds(infos) || b >= next)
    && (forall x :: 0 <= x < |infos| && !IsTemp(infos, x) && infos[x].pointer.Heap? ==> infos'[x].pointer == infos[x].pointer)
  }

  lemma NothingFramed(infos: seq<Info>, memory: Memory, next: nat)
    ensures Framed(infos, memory, next, infos, memory, next)
  {
  }

  lemma FramedTwice(i0: seq<Info>, m0: Memory, n0: nat, i1: seq<Info>, m1: Memory, n1: nat, i2: seq<Info>, m2: Memory, n2: nat)
    requires Framed(i0, m0, n0, i1, m1, n1) && Framed(i1, m1, n1, i2, m2, n2) && Allocated(m0, n0)
    ensures Framed(i0, m0, n0, i2, m2, n2)
  {
    hide OwnIds;
  }

  // ----- writing a value -----

  // The operand points to a buffer; the value is put there.
  function Stored(memory: Memory, p: Pointer, value: Bytes): Memory
    requires p.Heap? && p.id in memory
  {
    memory[p.id := memory[p.id].(content := value)]
  }

  lemma OwnIdsAt(infos: seq<Info>, x: nat)
    requires x < |infos| && IsOwn(infos[x].lifetime) && infos[x].pointer.Heap?
    ensures infos[x].pointer.id in OwnIds(infos)
  {
  }

  // What the own buffers are after one operand points elsewhere.
  lemma OwnIdsAfter(infos: seq<Info>, memory: Memory, x: nat, info: Info)
    requires x < |infos| && IsOwn(infos[x].lifetime) && info.lifetime == infos[x].lifetime && Tidy(infos, memory)
    ensures OwnIds(infos[x := info]) ==
            OwnIds(infos) - (if infos[x].pointer.Heap? then {infos[x].pointer.id} else {}) + if info.pointer.Heap? then {info.pointer.id} else {}
  {
    var infos' := infos[x := info];
    forall b | b in OwnIds(infos) ensures b in OwnIds(infos') || infos[x].pointer == Heap(b) {
      var y :| 0 <= y < |infos| && IsOwn(infos[y].lifetime) && infos[y].pointer.Heap? && infos[y].pointer.id == b;
      if y != x { OwnIdsAt(infos', y); }
    }
    forall b | b in OwnIds(infos') ensures (b in OwnIds(infos) && infos[x].pointer != Heap(b)) || info.pointer == Heap(b) {
      var y :| 0 <= y < |infos| && IsOwn(infos'[y].lifetime) && infos'[y].pointer.Heap? && infos'[y].pointer.id == b;
      if y != x { OwnIdsAt(infos, y); }
    }
    if info.pointer.Heap? { OwnIdsAt(infos', x); }
  }

  /** Writing an output that has a buffer. */
  lemma WriteKeeps(m: Model, infos: seq<Info>, memory: Memory, next: nat, env: Env, rem: seq<Operation>, again: bool, x: nat, value: Bytes)
    requires Running(m, infos, memory, next, env, rem, again)
    requires x < |infos| && IsOwn(infos[x].lifetime) && x !in env && infos[x].pointer.Heap?
    ensures infos[x].pointer.id in memory
    ensures var memory' := Stored(memory, infos[x].pointer, value);
            Running(m, infos, memory', next, env[x := value], rem, again) && Framed(infos, memory, next, infos, memory', next)
  {
    OwnIdsAt(infos, x);
    hide OwnIds, Left;
  }

  /** Giving an output a new buffer. */
  lemma AllocateFrames(infos: seq<Info>, memory: Memory, next: nat, x: nat, capacity: nat)
    requires Allocated(memory, next) && Tidy(infos, memory)
    requires x < |infos| && IsOwn(infos[x].lifetime) && infos[x].pointer == Null
    ensures var infos', memory' := infos[x := infos[x].(pointer := Heap(next))], memory[next := Buffer([], capacity)];
            Framed(infos, memory, next, infos', memory', next + 1)
  {
    OwnIdsAfter(infos, memory, x, infos[x].(pointer := Heap(next)));
    OwnIdsAreLive(infos, memory);
    hide OwnIds;
  }

  lemma AllocateIsTidy(infos: seq<Info>, memory: Memory, next: nat, x: nat, capacity: nat)
    requires Allocated(memory, next) && Tidy(infos, memory)
    requires x < |infos| && IsOwn(infos[x].lifetime) && infos[x].pointer == Null
    ensures Tidy(infos[x := infos[x].(pointer := Heap(next))], memory[next := Buffer([], capacity)])
  {
  }

  lemma AllocateHolds(infos: seq<Info>, memory: Memory, next: nat, env: Env, rem: seq<Operation>, again: bool, x: nat, capacity: nat)
    requires Allocated(memory, next) && Holding(infos, memory, env, rem, again) && Tidy(infos, memory) && x < |infos| && x !in env
    ensures Holding(infos[x := infos[x].(pointer := Heap(next))], memory[next := Buffer([], capacity)], env, rem, again)
  {
    hide Left;
  }

  lemma AllocateKeeps(m: Model, infos: seq<Info>, memory: Memory, next: nat, env: Env, rem: seq<Operation>, again: bool, x: nat, capacity: nat)
    requires Running(m, infos, memory, next, env, rem, again)
    requires x < |infos| && IsOwn(infos[x].lifetime) && x !in env && infos[x].pointer == Null
    ensures var infos', memory' := infos[x := infos[x].(pointer := Heap(next))], memory[next := Buffer([], capacity)];
            Running(m, infos', memory', next + 1, env, rem, again) && Framed(infos, memory, next, infos', memory', next + 1)
  {
    AllocateFrames(infos, memory, next, x, capacity);
    AllocateIsTidy(infos, memory, next, x, capacity);
    AllocateHolds(infos, memory, next, env, rem, again, x, capacity);
    hide OwnIds, Left, Framed, Tidy, Holding, Needed;
  }

  lemma OwnIdsAreLive(infos: seq<Info>, memory: Memory)
    requires Tidy(infos, memory)
    ensures OwnIds(infos) <= memory.Keys
  {
  }

  /** An output that is empty needs no buffer. */
  lemma EmptyKeeps(m: Model, infos: seq<Info>, memory: Memory, next: nat, env: Env, rem: seq<Operation>, again: bool, x: nat)
    requires Running(m, infos, memory, next, env, rem, again)
    requires x < |infos| && IsOwn(infos[x].lifetime) && x !in env && infos[x].pointer == Null
    ensures Running(m, infos, memory, next, env[x := []], rem, again)
  {
    hide OwnIds, Left;
  }

  // ----- reading a value -----

  lemma {:induction false} FirstIsLeft(op: Operation, rest: seq<Operation>, x: nat)
    requires x in op.inputs
    ensures Left([op] + rest, x) > 0
  {
    assert ([op] + rest)[0] == op;
    OccursHere(op.inputs, x);
  }

  /** The inputs of the next operation can be read. */
  lemma InputIsHeld(m: Model, infos: seq<Info>, memory: Memory, next: nat, env: Env, op: Operation, rest: seq<Operation>, again: bool, x: nat)
    requires Running(m, infos, memory, next, env, [op] + rest, again) && x in op.inputs && x in env
    ensures x < |infos| && IsLive(infos[x].pointer, memory) && Contents(infos[x].pointer, memory) == env[x]
  {
    hide Left;
    FirstIsLeft(op, rest, x);
  }

  // ----- consuming inputs -----

  // The operation with only its inputs from j on.
  function Consuming(op: Operation, j: nat): Operation
    requires j <= |op.inputs|
  {
    op.(inputs := op.inputs[j..])
  }

  lemma LeftOfFirst(op: Operation, rest: seq<Operation>, x: nat)
    ensures Left([op] + rest, x) == Occurrences(op.inputs, x) + Left(rest, x)
  {
    assert ([op] + rest)[1..] == rest;
  }

  lemma OneLess(op: Operation, rest: seq<Operation>, j: nat, x: nat)
    requires j < |op.inputs|
    ensures Left([Consuming(op, j)] + rest, x) == Left([Consuming(op, j + 1)] + rest, x) + if op.inputs[j] == x then 1 else 0
  {
    LeftOfFirst(Consuming(op, j), rest, x);
    LeftOfFirst(Consuming(op, j + 1), rest, x);
    assert op.inputs[j..][1..] == op.inputs[j + 1..];
  }

  lemma NoneLeft(op: Operation, rest: seq<Operation>, x: nat)
    ensures Left([Consuming(op, |op.inputs|)] + rest, x) == Left(rest, x)
  {
    LeftOfFirst(Consuming(op, |op.inputs|), rest, x);
  }

  // An operand after one of its uses.
  function Consumed(info: Info): Info {
    if info.usesLeft == 0 then info
    else if info.usesLeft == 1 && info.pointer != Null then info.(usesLeft := 0, pointer := Null)
    else info.(usesLeft := info.usesLeft - 1)
  }

  function AfterConsuming(memory: Memory, info: Info): Memory {
    if info.usesLeft == 1 && info.pointer.Heap? then memory - {info.pointer.id} else memory
  }

  ghost predicate OneUseLess(rem: seq<Operation>, rem': seq<Operation>, x: nat) {
    forall y: nat :: Left(rem, y) == Left(rem', y) + if x == y then 1 else 0
  }

  lemma UsesAreCounted(m: Model, infos: seq<Info>, memory: Memory, next: nat, env: Env, rem: seq<Operation>, again: bool, x: nat)
    requires Running(m, infos, memory, next, env, rem, again) && x < |infos|
    ensures infos[x].usesLeft > 0 ==> IsTemp(infos, x) && !again && infos[x].usesLeft == Left(rem, x)
    ensures infos[x].usesLeft > 0 ==> !infos[x].pointer.Static?
    ensures IsLive(infos[x].pointer, memory)
  {
    hide Left;
  }

  lemma NoUseLeft(m: Model, infos: seq<Info>, memory: Memory, next: nat, env: Env, rem: seq<Operation>, rem': seq<Operation>, again: bool, x: nat)
    requires Running(m, infos, memory, next, env, rem, again) && OneUseLess(rem, rem', x) && x < |infos| && x in env
    requires infos[x].usesLeft == 0
    ensures Running(m, infos, memory, next, env, rem', again)
  {
    hide Left, OwnIds;
  }

  lemma LastUseFrames(infos: seq<Info>, memory: Memory, next: nat, x: nat)
    requires Tidy(infos, memory) && IsTemp(infos, x) && infos[x].usesLeft == 1 && infos[x].pointer.Heap?
    ensures Framed(infos, memory, next, infos[x := Consumed(infos[x])], memory - {infos[x].pointer.id}, next)
  {
    OwnIdsAfter(infos, memory, x, Consumed(infos[x]));
    OwnIdsAt(infos, x);
    hide OwnIds;
  }

  lemma LastUseIsTidy(infos: seq<Info>, memory: Memory, x: nat)
    requires Tidy(infos, memory) && IsTemp(infos, x) && infos[x].usesLeft == 1 && infos[x].pointer.Heap?
    ensures Tidy(infos[x := Consumed(infos[x])], memory - {infos[x].pointer.id})
  {
  }

  lemma UseIsCounted(infos: seq<Info>, rem: seq<Operation>, rem': seq<Operation>, x: nat, info: Info)
    requires Counting(infos, rem, false) && OneUseLess(rem, rem', x) && IsTemp(infos, x)
    requires info.lifetime == infos[x].lifetime && infos[x].usesLeft > 0 && info.usesLeft == infos[x].usesLeft - 1
    ensures Counting(infos[x := info], rem', false)
  {
    hide Left;
  }

  lemma LastUseHolds(infos: seq<Info>, memory: Memory, env: Env, rem: seq<Operation>, rem': seq<Operation>, x: nat)
    requires Tidy(infos, memory) && Holding(infos, memory, env, rem, false) && OneUseLess(rem, rem', x)
    requires IsTemp(infos, x) && infos[x].usesLeft == 1 == Left(rem, x) && infos[x].pointer.Heap?
    ensures Holding(infos[x := Consumed(infos[x])], memory - {infos[x].pointer.id}, env, rem', false)
  {
    hide Left;
  }

  lemma LastUse(m: Model, infos: seq<Info>, memory: Memory, next: nat, env: Env, rem: seq<Operation>, rem': seq<Operation>, again: bool, x: nat)
    requires Running(m, infos, memory, next, env, rem, again) && OneUseLess(rem, rem', x) && x < |infos| && x in env
    requires infos[x].usesLeft == 1 && infos[x].pointer.Heap?
    ensures var infos', memory' := infos[x := Consumed(infos[x])], memory - {infos[x].pointer.id};
            Running(m, infos', memory', next, env, rem', again) && Framed(infos, memory, next, infos', memory', next)
  {
    UsesAreCounted(m, infos, memory, next, env, rem, again, x);
    LastUseFrames(infos, memory, next, x);
    LastUseIsTidy(infos, memory, x);
    UseIsCounted(infos, rem, rem', x, Consumed(infos[x]));
    LastUseHolds(infos, memory, env, rem, rem', x);
    hide Left, OwnIds, Framed, Tidy, Counting, Holding;
  }

  lemma FewerUsesFrame(infos: seq<Info>, memory: Memory, next: nat, x: nat, info: Info)
    requires Tidy(infos, memory) && IsTemp(infos, x) && info.lifetime == infos[x].lifetime && info.pointer == infos[x].pointer
    ensures Framed(infos, memory, next, infos[x := info], memory, next) && Tidy(infos[x := info], memory)
  {
    OwnIdsAfter(infos, memory, x, info);
    if infos[x].pointer.Heap? { OwnIdsAt(infos, x); }
    hide OwnIds;
  }

  lemma NotLastUse(m: Model, infos: seq<Info>, memory: Memory, next: nat, env: Env, rem: seq<Operation>, rem': seq<Operation>, again: bool, x: nat)
    requires Running(m, infos, memory, next, env, rem, again) && OneUseLess(rem, rem', x) && x < |infos| && x in env
    requires infos[x].usesLeft > 1 || (infos[x].usesLeft == 1 && !infos[x].pointer.Heap?)
    ensures var infos' := infos[x := Consumed(infos[x])];
            Running(m, infos', memory, next, env, rem', again) && Framed(infos, memory, next, infos', memory, next)
  {
    UsesAreCounted(m, infos, memory, next, env, rem, again, x);
    FewerUsesFrame(infos, memory, next, x, Consumed(infos[x]));
    UseIsCounted(infos, rem, rem', x, Consumed(infos[x]));
    hide Left, OwnIds, Framed, Tidy, Counting;
  }

  /** Consuming an input: its buffer is freed if this was the last use. */
  lemma ConsumeKeeps(m: Model, infos: seq<Info>, memory: Memory, next: nat, env: Env, op: Operation, rest: seq<Operation>, again: bool, j: nat)
    requires j < |op.inputs| && op.inputs[j] < |infos| && op.inputs[j] in env
    requires Running(m, infos, memory, next, env, [Consuming(op, j)] + rest, again)
    ensures var x := op.inputs[j];
            var infos', memory' := infos[x := Consumed(infos[x])], AfterConsuming(memory, infos[x]);
            && Running(m, infos', memory', next, env, [Consuming(op, j + 1)] + rest, again)
            && Framed(infos, memory, next, infos', memory', next)
            && (infos[x].usesLeft == 1 ==> !infos[x].pointer.Static? && IsLive(infos[x].pointer, memory))
  {
    var x := op.inputs[j];
    var rem, rem' := [Consuming(op, j)] + rest, [Consuming(op, j + 1)] + rest;
    forall y: nat ensures Left(rem, y) == Left(rem', y) + if x == y then 1 else 0 { OneLess(op, rest, j, y); }
    UsesAreCounted(m, infos, memory, next, env, rem, again, x);
    hide Left, Running;
    if infos[x].usesLeft == 0 {
      assert infos[x := Consumed(infos[x])] == infos;
      NoUseLeft(m, infos, memory, next, env, rem, rem', again, x);
      NothingFramed(infos, memory, next);
    } else if infos[x].usesLeft == 1 && infos[x].pointer.Heap? {
      LastUse(m, infos, memory, next, env, rem, rem', again, x);
    } else {
      NotLastUse(m, infos, memory, next, env, rem, rem', again, x);
    }
  }

  /** Once all its inputs are consumed the operation is done. */
  lemma AllConsumed(m: Model, infos: seq<Info>, memory: Memory, next: nat, env: Env, op: Operation, rest: seq<Operation>, again: bool)
    requires Running(m, infos, memory, next, env, [Consuming(op, |op.inputs|)] + rest, again)
    ensures Running(m, infos, memory, next, env, rest, again)
  {
    forall x: nat ensures Left([Consuming(op, |op.inputs|)] + rest, x) == Left(rest, x) { NoneLeft(op, rest, x); }
    hide Left;
  }

  // ----- freeing what was never read -----

  // Frees temporaries without uses left.
  function Swept(info: Info): Info {
    if info.lifetime == TemporaryVariable && info.usesLeft == 0 then info.(pointer := Null) else info
  }

  // ----- entering and leaving a subgraph -----

  // The operands of a subgraph before it runs for the first time.
  function Initialized(o: Operand): Info {
    match o.lifetime
    case TemporaryVariable => Info(TemporaryVariable, o.numberOfConsumers, Null)
    case SubgraphInput => Info(SubgraphInput, 0, Null)
    case SubgraphOutput => Info(SubgraphOutput, 0, Null)
    case l => Info(l, 0, if o.value == [] then Null else Static(o.value))
  }

  /** A subgraph is ready to run with arguments. */
  ghost predicate Callable(t: Model, infos: seq<Info>, memory: Memory, next: nat, args: seq<Bytes>, again: bool)
    ensures Callable(t, infos, memory, next, args, again) ==> |infos| == |t.operands| && |args| == |t.inputIndexes|
  {
    && Fits(t, infos) && Allocated(memory, next) && Tidy(infos, memory) && Counting(infos, t.operations, again)
    && |args| == |t.inputIndexes|
    && (forall i :: 0 <= i < |args| ==> t.inputIndexes[i] < |infos| && Contents(infos[t.inputIndexes[i]].pointer, memory) == args[i])
    && (forall x :: 0 <= x < |infos| && KnownInitially(infos[x].lifetime) && infos[x].lifetime != SubgraphInput ==>
          Contents(infos[x].pointer, memory) == t.operands[x].value)
    && (!again ==> forall x :: 0 <= x < |infos| && IsTemp(infos, x) ==> infos[x].pointer == Null)
  }

  lemma ConstantsAre(t: Model)
    ensures forall x: nat :: x in Constants(t) <==> x in KnownSet(t) && t.operands[x].lifetime != SubgraphInput
    ensures forall x: nat :: x in Constants(t) ==> Constants(t)[x] == t.operands[x].value
  {
  }

  lemma StartKeys(t: Model, args: seq<Bytes>)
    requires ListsLifetime(t.inputIndexes, t.operands, SubgraphInput) && |args| == |t.inputIndexes|
    ensures Bind(Constants(t), t.inputIndexes, args).Keys == KnownSet(t)
    ensures forall i :: 0 <= i < |args| ==> t.inputIndexes[i] in t.inputIndexes && Bind(Constants(t), t.inputIndexes, args)[t.inputIndexes[i]] == args[i]
    ensures forall x :: x in KnownSet(t) && x !in t.inputIndexes ==> Bind(Constants(t), t.inputIndexes, args)[x] == t.operands[x].value && t.operands[x].lifetime != SubgraphInput
  {
    var c := Constants(t);
    var env := Bind(c, t.inputIndexes, args);
    ConstantsAre(t);
    hide Bind, Constants;
    assert forall x :: x in env <==> x in c || x in t.inputIndexes;
  }

  lemma CallableRuns(t: Model, infos: seq<Info>, memory: Memory, next: nat, args: seq<Bytes>, again: bool)
    requires ListsLifetime(t.inputIndexes, t.operands, SubgraphInput) && Callable(t, infos, memory, next, args, again)
    ensures Bind(Constants(t), t.inputIndexes, args).Keys == KnownSet(t)
    ensures Running(t, infos, memory, next, Bind(Constants(t), t.inputIndexes, args), t.operations, again)
  {
    StartKeys(t, args);
    ValuesAreHeld(t, infos, memory, args, Bind(Constants(t), t.inputIndexes, args));
    var env := Bind(Constants(t), t.inputIndexes, args);
    TempsAreUnknown(t, infos);
    hide Bind, Constants, Left, Contents, Tidy, ListsLifetime, Distinct, KnownSet, Fits, Counting;
    assert Holding(infos, memory, env, t.operations, again);
  }

  lemma TempsAreUnknown(t: Model, infos: seq<Info>)
    requires Fits(t, infos)
    ensures forall x: nat :: IsTemp(infos, x) ==> x !in KnownSet(t)
  {
  }

  lemma ValuesAreHeld(t: Model, infos: seq<Info>, memory: Memory, args: seq<Bytes>, env: Env)
    requires |args| == |t.inputIndexes| && Fits(t, infos) && env.Keys == KnownSet(t)
    requires forall i :: 0 <= i < |args| ==> t.inputIndexes[i] in env && env[t.inputIndexes[i]] == args[i]
    requires forall x :: x in KnownSet(t) && x !in t.inputIndexes ==> env[x] == t.operands[x].value && t.operands[x].lifetime != SubgraphInput
    requires forall i :: 0 <= i < |args| ==> t.inputIndexes[i] < |infos| && Contents(infos[t.inputIndexes[i]].pointer, memory) == args[i]
    requires forall x :: 0 <= x < |infos| && KnownInitially(infos[x].lifetime) && infos[x].lifetime != SubgraphInput ==>
               Contents(infos[x].pointer, memory) == t.operands[x].value
    ensures forall x :: x in env ==> x < |infos| && Contents(infos[x].pointer, memory) == env[x]
  {
    hide Contents;
    forall x | x in env ensures x < |infos| && Contents(infos[x].pointer, memory) == env[x] {
      assert x in KnownSet(t);
      if x in t.inputIndexes {
        var i :| 0 <= i < |args| && t.inputIndexes[i] == x;
        assert env[t.inputIndexes[i]] == args[i];
      }
    }
  }

  /** What a subgraph that has run leaves: its outputs, and no uses left. */
  ghost predicate Returned(t: Model, infos: seq<Info>, memory: Memory, next: nat, results: seq<Bytes>)
    ensures Returned(t, infos, memory, next, results) ==> |infos| == |t.operands|
  {
    && Fits(t, infos) && Allocated(memory, next) && Tidy(infos, memory) && Counting(infos, [], true)
    && |results| == |t.outputIndexes|
    && (forall j :: 0 <= j < |results| ==> t.outputIndexes[j] < |infos| && Contents(infos[t.outputIndexes[j]].pointer, memory) == results[j])
  }

  lemma RunningReturns(t: Model, infos: seq<Info>, memory: Memory, next: nat, env: Env, again: bool)
    requires ListsLifetime(t.outputIndexes, t.operands, SubgraphOutput)
    requires Running(t, infos, memory, next, env, [], again) && Knows(env, t.outputIndexes)
    ensures Returned(t, infos, memory, next, Get(env, t.outputIndexes))
  {
    assert forall x :: Left([], x) == 0;
    forall j | 0 <= j < |t.outputIndexes|
      ensures t.outputIndexes[j] < |infos| && Contents(infos[t.outputIndexes[j]].pointer, memory) == env[t.outputIndexes[j]]
    {
      assert t.outputIndexes[j] in t.outputIndexes;
    }
  }
}
