/** A valid model on which flattening does not preserve meaning: an interpreted IF
    that passes an omitted operand on to its branches. */
module Omitted {
  import opened Options
  import opened Models
  import opened Semantics
  import opened Scheduling
  import opened Blocking
  import opened Runs
  import opened Trackers
  import opened Graphs
  import opened CpuMemories
  import opened CpuCalls
  import opened CpuSizes
  import opened CpuExecutors

  const TENSOR := OperandType(3, [1], 1.0, 0, [])
  const BOOL8 := OperandType(6, [1], 1.0, 0, [])
  const MODEL_REFERENCE := OperandType(15, [], 0.0, 0, [])

  // One operation on a device, from a constant to the output. Nothing reads the input.
  function BranchModel(): Model {
    Model([Operand(TENSOR, SubgraphInput, 0, []), Operand(TENSOR, ConstantCopy, 1, [5]), Operand(TENSOR, SubgraphOutput, 0, [])],
          [Operation(0, [1], [2], OnDevice(0))], [0], [2])
  }

  // An IF whose one input to pass on is omitted.
  function IfModel(): Model {
    Model([Operand(BOOL8, SubgraphInput, 1, []),
           Operand(MODEL_REFERENCE, SubgraphReference, 1, []),
           Operand(MODEL_REFERENCE, SubgraphReference, 1, []),
           Operand(TENSOR, NoValue, 1, []),
           Operand(TENSOR, SubgraphOutput, 0, [])],
          [Operation(96, [0, 1, 2, 3], [4], InterpretIf(BranchModel(), BranchModel()))], [0], [4])
  }

  function BranchPlan(): seq<Group> { [Partition(0, [0])] }
  function IfPlan(): seq<Group> { [Branch(0, BranchPlan(), BranchPlan())] }

  // A device that computes the same bytes from every tensor.
  function Same(opcode: int, inputs: seq<Bytes>): Option<seq<Bytes>> {
    if inputs == [[5]] then Some([[7]]) else None
  }

  lemma BranchModelIsOrdered()
    ensures Ordered(BranchModel().operations, KnownSet(BranchModel()))
    ensures 2 in OutputsOf(BranchModel().operations)
    ensures KnownSet(BranchModel()) == {0, 1}
  {
    var m := BranchModel();
    assert m.operations[0].outputs == [2] && m.operations[1..] == [];
    assert 2 in OutputsOf(m.operations);
    assert 0 in KnownSet(m) && 1 in KnownSet(m) && 2 !in KnownSet(m);
    assert Ordered(m.operations[1..], KnownSet(m) + AsSet(m.operations[0].outputs));
  }

  lemma BranchModelIsShallowValid()
    ensures ShallowValid(BranchModel())
  {
    hide Ordered, OutputsOf, KnownSet;
    BranchModelIsOrdered();
    var m := BranchModel();
    assert 0 in m.inputIndexes && 2 in m.outputIndexes;
    assert ListsLifetime(m.inputIndexes, m.operands, SubgraphInput);
    assert ListsLifetime(m.outputIndexes, m.operands, SubgraphOutput);
    assert OperationFits(m.operations[0], m.operands);
  }

  lemma BranchModelIsValid()
    ensures Valid(BranchModel()) && Schedules(BranchPlan(), BranchModel())
  {
    hide ShallowValid, Ordered, KnownSet;
    BranchModelIsOrdered();
    BranchModelIsShallowValid();
    var m, gs := BranchModel(), BranchPlan();
    assert gs[1..] == [] && Order(gs) == [0] + Order(gs[1..]) == [0];
    assert Pick(m, [0]) == m.operations;
    assert 0 in Order(gs);
    assert GroupFits(gs[0], m);
  }

  lemma IfModelIsOrdered()
    ensures Ordered(IfModel().operations, KnownSet(IfModel()))
    ensures 4 in OutputsOf(IfModel().operations)
    ensures KnownSet(IfModel()) == {0, 1, 2, 3}
  {
    hide BranchModel;
    var m := IfModel();
    var op := m.operations[0];
    assert op.outputs == [4] && m.operations[1..] == [];
    assert 4 in OutputsOf(m.operations);
    assert 0 in KnownSet(m) && 1 in KnownSet(m) && 2 in KnownSet(m) && 3 in KnownSet(m) && 4 !in KnownSet(m);
    assert Ordered(m.operations[1..], KnownSet(m) + AsSet(op.outputs));
  }

  lemma IfModelIsShallowValid()
    ensures ShallowValid(IfModel())
  {
    hide BranchModel, Ordered, OutputsOf, KnownSet;
    IfModelIsOrdered();
    BranchModelShape();
    var m := IfModel();
    assert 0 in m.inputIndexes && 4 in m.outputIndexes;
    assert ListsLifetime(m.inputIndexes, m.operands, SubgraphInput);
    assert ListsLifetime(m.outputIndexes, m.operands, SubgraphOutput);
    assert OperationFits(m.operations[0], m.operands);
  }

  lemma IfModelIsValid()
    ensures Valid(IfModel()) && Schedules(IfPlan(), IfModel())
  {
    BranchModelIsValid();
    IfModelIsOrdered();
    IfModelIsShallowValid();
    hide BranchModel, BranchPlan, Ordered, ShallowValid, OutputsOf, KnownSet;
    var m := IfModel();
    assert Valid(m) by {
      hide Schedules;
      assert ValidPlacement(m.operations[0].placement);
    }
    hide Valid;
    var gs := IfPlan();
    assert GroupFits(gs[0], m);
    hide GroupFits;
    assert gs[1..] == [] && Order(gs) == [0] + Order(gs[1..]) == [0];
    assert Pick(m, [0]) == m.operations;
    assert 0 in Order(gs);
  }

  lemma BranchModelShape()
    ensures |BranchModel().inputIndexes| == |BranchModel().outputIndexes| == 1
  {
  }

  lemma BranchRunEnds()
    ensures RunModel(Same, 1, BranchModel(), [[]]) == Done([[7]])
  {
    var b := BranchModel();
    var env := Bind(Constants(b), b.inputIndexes, [[]]);
    assert 1 in Constants(b) && 1 !in b.inputIndexes;
    assert Get(env, [1]) == [[5]];
    var env' := Bind(env, [2], [[7]]);
    assert RunOperation(Same, 1, b.operations[0], env) == Done(env');
    assert b.operations[1..] == [] && RunOperations(Same, 1, [], env') == Done(env');
    assert 2 in [2] && env'[[2][0]] == [7];
    assert Get(env', b.outputIndexes) == [[7]];
  }

  lemma NestedInputs(env: Env)
    requires env == Bind(Constants(IfModel()), IfModel().inputIndexes, [[1]])
    ensures Knows(env, [0, 1, 2, 3]) && Get(env, [0, 1, 2, 3]) == [[1], [], [], []]
  {
    hide BranchModel;
    var m := IfModel();
    assert 0 in m.inputIndexes && env[m.inputIndexes[0]] == [1];
    assert 1 in Constants(m) && 2 in Constants(m) && 3 in Constants(m);
    hide Bind, IfModel, Constants;
    assert env[1] == [] && env[2] == [] && env[3] == [];
  }

  lemma NestedStep(env: Env)
    requires env == Bind(Constants(IfModel()), IfModel().inputIndexes, [[1]])
    ensures RunOperation(Same, 1, IfModel().operations[0], env) == Done(Bind(env, [4], [[7]]))
  {
    BranchRunEnds();
    NestedInputs(env);
    hide BranchModel, RunModel, Get, Bind, Constants;
    assert [[1 as byte], [], [], []][IF_FIRST_INPUT..] == [[]];
  }

  lemma NestedRunEnds()
    ensures RunModel(Same, 1, IfModel(), [[1]]) == Done([[7]])
  {
    IfModelShape();
    hide IfModel, RunOperation, RunOperations, Constants, Bind, SameResult;
    var m := IfModel();
    var env := Bind(Constants(m), m.inputIndexes, [[1]]);
    NestedStep(env);
    var env' := Bind(env, [4], [[7]]);
    OnlyStep(m.operations[0], env, env');
    OutputIsBound(env, 4, [7]);
    assert Get(env', [4]) == [[7]];
  }

  lemma OnlyStep(op: Operation, env: Env, env': Env)
    requires RunOperation(Same, 1, op, env) == Done(env')
    ensures RunOperations(Same, 1, [op], env) == Done(env')
  {
    OneBlocks(Same, 1, [], op, env);
    hide RunOperation, RunOperations;
  }

  lemma OutputIsBound(env: Env, x: nat, v: Bytes)
    ensures x in Bind(env, [x], [v]) && Bind(env, [x], [v])[x] == v
  {
    var r := Bind(env, [x], [v]);
    assert Distinct([x]) && x in [x] && r[[x][0]] == v;
  }

  /** The nested run ends with a value, and the flat run of the same valid model
      crashes: without an operand to pass there is no location to pass. */
  lemma FlatteningFailsOnOmittedOperand()
    ensures Valid(IfModel()) && Schedules(IfPlan(), IfModel()) && AlwaysBlocks(IfModel())
    ensures RunModel(Same, 1, IfModel(), [[1]]) == Done([[7]])
    ensures exists n: nat :: Crashes(Same, IfModel(), IfPlan(), [[1]], n)
    ensures forall n: nat :: !EndsWith(Same, IfModel(), IfPlan(), [[1]], n, [[7]])
  {
    IfModelIsValid();
    NestedRunEnds();
    IfModelBlocks();
    hide *;
    AlwaysMeansHere(Same, 1, IfModel(), [[1]]);
    IfModelShape();
    var n := BlockedRunsCrash(Same, 1, IfModel(), IfPlan(), [[1]]);
    CheckedBeforeTheRun(Same, IfModel(), IfPlan(), [[1]], [[7]]);
  }

  lemma IfModelShape()
    ensures |IfModel().inputIndexes| == 1 && IfModel().outputIndexes == [4] && IfModel().operations == [IfModel().operations[0]]
  {
  }

  lemma IfModelBlocks()
    ensures AlwaysBlocks(IfModel())
  {
    hide BranchModel;
    var op := IfModel().operations[0];
    assert Passed(op)[1] == 3;
    assert 3 in Passed(op) && !Passable(op, IfModel().operands);
  }

  // ----- the same model on the CPU -----

  // Every tensor here has one byte.
  function OneByte(o: Operand): nat { 1 }

  lemma OneUse(op: Operation, x: nat)
    ensures Uses([op], x) == Occurrences(op.inputs, x)
  {
    UsesAppend([], op, x);
    assert [] + [op] == [op];
  }

  lemma BranchModelIsRunnable()
    ensures Runnable(BranchModel()) && Sizable(Same, OneByte, BranchModel(), {})
  {
    BranchModelIsShallowValid();
    hide ShallowValid;
    var m := BranchModel();
    var op := m.operations[0];
    forall x: nat | x < 3 ensures m.operands[x].numberOfConsumers == Uses(m.operations, x) {
      OneUse(op, x);
      assert op.inputs == [1] && op.inputs[1..] == [];
    }
    assert SizableOperation(Same, OneByte, m, {}, op) by {
      forall vals: seq<Bytes> | Same(op.opcode, vals).Some? ensures HaveSizes(OneByte, m, op.outputs, Same(op.opcode, vals).value) {
      }
    }
  }

  lemma IfModelIsRunnable()
    ensures Runnable(IfModel())
  {
    IfModelIsShallowValid();
    BranchModelIsRunnable();
    hide ShallowValid, BranchModel, Sizable;
    var m := IfModel();
    var op := m.operations[0];
    forall x: nat | x < 5 ensures m.operands[x].numberOfConsumers == Uses(m.operations, x) {
      OneUse(op, x);
      CountsOfIf(x);
    }
    hide Uses;
    assert RunnablePlacement(op.placement);
  }

  lemma IfModelIsSizable()
    ensures Sizable(Same, OneByte, IfModel(), {0})
  {
    BranchModelIsRunnable();
    hide BranchModel, Runnable;
    var m, b := IfModel(), BranchModel();
    var op := m.operations[0];
    BranchIsSizable();
    hide SizableBranch;
    assert IsSure(m, {0}, op.inputs[IF_CONDITION]) && SizeAt(OneByte, m, op.inputs[IF_CONDITION]) > 0;
    assert SizableOperation(Same, OneByte, m, {0}, op);
  }

  lemma BranchIsSizable()
    ensures |IfModel().operations| == 1 && |IfModel().operations[0].inputs| >= IF_FIRST_INPUT
    ensures SizableBranch(Same, OneByte, IfModel(), {0}, IfModel().operations[0], BranchModel())
  {
    var m, b := IfModel(), BranchModel();
    var op := m.operations[0];
    BranchModelIsRunnable();
    BranchOutput();
    hide Sizable, BranchModel, SizesAgree, Runnable;
    assert op.inputs[IF_FIRST_INPUT..] == [3] && !IsSure(m, {0}, 3);
    assert SureInputs(m, {0}, [3], b) == {};
  }

  lemma CountsOfIf(x: nat)
    ensures Occurrences([0, 1, 2, 3], x) == if x < 4 then 1 else 0
  {
    assert [0, 1, 2, 3][1..] == [1, 2, 3] && [1, 2, 3][1..] == [2, 3] && [2, 3][1..] == [3] && [3][1..] == [];
    assert Occurrences([3], x) == if x == 3 then 1 else 0;
    assert Occurrences([2, 3], x) == (if x == 2 then 1 else 0) + Occurrences([3], x);
    assert Occurrences([1, 2, 3], x) == (if x == 1 then 1 else 0) + Occurrences([2, 3], x);
  }

  lemma BranchOutput()
    ensures SizesAgree(OneByte, IfModel(), [4], BranchModel(), BranchModel().outputIndexes)
  {
    assert SizeAt(OneByte, BranchModel(), BranchModel().outputIndexes[0]) == 1;
    assert SizeAt(OneByte, IfModel(), 4) == 1;
  }

  // One buffer, for the output.
  lemma IsPassed(memory: Memory)
    requires memory == map[0 := Buffer([], 1)]
    ensures Allocated(memory, 1) && MayBePassed([Static([1])], [Heap(0)], memory, [[1]])
  {
  }

  lemma IsReady(memory: Memory)
    requires memory == map[0 := Buffer([], 1)]
    ensures ReadyCall(Same, OneByte, IfModel(), {0}, [Heap(0)], memory, 1, [[1]])
  {
    IfModelIsSizable();
    InputSize();
    hide Sizable, IfModel, SizeAt;
  }

  lemma InputSize()
    ensures |IfModel().inputIndexes| == 1 && SizeAt(OneByte, IfModel(), IfModel().inputIndexes[0]) == 1
    ensures IfModel().outputIndexes == [4] && SizeAt(OneByte, IfModel(), 4) == 1
  {
  }

  lemma Contained(memory: Memory, b: nat)
    ensures IsLive(Heap(b), memory) <==> b in memory
  {
  }

  /** The CPU executor runs the model on which the plan crashes, and leaves its value. */
  method RunsOnTheCpu() returns (ok: bool, value: Bytes)
    ensures ok && value == [7]
  {
    hide *;
    var executor := new CpuExecutor(_ => false, OneByte);
    var b := executor.Allocate(1);
    ghost var results;
    IfModelIsRunnable();
    NestedRunEnds();
    IfModelShape();
    IsPassed(executor.memory);
    IsReady(executor.memory);
    ok, results := executor.Run(Same, 1, IfModel(), [Static([1])], [Heap(b)], [[1]], {0});
    Contained(executor.memory, b);
    ghost var outputs := [Heap(b)];
    assert outputs[0] == Heap(b) && results == [[7]];
    value := executor.Read(Heap(b));
  }
}
