/** Slicing: the part of a model that an older version of the interface can express. */
module Slices {
  import opened Sequences
  import opened Options
  import opened Models
  import opened Scheduling
  import opened Partitions
  import opened Trackers
  import opened Queues
  import opened ExecutionSteps
  import opened Graphs

  // A slice, where each of its operations comes from, and where operands of the original
  // model went. Model inputs are shared by type.
  datatype Slice = Slice(
    operands: seq<Operand>,
    operations: seq<Operation>,
    inputIndexes: seq<nat>,
    outputIndexes: seq<nat>,
    origins: seq<nat>,
    index: map<nat, nat>,
    inputOfType: map<OperandType, nat>)

  function AsModel(s: Slice): Model {
    Model(s.operands, s.operations, s.inputIndexes, s.outputIndexes)
  }

  /** The graph is valid, and inputs and outputs are listed. */
  ghost predicate IsWellFormed(m: Model) {
    && OperandsInRange(m) && IsGraph(m)
    && ListsLifetime(m.inputIndexes, m.operands, SubgraphInput)
    && ListsLifetime(m.outputIndexes, m.operands, SubgraphOutput)
  }

  // ----- building a graph keeps it well formed -----

  lemma {:induction false} NoUses(ops: seq<Operation>, x: nat)
    requires forall i :: 0 <= i < |ops| ==> x !in ops[i].inputs
    ensures Uses(ops, x) == 0
  {
    if ops != [] {
      NoUses(ops[..|ops| - 1], x);
      NotOccurring(ops[|ops| - 1].inputs, x);
    }
  }

  lemma {:induction false} NotOccurring(inputs: seq<nat>, x: nat)
    requires x !in inputs
    ensures Occurrences(inputs, x) == 0
  {
    if inputs != [] { NotOccurring(inputs[1..], x); }
  }

  lemma {:induction false} OrderedWithMore(ops: seq<Operation>, known: set<nat>, x: nat)
    requires Ordered(ops, known) && x !in OutputsOf(ops)
    ensures Ordered(ops, known + {x})
  {
    if ops != [] {
      OrderedWithMore(ops[1..], known + AsSet(ops[0].outputs), x);
      assert known + {x} + AsSet(ops[0].outputs) == known + AsSet(ops[0].outputs) + {x};
    }
  }

  lemma NewOperandIsUnused(m: Model)
    requires OperandsInRange(m)
    ensures Uses(m.operations, |m.operands|) == 0 && |m.operands| !in OutputsOf(m.operations)
  {
    NoUses(m.operations, |m.operands|);
    OutputsOfMembers(m.operations);
  }

  // The lists of operands with a lifetime after one operand is added.
  lemma ListsOneMore(indexes: seq<nat>, operands: seq<Operand>, o: Operand, l: Lifetime)
    requires ListsLifetime(indexes, operands, l)
    ensures ListsLifetime(if o.lifetime == l then indexes + [|operands|] else indexes, operands + [o], l)
  {
    var n, indexes', operands' := |operands|, if o.lifetime == l then indexes + [|operands|] else indexes, operands + [o];
    forall x | x in indexes' ensures x < |operands'| && operands'[x].lifetime == l {
      assert x in indexes || x == n;
    }
    forall x | 0 <= x < |operands'| && operands'[x].lifetime == l ensures x in indexes' {
      assert x < n ==> x in indexes;
      assert x == n ==> indexes'[|indexes|] == n;
    }
    assert n !in indexes;
  }

  /** A new operand that nothing uses yet, with a value known from the start. */
  lemma KnownOperandKeeps(m: Model, o: Operand)
    requires IsWellFormed(m) && o.numberOfConsumers == 0 && KnownInitially(o.lifetime)
    ensures IsWellFormed(m.(operands := m.operands + [o],
                            inputIndexes := if o.lifetime == SubgraphInput then m.inputIndexes + [|m.operands|] else m.inputIndexes))
  {
    hide Uses, Ordered, OutputsOf;
    var m' := m.(operands := m.operands + [o],
                 inputIndexes := if o.lifetime == SubgraphInput then m.inputIndexes + [|m.operands|] else m.inputIndexes);
    NewOperandIsUnused(m);
    assert KnownSet(m') == KnownSet(m) + {|m.operands|};
    OrderedWithMore(m.operations, KnownSet(m), |m.operands|);
    ListsOneMore(m.inputIndexes, m.operands, o, SubgraphInput);
    ListsOneMore(m.outputIndexes, m.operands, o, SubgraphOutput);
    hide ListsLifetime;
    assert OperandsInRange(m') by { assert m'.operations == m.operations; }
  }

  lemma OperationKeeps(m: Model, op: Operation)
    requires IsWellFormed(m) && op.inputs == [] && op.outputs == []
    ensures IsWellFormed(m.(operations := m.operations + [op]))
  {
    hide Uses, Ordered, OutputsOf, ListsLifetime;
    var m' := m.(operations := m.operations + [op]);
    assert KnownSet(m') == KnownSet(m);
    OrderedAppend(m.operations, op, KnownSet(m));
    OutputsOfConcatenation(m.operations, [op]);
    forall x: nat ensures Uses(m'.operations, x) == Uses(m.operations, x) {
      UsesAppend(m.operations, op, x);
      NoOccurrences();
    }
  }

  // The model with one more input for its last operation.
  function WithInput(m: Model, j: nat): Model
    requires m.operations != [] && j < |m.operands|
  {
    var last := m.operations[|m.operations| - 1];
    m.(operands := m.operands[j := m.operands[j].(numberOfConsumers := m.operands[j].numberOfConsumers + 1)],
       operations := m.operations[|m.operations| - 1 := last.(inputs := last.inputs + [j])])
  }

  // The last operation can be changed as long as it stays in order.
  lemma LastCanChange(ops: seq<Operation>, last: Operation, known: set<nat>)
    requires ops != [] && Ordered(ops, known)
    requires forall x :: x in last.inputs ==> x in known + OutputsOf(ops[..|ops| - 1])
    requires Distinct(last.outputs) && forall x :: x in last.outputs ==> x !in known + OutputsOf(ops[..|ops| - 1])
    ensures Ordered(ops[|ops| - 1 := last], known)
  {
    hide Ordered, OutputsOf;
    var front := ops[..|ops| - 1];
    assert ops == front + [ops[|ops| - 1]] && ops[|ops| - 1 := last] == front + [last];
    OrderedConcatenation(front, [ops[|ops| - 1]], known);
    OrderedAppend(front, last, known);
  }

  lemma LastOutputs(ops: seq<Operation>, last: Operation)
    requires ops != []
    ensures OutputsOf(ops) == OutputsOf(ops[..|ops| - 1]) + AsSet(ops[|ops| - 1].outputs)
    ensures OutputsOf(ops[|ops| - 1 := last]) == OutputsOf(ops[..|ops| - 1]) + AsSet(last.outputs)
  {
    hide OutputsOf;
    var front := ops[..|ops| - 1];
    assert ops == front + [ops[|ops| - 1]] && ops[|ops| - 1 := last] == front + [last];
    OutputsOfConcatenation(front, [ops[|ops| - 1]]);
    OutputsOfConcatenation(front, [last]);
    OutputsOfOne(ops[|ops| - 1]);
    OutputsOfOne(last);
  }

  lemma LastUses(ops: seq<Operation>, last: Operation, x: nat)
    requires ops != []
    ensures Uses(ops, x) == Uses(ops[..|ops| - 1], x) + Occurrences(ops[|ops| - 1].inputs, x)
    ensures Uses(ops[|ops| - 1 := last], x) == Uses(ops[..|ops| - 1], x) + Occurrences(last.inputs, x)
  {
    assert ops[|ops| - 1 := last][..|ops| - 1] == ops[..|ops| - 1];
  }

  lemma LastInRange(m: Model, m': Model, last: Operation)
    requires OperandsInRange(m) && m.operations != [] && |m'.operands| >= |m.operands|
    requires InRange(last.inputs, |m'.operands|) && InRange(last.outputs, |m'.operands|)
    requires m'.operations == m.operations[|m.operations| - 1 := last]
    ensures OperandsInRange(m')
  {
    forall i | 0 <= i < |m'.operations| ensures InRange(m'.operations[i].inputs, |m'.operands|) && InRange(m'.operations[i].outputs, |m'.operands|) {
      assert InRange(m.operations[i].inputs, |m.operands|);
    }
  }

  lemma InputKeeps(m: Model, j: nat)
    requires IsWellFormed(m) && m.operations != [] && j < |m.operands| && m.operations[|m.operations| - 1].outputs == []
    ensures IsWellFormed(WithInput(m, j))
  {
    hide Uses, Ordered, OutputsOf, Occurrences, ListsLifetime, OperandsInRange;
    var m', last := WithInput(m, j), m.operations[|m.operations| - 1];
    var last' := last.(inputs := last.inputs + [j]);
    assert KnownSet(m') == KnownSet(m);
    InputsInOrder(m);
    LastOutputs(m.operations, last');
    LastCanChange(m.operations, last', KnownSet(m));
    forall x: nat ensures Uses(m'.operations, x) == Uses(m.operations, x) + if x == j then 1 else 0 {
      LastUses(m.operations, last', x);
      OccurrencesAppend(last.inputs, x, j);
    }
    SameLifetimes(m.inputIndexes, m.operands, m'.operands, SubgraphInput);
    SameLifetimes(m.outputIndexes, m.operands, m'.operands, SubgraphOutput);
    LastIsInRange(m);
    LastInRange(m, m', last');
  }

  lemma LastIsInRange(m: Model)
    requires OperandsInRange(m) && m.operations != []
    ensures InRange(m.operations[|m.operations| - 1].inputs, |m.operands|) && InRange(m.operations[|m.operations| - 1].outputs, |m.operands|)
  {
  }

  lemma InputsInOrder(m: Model)
    requires Ordered(m.operations, KnownSet(m)) && m.operations != []
    ensures var last, front := m.operations[|m.operations| - 1], m.operations[..|m.operations| - 1];
            && (forall x :: x in last.inputs ==> x in KnownSet(m) + OutputsOf(front))
            && Distinct(last.outputs) && (forall x :: x in last.outputs ==> x !in KnownSet(m) + OutputsOf(front))
  {
    NextIsOrderly(m, |m.operations| - 1);
  }

  lemma OutputsOfOne(op: Operation)
    ensures OutputsOf([op]) == AsSet(op.outputs)
  {
    assert [op][1..] == [];
  }

  lemma SameLifetimes(indexes: seq<nat>, a: seq<Operand>, b: seq<Operand>, l: Lifetime)
    requires ListsLifetime(indexes, a, l) && |b| == |a| && forall x :: 0 <= x < |a| ==> b[x].lifetime == a[x].lifetime
    ensures ListsLifetime(indexes, b, l)
  {
  }

  // The model with a new operand as one more output of its last operation.
  function WithOutput(m: Model, o: Operand): Model
    requires m.operations != []
  {
    var last := m.operations[|m.operations| - 1];
    m.(operands := m.operands + [o],
       operations := m.operations[|m.operations| - 1 := last.(outputs := last.outputs + [|m.operands|])],
       outputIndexes := if o.lifetime == SubgraphOutput then m.outputIndexes + [|m.operands|] else m.outputIndexes)
  }

  lemma OutputKeeps(m: Model, o: Operand)
    requires IsWellFormed(m) && m.operations != [] && o.numberOfConsumers == 0 && !KnownInitially(o.lifetime)
    ensures IsWellFormed(WithOutput(m, o))
  {
    hide Uses, Ordered, OutputsOf, Occurrences, ListsLifetime, OperandsInRange;
    var n, m', last := |m.operands|, WithOutput(m, o), m.operations[|m.operations| - 1];
    var last' := last.(outputs := last.outputs + [n]);
    assert KnownSet(m') == KnownSet(m);
    NewOperandIsUnused(m);
    InputsInOrder(m);
    LastOutputs(m.operations, last');
    LastCanChange(m.operations, last', KnownSet(m));
    forall x: nat ensures Uses(m'.operations, x) == Uses(m.operations, x) { LastUses(m.operations, last', x); }
    ListsOneMore(m.inputIndexes, m.operands, o, SubgraphInput);
    ListsOneMore(m.outputIndexes, m.operands, o, SubgraphOutput);
    LastIsInRange(m);
    LastInRange(m, m', last');
  }

  // ----- what a slice keeps of the original -----

  function ConsumedBy(m: Model, nc: set<nat>, n: nat): set<nat>
    requires n <= |m.operations|
  {
    if n == 0 then {} else ConsumedBy(m, nc, n - 1) + if n - 1 in nc then {} else AsSet(m.operations[n - 1].inputs)
  }

  /** The operands that a compliant operation reads. */
  function Consumed(m: Model, nc: set<nat>): set<nat> {
    ConsumedBy(m, nc, |m.operations|)
  }

  predicate IsCopied(l: Lifetime) {
    IsConstant(l) || l == NoValue
  }

  // Operands of the original that have an index in the slice before any operation is
  // processed.
  function Initially(m: Model, nc: set<nat>): set<nat> {
    (set x | x in Consumed(m, nc) && x < |m.operands| && IsCopied(m.operands[x].lifetime)) + AsSet(m.inputIndexes) * Consumed(m, nc)
  }

  // Outputs of the first operations that have an index in the slice.
  function Produced(m: Model, nc: set<nat>, n: nat): set<nat>
    requires n <= |m.operations|
  {
    if n == 0 then {}
    else Produced(m, nc, n - 1) + if n - 1 in nc then AsSet(m.operations[n - 1].outputs) * Consumed(m, nc) else AsSet(m.operations[n - 1].outputs)
  }

  /** The operands that a noncompliant operation writes. */
  function Foreign(m: Model, nc: set<nat>, n: nat): set<nat>
    requires n <= |m.operations|
  {
    if n == 0 then {} else Foreign(m, nc, n - 1) + if n - 1 in nc then AsSet(m.operations[n - 1].outputs) else {}
  }

  /** The compliant operations among the first ones. */
  function CompliantBelow(nc: set<nat>, n: nat): (r: seq<nat>)
    ensures forall i: nat :: i in r <==> i < n && i !in nc
    ensures forall i, j :: 0 <= i < j < |r| ==> r[i] < r[j]
  {
    if n == 0 then []
    else
      var r := CompliantBelow(nc, n - 1);
      assert forall i :: 0 <= i < |r| ==> r[i] in r;
      assert forall i: nat :: i in r + [n - 1] <==> i in r || i == n - 1;
      if n - 1 in nc then r else r + [n - 1]
  }

  // The lifetime in the slice of an operand of the original.
  function LifetimeOf(m: Model, nc: set<nat>, x: nat): Lifetime
    requires x < |m.operands|
  {
    if KnownInitially(m.operands[x].lifetime) then m.operands[x].lifetime
    else if x in Foreign(m, nc, |m.operations|) then SubgraphInput
    else if x !in Consumed(m, nc) && m.operands[x].numberOfConsumers > 0 then SubgraphOutput
    else m.operands[x].lifetime
  }

  // The data of an operand of the original in the slice. Model inputs have none.
  function ValueOf(m: Model, nc: set<nat>, x: nat): Bytes
    requires x < |m.operands|
  {
    if LifetimeOf(m, nc, x) == SubgraphInput then [] else m.operands[x].value
  }

  /** Operands keep their type and their data and get their lifetime. Two operands share an index only
      if it is a model input, and there is one model input for each type. */
  ghost predicate Maps(m: Model, nc: set<nat>, s: Slice) {
    && (forall x :: x in s.index ==>
          && x < |m.operands| && s.index[x] < |s.operands|
          && s.operands[s.index[x]].ty == m.operands[x].ty
          && s.operands[s.index[x]].lifetime == LifetimeOf(m, nc, x)
          && s.operands[s.index[x]].value == ValueOf(m, nc, x))
    && (forall x, y :: x in s.index && y in s.index && x != y && s.index[x] == s.index[y] ==> LifetimeOf(m, nc, x) == SubgraphInput)
    && (forall t :: t in s.inputOfType ==>
          s.inputOfType[t] < |s.operands| && s.operands[s.inputOfType[t]].ty == t && s.operands[s.inputOfType[t]].lifetime == SubgraphInput)
    && (forall j :: 0 <= j < |s.operands| && s.operands[j].lifetime == SubgraphInput ==>
          s.operands[j].ty in s.inputOfType && s.inputOfType[s.operands[j].ty] == j)
    && (forall j: nat :: j < |s.operands| ==> HasOrigin(s.index, j))
  }

  ghost predicate HasOrigin(index: map<nat, nat>, j: nat) {
    exists x :: x in index && index[x] == j
  }

  lemma OriginsRemain(index: map<nat, nat>, x: nat, j: nat)
    requires x !in index
    ensures HasOrigin(index[x := j], j) && forall i: nat :: HasOrigin(index, i) ==> HasOrigin(index[x := j], i)
  {
    assert x in index[x := j];
    forall i: nat | HasOrigin(index, i) ensures HasOrigin(index[x := j], i) {
      var y :| y in index && index[y] == i;
      assert y in index[x := j] && index[x := j][y] == i;
    }
  }

  /** What is asked of the original: it passed validation. */
  ghost predicate IsOriginal(m: Model) {
    && Ordered(m.operations, KnownSet(m)) && OperandsInRange(m)
    && (forall i, x :: 0 <= i < |m.operations| && x in m.operations[i].outputs ==> x < |m.operands| && !KnownInitially(m.operands[x].lifetime))
    && ListsLifetime(m.inputIndexes, m.operands, SubgraphInput)
  }

  /** No compliant operation reads an operand that stands for a model. */
  ghost predicate ReadsNoModel(m: Model, nc: set<nat>) {
    forall x :: x in Consumed(m, nc) && x < |m.operands| ==> m.operands[x].lifetime != SubgraphReference
  }

  /** The slice after the first n operations. */
  ghost predicate SlicedSoFar(m: Model, nc: set<nat>, n: nat, s: Slice)
    requires n <= |m.operations|
    ensures SlicedSoFar(m, nc, n, s) ==> s.origins == CompliantBelow(nc, n)
  {
    && IsWellFormed(AsModel(s)) && Maps(m, nc, s)
    && s.index.Keys == Initially(m, nc) + Produced(m, nc, n)
    && s.origins == CompliantBelow(nc, n) && |s.origins| == |s.operations|
    && AreRenumbered(s.index, Pick(m, s.origins), s.operations)
  }

  /** The slice of a model without some of its operations. */
  ghost predicate IsSlice(m: Model, nc: set<nat>, s: Slice) {
    SlicedSoFar(m, nc, |m.operations|, s)
  }

  // ----- operands of the slice -----

  /** A graph with the operands of the original mapped into it. */
  ghost predicate Sound(m: Model, nc: set<nat>, s: Slice) {
    IsWellFormed(AsModel(s)) && Maps(m, nc, s)
  }

  ghost predicate Grows<K(!new), V>(a: map<K, V>, b: map<K, V>) {
    forall x :: x in a ==> x in b && b[x] == a[x]
  }

  // The slice with a new operand for x.
  function WithOperand(s: Slice, x: nat, o: Operand): Slice {
    var n := |s.operands|;
    s.(operands := s.operands + [o], index := s.index[x := n],
       inputIndexes := if o.lifetime == SubgraphInput then s.inputIndexes + [n] else s.inputIndexes,
       inputOfType := if o.lifetime == SubgraphInput then s.inputOfType[o.ty := n] else s.inputOfType)
  }

  lemma MapsNewOperand(m: Model, nc: set<nat>, s: Slice, x: nat, o: Operand, operations: seq<Operation>, outputIndexes: seq<nat>)
    requires Maps(m, nc, s) && x !in s.index && x < |m.operands|
    requires o.ty == m.operands[x].ty && o.lifetime == LifetimeOf(m, nc, x) && o.value == ValueOf(m, nc, x)
    requires o.lifetime == SubgraphInput ==> o.ty !in s.inputOfType
    ensures Maps(m, nc, WithOperand(s, x, o).(operations := operations, outputIndexes := outputIndexes))
  {
    var s' := WithOperand(s, x, o);
    forall j: nat | j < |s'.operands| ensures HasOrigin(s'.index, j) {
      assert j < |s.operands| ==> HasOrigin(s.index, j);
      OriginsRemain(s.index, x, |s.operands|);
    }
    hide LifetimeOf, ValueOf, HasOrigin;
  }

  lemma MapsShared(m: Model, nc: set<nat>, s: Slice, x: nat)
    requires Maps(m, nc, s) && x !in s.index && x < |m.operands|
    requires LifetimeOf(m, nc, x) == SubgraphInput && m.operands[x].ty in s.inputOfType
    ensures Maps(m, nc, s.(index := s.index[x := s.inputOfType[m.operands[x].ty]]))
  {
    var i := s.inputOfType[m.operands[x].ty];
    var index := s.index[x := i];
    forall j: nat | j < |s.operands| ensures HasOrigin(index, j) {
      assert HasOrigin(s.index, j);
      OriginsRemain(s.index, x, i);
    }
    assert HasOrigin(s.index, i);
    assert s.operands[i].value == [];
    hide LifetimeOf, HasOrigin;
  }

  lemma MapsSame(m: Model, nc: set<nat>, s: Slice, s': Slice)
    requires Maps(m, nc, s) && s'.index == s.index && s'.inputOfType == s.inputOfType && |s'.operands| == |s.operands|
    requires forall j :: 0 <= j < |s.operands| ==>
               s'.operands[j].ty == s.operands[j].ty && s'.operands[j].lifetime == s.operands[j].lifetime && s'.operands[j].value == s.operands[j].value
    ensures Maps(m, nc, s')
  {
    hide LifetimeOf, ValueOf;
  }

  class SliceBuilder {
    const original: Model
    const noncompliant: set<nat>

    var operands: seq<Operand>
    var operations: seq<Operation>
    var inputIndexes: seq<nat>
    var outputIndexes: seq<nat>
    var origins: seq<nat>
    var index: map<nat, nat>
    var inputOfType: map<OperandType, nat>

    function Current(): Slice
      reads this
    {
      Slice(operands, operations, inputIndexes, outputIndexes, origins, index, inputOfType)
    }

    constructor (original: Model, noncompliant: set<nat>)
      ensures this.original == original && this.noncompliant == noncompliant
      ensures Sound(original, noncompliant, Current()) && index == map[] && origins == [] && operations == []
    {
      this.original, this.noncompliant := original, noncompliant;
      operands, operations, inputIndexes, outputIndexes, origins, index, inputOfType := [], [], [], [], [], map[], map[];
    }

    // Copies a constant or an omitted operand.
    method CopyOperand(x: nat)
      requires Sound(original, noncompliant, Current()) && x !in index && x < |original.operands| && IsCopied(original.operands[x].lifetime)
      modifies this`operands, this`index
      ensures Sound(original, noncompliant, Current()) && Grows(old(index), index) && index.Keys == old(index.Keys) + {x}
    {
      hide IsWellFormed, Maps;
      var o := original.operands[x].(numberOfConsumers := 0);
      KnownOperandKeeps(AsModel(Current()), o);
      MapsNewOperand(original, noncompliant, Current(), x, o, operations, outputIndexes);
      index := index[x := |operands|];
      operands := operands + [o];
    }

    // The model input for an operand; one that has the same type, if there is one already.
    method GetIndex(x: nat)
      requires Sound(original, noncompliant, Current()) && x !in index && x < |original.operands|
      requires LifetimeOf(original, noncompliant, x) == SubgraphInput
      modifies this`operands, this`index, this`inputIndexes, this`inputOfType
      ensures Sound(original, noncompliant, Current()) && Grows(old(index), index) && index.Keys == old(index.Keys) + {x}
    {
      hide IsWellFormed, Maps, LifetimeOf;
      var operand := original.operands[x];
      if operand.ty in inputOfType {
        MapsShared(original, noncompliant, Current(), x);
        index := index[x := inputOfType[operand.ty]];
        return;
      }
      var o := Operand(operand.ty, SubgraphInput, 0, []);
      KnownOperandKeeps(AsModel(Current()), o);
      MapsNewOperand(original, noncompliant, Current(), x, o, operations, outputIndexes);
      index := index[x := |operands|];
      inputOfType := inputOfType[operand.ty := |operands|];
      inputIndexes := inputIndexes + [|operands|];
      operands := operands + [o];
    }

    // Adds an input to the last operation. Fails if the operand has no index.
    method AddInput(x: nat) returns (ok: bool)
      requires Sound(original, noncompliant, Current()) && operations != [] && operations[|operations| - 1].outputs == []
      modifies this`operands, this`operations
      ensures ok <==> x in index
      ensures ok ==> Sound(original, noncompliant, Current())
      ensures ok ==> var last := old(operations)[|old(operations)| - 1];
                     operations == old(operations)[|old(operations)| - 1 := last.(inputs := last.inputs + [index[x]])]
    {
      hide IsWellFormed, LifetimeOf;
      if x !in index { return false; }
      var j := index[x];
      ghost var before := Current();
      InputKeeps(AsModel(Current()), j);
      var last := operations[|operations| - 1];
      operands := operands[j := operands[j].(numberOfConsumers := operands[j].numberOfConsumers + 1)];
      operations := operations[|operations| - 1 := last.(inputs := last.inputs + [j])];
      MapsSame(original, noncompliant, before, Current());
      ok := true;
    }

    // Adds an output to the last operation. What only noncompliant operations read is
    // made an output of the slice.
    method AddOutput(x: nat, consumed: set<nat>)
      requires Sound(original, noncompliant, Current()) && operations != [] && x !in index && x < |original.operands|
      requires !KnownInitially(original.operands[x].lifetime) && x !in Foreign(original, noncompliant, |original.operations|)
      requires consumed == Consumed(original, noncompliant)
      modifies this`operands, this`operations, this`outputIndexes, this`index
      ensures Sound(original, noncompliant, Current()) && Grows(old(index), index) && index.Keys == old(index.Keys) + {x}
      ensures var last := old(operations)[|old(operations)| - 1];
              operations == old(operations)[|old(operations)| - 1 := last.(outputs := last.outputs + [index[x]])]
    {
      hide IsWellFormed, Maps, Foreign, Consumed;
      var operand := original.operands[x];
      var o := operand.(numberOfConsumers := 0);
      if x !in consumed && operand.numberOfConsumers > 0 { o := o.(lifetime := SubgraphOutput); }
      var n := |operands|;
      OutputKeeps(AsModel(Current()), o);
      var last := operations[|operations| - 1];
      ghost var before := Current();
      operations := operations[|operations| - 1 := last.(outputs := last.outputs + [n])];
      if o.lifetime == SubgraphOutput { outputIndexes := outputIndexes + [n]; }
      MapsNewOperand(original, noncompliant, before, x, o, operations, outputIndexes);
      index := index[x := n];
      operands := operands + [o];
    }

    method AddOutputs(xs: seq<nat>, consumed: set<nat>)
      requires Sound(original, noncompliant, Current()) && operations != [] && operations[|operations| - 1].outputs == []
      requires Distinct(xs) && forall x :: x in xs ==> x !in index && x < |original.operands|
      requires forall x :: x in xs ==>
                 !KnownInitially(original.operands[x].lifetime) && x !in Foreign(original, noncompliant, |original.operations|)
      requires consumed == Consumed(original, noncompliant)
      modifies this`operands, this`operations, this`outputIndexes, this`index
      ensures Sound(original, noncompliant, Current()) && Grows(old(index), index) && index.Keys == old(index.Keys) + AsSet(xs)
      ensures var last := old(operations)[|old(operations)| - 1];
              operations == old(operations)[|old(operations)| - 1 := last.(outputs := Renumbered(index, xs))]
    {
      hide Sound, Foreign, Consumed, Renumbered, KnownInitially;
      ghost var ops, last := operations, operations[|operations| - 1];
      RenumberedNothing(index);
      for j := 0 to |xs|
        invariant Sound(original, noncompliant, Current())
        invariant Grows(old(index), index) && index.Keys == old(index.Keys) + AsSet(xs[..j])
        invariant operations == ops[|ops| - 1 := last.(outputs := Renumbered(index, xs[..j]))]
      {
        assert xs[j] in xs && xs[..j + 1] == xs[..j] + [xs[j]] && xs[j] !in xs[..j];
        ghost var f := index;
        AddOutput(xs[j], consumed);
        RenumberedAppend(f, index, xs, j);
        assert operations == ops[|ops| - 1 := last.(outputs := Renumbered(f, xs[..j]) + [index[xs[j]]])];
      }
      assert xs[..|xs|] == xs;
    }

    // Noncompliant operations leave model inputs for what compliant ones read.
    method ProcessNoncompliant(k: nat, consumed: set<nat>)
      requires Processing(original, noncompliant, k, Current()) && k < |original.operations| && k in noncompliant
      requires consumed == Consumed(original, noncompliant)
      modifies this`operands, this`index, this`inputIndexes, this`inputOfType
      ensures Processing(original, noncompliant, k + 1, Current())
    {
      hide IsWellFormed, Maps, Ordered, OutputsOf, LifetimeOf, ListsLifetime, Sound, AreRenumbered, Initially, Consumed, Foreign, CompliantBelow;
      var outputs := original.operations[k].outputs;
      ghost var before := Current();
      OutputsAreFresh(original, noncompliant, k);
      for i := 0 to |outputs|
        invariant Sound(original, noncompliant, Current()) && Grows(before.index, index)
        invariant index.Keys == before.index.Keys + AsSet(outputs[..i]) * consumed
      {
        assert outputs[i] in outputs && outputs[..i + 1] == outputs[..i] + [outputs[i]] && outputs[i] !in outputs[..i];
        if outputs[i] in consumed { GetIndex(outputs[i]); }
      }
      assert outputs[..|outputs|] == outputs;
      RenumberedLonger(before.index, index, Pick(original, origins), operations);
      StillCompliant(noncompliant, k);
    }

    // Adds the translation of an operation. Fails if an input has no index.
    method ProcessCompliant(k: nat, consumed: set<nat>) returns (ok: bool)
      requires Processing(original, noncompliant, k, Current()) && k < |original.operations| && k !in noncompliant
      requires consumed == Consumed(original, noncompliant)
      modifies this
      ensures ok <==> forall x :: x in original.operations[k].inputs ==> x in old(index)
      ensures ok ==> Processing(original, noncompliant, k + 1, Current())
    {
      hide IsWellFormed, Maps, Ordered, OutputsOf, LifetimeOf, ListsLifetime, AreRenumbered, Initially, Consumed, Foreign, CompliantBelow, Renumbered;
      var op := original.operations[k];
      ghost var before := Current();
      OutputsAreFresh(original, noncompliant, k);
      OperationKeeps(AsModel(Current()), op.(inputs := [], outputs := []));
      origins := origins + [k];
      operations := operations + [op.(inputs := [], outputs := [])];
      MapsSame(original, noncompliant, before, Current());
      hide Sound;
      RenumberedNothing(index);
      for i := 0 to |op.inputs|
        invariant forall x :: x in op.inputs[..i] ==> x in index
        invariant Sound(original, noncompliant, Current()) && index == before.index && origins == before.origins + [k]
        invariant operations == before.operations + [op.(inputs := Renumbered(index, op.inputs[..i]), outputs := [])]
      {
        OneMore(op.inputs, i);
        ok := AddInput(op.inputs[i]);
        if !ok { return; }
        RenumberedAppend(index, index, op.inputs, i);
      }
      AllTaken(op.inputs);
      AddOutputs(op.outputs, consumed);
      assert operations == before.operations + [op.(inputs := Renumbered(before.index, op.inputs), outputs := Renumbered(index, op.outputs))];
      RenumberedAgain(before.index, index, op.inputs);
      OneMoreRenumbered(before.index, index, Pick(original, before.origins), before.operations, op);
      OneMoreCompliant(original, noncompliant, k);
      ok := true;
    }
  }

  /** The slice after the first n operations of a model that passed validation. */
  ghost predicate Processing(m: Model, nc: set<nat>, n: nat, s: Slice)
    ensures Processing(m, nc, n, s) ==> n <= |m.operations| && s.origins == CompliantBelow(nc, n) && |s.origins| == |s.operations|
    ensures Processing(m, nc, n, s) ==> InRange(s.origins, |m.operations|) && AreRenumbered(s.index, Pick(m, s.origins), s.operations)
    ensures Processing(m, nc, n, s) ==> s.index.Keys == Initially(m, nc) + Produced(m, nc, n) && Sound(m, nc, s)
  {
    && IsOriginal(m) && n <= |m.operations| && Sound(m, nc, s)
    && s.index.Keys == Initially(m, nc) + Produced(m, nc, n)
    && s.origins == CompliantBelow(nc, n) && |s.origins| == |s.operations|
    && AreRenumbered(s.index, Pick(m, s.origins), s.operations)
  }

  lemma RenumberedNothing(f: map<nat, nat>)
    ensures Renumbered(f, []) == []
  {
  }

  lemma RenumberedLonger(f: map<nat, nat>, g: map<nat, nat>, ops: seq<Operation>, renumbered: seq<Operation>)
    requires AreRenumbered(f, ops, renumbered) && Grows(f, g)
    ensures AreRenumbered(g, ops, renumbered)
  {
    hide Renumbered;
    forall i | 0 <= i < |ops| ensures CoversOperation(g, ops[i]) && RenumberedOperation(g, ops[i]) == renumbered[i] {
      assert CoversOperation(f, ops[i]);
      RenumberedAgain(f, g, ops[i].inputs);
      RenumberedAgain(f, g, ops[i].outputs);
    }
  }

  lemma StillCompliant(nc: set<nat>, k: nat)
    requires k in nc
    ensures CompliantBelow(nc, k + 1) == CompliantBelow(nc, k)
  {
  }

  lemma OneMoreCompliant(m: Model, nc: set<nat>, k: nat)
    requires k < |m.operations| && k !in nc
    ensures CompliantBelow(nc, k + 1) == CompliantBelow(nc, k) + [k]
    ensures InRange(CompliantBelow(nc, k), |m.operations|) && InRange(CompliantBelow(nc, k + 1), |m.operations|)
    ensures Pick(m, CompliantBelow(nc, k + 1)) == Pick(m, CompliantBelow(nc, k)) + [m.operations[k]]
  {
    assert CompliantBelow(nc, k + 1) == CompliantBelow(nc, k) + [k];
    PickAppend(m, CompliantBelow(nc, k), k);
  }

  // ----- what an operation writes has no index yet -----

  lemma {:induction false} ProducedAreOutputs(m: Model, nc: set<nat>, n: nat)
    requires n <= |m.operations|
    ensures forall x :: x in Produced(m, nc, n) ==> exists i :: 0 <= i < n && x in m.operations[i].outputs
    ensures forall x :: x in Foreign(m, nc, n) <==> exists i :: 0 <= i < n && i in nc && x in m.operations[i].outputs
  {
    if n > 0 {
      ProducedAreOutputs(m, nc, n - 1);
      forall x | x in Produced(m, nc, n) ensures exists i :: 0 <= i < n && x in m.operations[i].outputs {
        if x in Produced(m, nc, n - 1) {
          var i :| 0 <= i < n - 1 && x in m.operations[i].outputs;
        } else {
          assert x in m.operations[n - 1].outputs;
        }
      }
      forall x ensures x in Foreign(m, nc, n) <==> exists i :: 0 <= i < n && i in nc && x in m.operations[i].outputs {
        if x in Foreign(m, nc, n - 1) {
          var i :| 0 <= i < n - 1 && i in nc && x in m.operations[i].outputs;
        } else if i: nat :| i < n && i in nc && x in m.operations[i].outputs {
          assert i == n - 1;
        }
      }
    }
  }

  lemma OutputsAreFresh(m: Model, nc: set<nat>, k: nat)
    requires IsOriginal(m) && k < |m.operations|
    ensures Distinct(m.operations[k].outputs)
    ensures forall x :: x in m.operations[k].outputs ==>
              && x < |m.operands| && !KnownInitially(m.operands[x].lifetime)
              && x !in Initially(m, nc) && x !in Produced(m, nc, k)
              && (k in nc <==> x in Foreign(m, nc, |m.operations|))
              && (k in nc ==> LifetimeOf(m, nc, x) == SubgraphInput)
  {
    hide Ordered, Produced, Foreign, Consumed;
    LaterOutputs(m.operations, KnownSet(m), k);
    ProducedAreOutputs(m, nc, k);
    ProducedAreOutputs(m, nc, |m.operations|);
    forall x | x in m.operations[k].outputs
      ensures x < |m.operands| && !KnownInitially(m.operands[x].lifetime) && x !in Initially(m, nc)
      ensures x !in Produced(m, nc, k) && (k in nc <==> x in Foreign(m, nc, |m.operations|))
    {
      forall i | 0 <= i < |m.operations| && i != k ensures x !in m.operations[i].outputs {
        if i < k { OutputsDiffer(m.operations, KnownSet(m), i, k); } else { OutputsDiffer(m.operations, KnownSet(m), k, i); }
      }
    }
  }

  // ----- every lookup succeeds -----

  lemma {:induction false} ConsumedAre(m: Model, nc: set<nat>, n: nat)
    requires n <= |m.operations|
    ensures forall x :: x in ConsumedBy(m, nc, n) <==> exists i :: 0 <= i < n && i !in nc && x in m.operations[i].inputs
  {
    if n > 0 {
      ConsumedAre(m, nc, n - 1);
      forall x ensures x in ConsumedBy(m, nc, n) <==> exists i :: 0 <= i < n && i !in nc && x in m.operations[i].inputs {
        if x in ConsumedBy(m, nc, n - 1) {
          var i :| 0 <= i < n - 1 && i !in nc && x in m.operations[i].inputs;
        } else if i: nat :| i < n && i !in nc && x in m.operations[i].inputs {
          assert i == n - 1;
        }
      }
    }
  }

  lemma {:induction false} ConsumedOutputsAreProduced(m: Model, nc: set<nat>, n: nat, i: nat, x: nat)
    requires i < n <= |m.operations| && x in m.operations[i].outputs && x in Consumed(m, nc)
    ensures x in Produced(m, nc, n)
  {
    if i < n - 1 { ConsumedOutputsAreProduced(m, nc, n - 1, i, x); }
  }

  /** The operands that a compliant operation reads have an index when it is processed,
      except those that stand for models. */
  lemma LookupSucceeds(m: Model, nc: set<nat>, k: nat, x: nat)
    requires IsOriginal(m) && k < |m.operations| && k !in nc && x in m.operations[k].inputs
    ensures x < |m.operands|
    ensures x in Initially(m, nc) + Produced(m, nc, k) <==> m.operands[x].lifetime != SubgraphReference
  {
    hide Ordered, Produced, ConsumedBy, OutputsOf;
    assert x in Consumed(m, nc) by { ConsumedAre(m, nc, |m.operations|); }
    NextIsOrderly(m, k);
    if x in KnownSet(m) {
      ProducedAreOutputs(m, nc, k);
    } else {
      OutputsOfMembers(m.operations[..k]);
      var i :| 0 <= i < k && x in m.operations[..k][i].outputs;
      ConsumedOutputsAreProduced(m, nc, k, i, x);
    }
  }

  // ----- the whole slice -----

  lemma CopiedOfOneMore(m: Model, consumed: set<nat>, x: nat)
    ensures CopiedOf(m, consumed + {x}) == CopiedOf(m, consumed) + if x < |m.operands| && IsCopied(m.operands[x].lifetime) then {x} else {}
  {
  }

  // Adds the inputs of an operation, and copies those that are constants.
  method CollectInputs(builder: SliceBuilder, inputs: seq<nat>, consumed0: set<nat>) returns (consumed: set<nat>)
    requires Sound(builder.original, builder.noncompliant, builder.Current()) && InRange(inputs, |builder.original.operands|)
    requires builder.origins == [] && builder.operations == []
    requires builder.index.Keys == CopiedOf(builder.original, consumed0)
    modifies builder`operands, builder`index
    ensures Sound(builder.original, builder.noncompliant, builder.Current())
    ensures consumed == consumed0 + AsSet(inputs)
    ensures builder.index.Keys == CopiedOf(builder.original, consumed)
  {
    hide Sound, CopiedOf;
    var m, nc := builder.original, builder.noncompliant;
    consumed := consumed0;
    for j := 0 to |inputs|
      invariant Sound(m, nc, builder.Current()) && consumed == consumed0 + AsSet(inputs[..j])
      invariant builder.index.Keys == CopiedOf(m, consumed)
    {
      var input := inputs[j];
      OneMore(inputs, j);
      CopiedOfOneMore(m, consumed, input);
      if input !in consumed {
        consumed := consumed + {input};
        if IsCopied(m.operands[input].lifetime) {
          NotCopiedYet(m, consumed0 + AsSet(inputs[..j]), input);
          builder.CopyOperand(input);
        }
      }
    }
    AllTaken(inputs);
  }

  lemma NotCopiedYet(m: Model, consumed: set<nat>, x: nat)
    requires x !in consumed
    ensures x !in CopiedOf(m, consumed)
  {
  }

  method CollectConsumed(builder: SliceBuilder) returns (consumed: set<nat>)
    requires IsOriginal(builder.original) && builder.index == map[] && builder.origins == [] && builder.operations == []
    requires Sound(builder.original, builder.noncompliant, builder.Current())
    modifies builder`operands, builder`index
    ensures Sound(builder.original, builder.noncompliant, builder.Current())
    ensures consumed == Consumed(builder.original, builder.noncompliant)
    ensures builder.index.Keys == CopiedOf(builder.original, consumed)
  {
    var m, nc := builder.original, builder.noncompliant;
    assert forall i :: 0 <= i < |m.operations| ==> InRange(m.operations[i].inputs, |m.operands|);
    assert CopiedOf(m, {}) == {};
    hide Sound, IsOriginal, CopiedOf, InRange;
    consumed := {};
    for i := 0 to |m.operations|
      invariant Sound(m, nc, builder.Current()) && consumed == ConsumedBy(m, nc, i)
      invariant builder.index.Keys == CopiedOf(m, consumed)
    {
      if i !in nc {
        consumed := CollectInputs(builder, m.operations[i].inputs, consumed);
      }
    }
  }

  function CopiedOf(m: Model, consumed: set<nat>): set<nat> {
    set x | x in consumed && x < |m.operands| && IsCopied(m.operands[x].lifetime)
  }

  lemma InputsOfOriginal(m: Model, nc: set<nat>)
    requires IsOriginal(m)
    ensures Distinct(m.inputIndexes)
    ensures forall x :: x in m.inputIndexes ==> x < |m.operands| && !IsCopied(m.operands[x].lifetime) && LifetimeOf(m, nc, x) == SubgraphInput
  {
  }

  // Adds the model inputs that a compliant operation reads.
  method AddModelInputs(builder: SliceBuilder, consumed: set<nat>)
    requires IsOriginal(builder.original) && builder.origins == [] && builder.operations == []
    requires Sound(builder.original, builder.noncompliant, builder.Current())
    requires builder.index.Keys == CopiedOf(builder.original, consumed)
    modifies builder`operands, builder`index, builder`inputIndexes, builder`inputOfType
    ensures Sound(builder.original, builder.noncompliant, builder.Current())
    ensures builder.index.Keys == CopiedOf(builder.original, consumed) + AsSet(builder.original.inputIndexes) * consumed
  {
    hide Sound, Ordered, OutputsOf, Consumed, Foreign, OperandsInRange, LifetimeOf;
    var m, nc := builder.original, builder.noncompliant;
    var inputIndexes := m.inputIndexes;
    hide IsOriginal;
    InputsOfOriginal(m, nc);
    for i := 0 to |inputIndexes|
      invariant Sound(m, nc, builder.Current())
      invariant builder.index.Keys == CopiedOf(m, consumed) + AsSet(inputIndexes[..i]) * consumed
    {
      var input := inputIndexes[i];
      assert input in inputIndexes && inputIndexes[..i + 1] == inputIndexes[..i] + [input] && input !in inputIndexes[..i];
      if input in consumed { builder.GetIndex(input); }
    }
    assert inputIndexes[..|inputIndexes|] == inputIndexes;
  }

  /** Makes the slice, for any set of noncompliant operations. It fails exactly if a
      compliant operation reads a model. A slice is a valid graph with its inputs and
      outputs listed. */
  method MakeSlice(m: Model, nc: set<nat>) returns (slice: Option<Slice>)
    requires IsOriginal(m)
    ensures slice.Some? <==> ReadsNoModel(m, nc)
    ensures slice.Some? ==> IsSlice(m, nc, slice.value)
    ensures slice.Some? ==> IsGraph(AsModel(slice.value)) && OperandsInRange(AsModel(slice.value))
    ensures slice.Some? ==> ListsLifetime(slice.value.inputIndexes, slice.value.operands, SubgraphInput)
    ensures slice.Some? ==> ListsLifetime(slice.value.outputIndexes, slice.value.operands, SubgraphOutput)
  {
    hide Sound, Consumed, IsOriginal, Processing, ReadsNoModel, ReadsNoneSoFar, CopiedOf, IsSlice, IsGraph, OperandsInRange, ListsLifetime;
    var builder := new SliceBuilder(m, nc);
    var consumed := CollectConsumed(builder);
    AddModelInputs(builder, consumed);
    NothingProcessed(m, nc, builder.Current());
    for k := 0 to |m.operations|
      invariant Processing(m, nc, k, builder.Current()) && ReadsNoneSoFar(m, nc, k)
    {
      if k in nc {
        builder.ProcessNoncompliant(k, consumed);
      } else {
        LookupsSucceed(m, nc, k, builder.Current());
        var ok := builder.ProcessCompliant(k, consumed);
        if !ok { return None; }
      }
      ReadsNoneFurther(m, nc, k);
    }
    AllProcessed(m, nc, builder.Current());
    PartsOfSlice(m, nc, builder.Current());
    return Some(builder.Current());
  }

  lemma AllProcessed(m: Model, nc: set<nat>, s: Slice)
    requires Processing(m, nc, |m.operations|, s) && ReadsNoneSoFar(m, nc, |m.operations|)
    ensures IsSlice(m, nc, s) && ReadsNoModel(m, nc)
  {
    hide IsOriginal;
  }

  ghost predicate ReadsNoneSoFar(m: Model, nc: set<nat>, n: nat)
    requires n <= |m.operations|
  {
    forall x :: x in ConsumedBy(m, nc, n) && x < |m.operands| ==> m.operands[x].lifetime != SubgraphReference
  }

  lemma NothingProcessed(m: Model, nc: set<nat>, s: Slice)
    requires IsOriginal(m) && Sound(m, nc, s) && s.origins == [] && s.operations == []
    requires s.index.Keys == CopiedOf(m, Consumed(m, nc)) + AsSet(m.inputIndexes) * Consumed(m, nc)
    ensures Processing(m, nc, 0, s) && ReadsNoneSoFar(m, nc, 0)
  {
    hide Sound, Consumed, IsOriginal;
    assert Pick(m, []) == [];
  }

  lemma LookupsSucceed(m: Model, nc: set<nat>, k: nat, s: Slice)
    requires Processing(m, nc, k, s) && k < |m.operations| && k !in nc && ReadsNoneSoFar(m, nc, k)
    ensures var found := forall x :: x in m.operations[k].inputs ==> x in s.index;
            && (found ==> ReadsNoneSoFar(m, nc, k + 1))
            && (!found ==> !ReadsNoModel(m, nc))
  {
    hide Initially, Produced, Sound, AreRenumbered, CompliantBelow, IsOriginal;
    forall x | x in m.operations[k].inputs ensures x < |m.operands| && (x in s.index <==> m.operands[x].lifetime != SubgraphReference) && x in Consumed(m, nc) {
      IsFromOriginal(m, nc, k, s);
      LookupSucceeds(m, nc, k, x);
      ConsumedAre(m, nc, |m.operations|);
    }
  }

  lemma IsFromOriginal(m: Model, nc: set<nat>, k: nat, s: Slice)
    requires Processing(m, nc, k, s)
    ensures IsOriginal(m)
  {
    hide IsOriginal;
  }

  lemma ReadsNoneFurther(m: Model, nc: set<nat>, k: nat)
    requires k < |m.operations|
    ensures k in nc && ReadsNoneSoFar(m, nc, k) ==> ReadsNoneSoFar(m, nc, k + 1)
    ensures ReadsNoneSoFar(m, nc, |m.operations|) <==> ReadsNoModel(m, nc)
  {
  }

  // ----- what a slice is -----

  // The part of IsSlice that says that the slice is a valid model.
  lemma PartsOfSlice(m: Model, nc: set<nat>, s: Slice)
    requires IsSlice(m, nc, s)
    ensures IsGraph(AsModel(s)) && OperandsInRange(AsModel(s))
    ensures ListsLifetime(s.inputIndexes, s.operands, SubgraphInput) && ListsLifetime(s.outputIndexes, s.operands, SubgraphOutput)
  {
  }

  /** The operations of a slice are the compliant ones, in order. */
  lemma OperationsAreTheCompliantOnes(m: Model, nc: set<nat>, s: Slice)
    requires IsSlice(m, nc, s)
    ensures |s.origins| == |s.operations|
    ensures forall i, j :: 0 <= i < j < |s.origins| ==> s.origins[i] < s.origins[j]
    ensures forall k: nat :: k in s.origins <==> k < |m.operations| && k !in nc
    ensures forall j :: 0 <= j < |s.origins| ==> s.origins[j] in s.origins
    ensures forall j :: 0 <= j < |s.operations| ==> s.operations[j].opcode == m.operations[s.origins[j]].opcode
  {
    forall j | 0 <= j < |s.operations| ensures s.operations[j].opcode == m.operations[s.origins[j]].opcode {
      assert s.operations[j] == RenumberedOperation(s.index, Pick(m, s.origins)[j]);
    }
  }

  /** The arguments of a slice's operation are those of the original, at the same
      positions and of the same types. */
  lemma ArgumentsKeepTheirTypes(m: Model, nc: set<nat>, s: Slice, j: nat)
    requires IsSlice(m, nc, s) && j < |s.operations|
    ensures j < |s.origins| && s.origins[j] < |m.operations|
    ensures var op, op' := m.operations[s.origins[j]], s.operations[j];
            && |op'.inputs| == |op.inputs| && |op'.outputs| == |op.outputs|
            && (forall p :: 0 <= p < |op.inputs| ==>
                  op.inputs[p] < |m.operands| && op'.inputs[p] < |s.operands| && s.operands[op'.inputs[p]].ty == m.operands[op.inputs[p]].ty)
            && (forall p :: 0 <= p < |op.outputs| ==>
                  op.outputs[p] < |m.operands| && op'.outputs[p] < |s.operands| && s.operands[op'.outputs[p]].ty == m.operands[op.outputs[p]].ty)
  {
    TranslationAt(m, nc, s, j);
    hide IsWellFormed, LifetimeOf, AreRenumbered;
    var op := m.operations[s.origins[j]];
    assert forall p :: 0 <= p < |op.inputs| ==> op.inputs[p] in op.inputs && op.inputs[p] in s.index;
    assert forall p :: 0 <= p < |op.outputs| ==> op.outputs[p] in op.outputs && op.outputs[p] in s.index;
  }

  lemma TranslationAt(m: Model, nc: set<nat>, s: Slice, j: nat)
    requires IsSlice(m, nc, s) && j < |s.operations|
    ensures j < |s.origins| && s.origins[j] < |m.operations| && s.origins[j] !in nc
    ensures CoversOperation(s.index, m.operations[s.origins[j]])
    ensures s.operations[j] == RenumberedOperation(s.index, m.operations[s.origins[j]])
  {
    hide IsWellFormed, Maps;
    assert s.origins[j] in s.origins;
    assert CoversOperation(s.index, Pick(m, s.origins)[j]);
  }

  /** Two operands of the original share an operand of the slice only if both became
      model inputs and have the same type. */
  lemma SharedOperands(m: Model, nc: set<nat>, s: Slice, x: nat, y: nat)
    requires IsSlice(m, nc, s) && x in s.index && y in s.index && x != y
    ensures s.index[x] < |s.operands|
    ensures s.index[x] == s.index[y] ==>
              && s.operands[s.index[x]].lifetime == SubgraphInput
              && x < |m.operands| && y < |m.operands| && m.operands[x].ty == m.operands[y].ty
  {
    hide IsWellFormed, LifetimeOf, AreRenumbered;
  }

  /** One operation of the slice reads what another writes at a position if and only if
      the original ones do. */
  lemma EdgesArePreserved(m: Model, nc: set<nat>, s: Slice, i: nat, j: nat, p: nat)
    requires IsOriginal(m) && IsSlice(m, nc, s) && i < |s.operations| && j < |s.operations| && p < |s.operations[j].inputs|
    ensures i < |s.origins| && j < |s.origins| && s.origins[i] < |m.operations| && s.origins[j] < |m.operations|
    ensures p < |m.operations[s.origins[j]].inputs|
    ensures s.operations[j].inputs[p] in s.operations[i].outputs <==>
            m.operations[s.origins[j]].inputs[p] in m.operations[s.origins[i]].outputs
  {
    TranslationAt(m, nc, s, i);
    TranslationAt(m, nc, s, j);
    var a, b := m.operations[s.origins[i]], m.operations[s.origins[j]];
    var x := b.inputs[p];
    assert x in b.inputs;
    if x in a.outputs {
      var q :| 0 <= q < |a.outputs| && a.outputs[q] == x;
      assert s.operations[i].outputs[q] == s.operations[j].inputs[p];
    }
    if s.operations[j].inputs[p] in s.operations[i].outputs {
      var q :| 0 <= q < |a.outputs| && s.operations[i].outputs[q] == s.operations[j].inputs[p];
      var y := a.outputs[q];
      assert y in a.outputs;
      OutputIsNoInput(m, nc, s, s.origins[i], y);
      if x != y { SharedOperands(m, nc, s, x, y); }
    }
  }

  lemma OutputIsNoInput(m: Model, nc: set<nat>, s: Slice, k: nat, y: nat)
    requires IsOriginal(m) && IsSlice(m, nc, s) && k < |m.operations| && k !in nc && y in m.operations[k].outputs && y in s.index
    ensures s.index[y] < |s.operands| && s.operands[s.index[y]].lifetime != SubgraphInput
  {
    hide IsWellFormed, AreRenumbered, Foreign, Consumed;
    OutputsAreFresh(m, nc, k);
  }

  /** What a compliant operation writes becomes an output of the slice if and only if it
      is one of the original, or is read by noncompliant operations and by no compliant one. */
  lemma OutputsOfTheSlice(m: Model, nc: set<nat>, s: Slice, k: nat, x: nat)
    requires IsOriginal(m) && CountsConsumers(m) && IsSlice(m, nc, s)
    requires k < |m.operations| && k !in nc && x in m.operations[k].outputs
    ensures x in s.index && s.index[x] < |s.operands| && x < |m.operands|
    ensures s.index[x] in s.outputIndexes <==>
            || m.operands[x].lifetime == SubgraphOutput
            || ((exists i :: 0 <= i < |m.operations| && i in nc && x in m.operations[i].inputs) &&
                !(exists i :: 0 <= i < |m.operations| && i !in nc && x in m.operations[i].inputs))
  {
    hide Foreign, Ordered, OutputsOf, AreRenumbered;
    OutputsAreFresh(m, nc, k);
    ProducedHere(m, nc, |m.operations|, k, x);
    ConsumedAre(m, nc, |m.operations|);
    UsedSomewhere(m.operations, x);
    assert m.operands[x].numberOfConsumers == Uses(m.operations, x);
    hide Uses, ConsumedBy;
    assert s.index[x] in s.outputIndexes <==> LifetimeOf(m, nc, x) == SubgraphOutput;
  }

  /** The slice has no more inputs than it needs: what an input stands for is read by a
      compliant operation, and is an input of the original or written by a noncompliant one. */
  lemma InputsAreRead(m: Model, nc: set<nat>, s: Slice, x: nat)
    requires IsOriginal(m) && IsSlice(m, nc, s)
    requires x in s.index && s.index[x] < |s.operands| && s.operands[s.index[x]].lifetime == SubgraphInput
    ensures exists i: nat :: i < |m.operations| && i !in nc && x in m.operations[i].inputs
    ensures x in m.inputIndexes || exists i: nat :: i < |m.operations| && i in nc && x in m.operations[i].outputs
  {
    hide Ordered, OutputsOf, AreRenumbered, IsWellFormed, Foreign, Consumed, ConsumedBy, Produced, CompliantBelow;
    ConsumedIs(m, nc);
    ConsumedAre(m, nc, |m.operations|);
    ReadOrWritten(m, nc, |m.operations|, x);
    if k: nat :| k < |m.operations| && k !in nc && x in m.operations[k].outputs { OutputsAreFresh(m, nc, k); }
    ProducedAreOutputs(m, nc, |m.operations|);
  }

  lemma ConsumedIs(m: Model, nc: set<nat>)
    ensures Consumed(m, nc) == ConsumedBy(m, nc, |m.operations|)
  {
  }

  lemma {:induction false} ReadOrWritten(m: Model, nc: set<nat>, n: nat, x: nat)
    requires n <= |m.operations|
    ensures x in Produced(m, nc, n) ==>
              || (exists k: nat :: k < n && k !in nc && x in m.operations[k].outputs)
              || (x in Consumed(m, nc) && exists k: nat :: k < n && k in nc && x in m.operations[k].outputs)
  {
    hide Consumed;
    if n > 0 && x in Produced(m, nc, n) {
      ReadOrWritten(m, nc, n - 1, x);
      if x !in Produced(m, nc, n - 1) { assert x in m.operations[n - 1].outputs; }
    }
  }

  lemma {:induction false} ProducedHere(m: Model, nc: set<nat>, n: nat, k: nat, x: nat)
    requires k < n <= |m.operations| && k !in nc && x in m.operations[k].outputs
    ensures x in Produced(m, nc, n)
  {
    if k < n - 1 { ProducedHere(m, nc, n - 1, k, x); }
  }

  lemma {:induction false} UsedSomewhere(ops: seq<Operation>, x: nat)
    ensures Uses(ops, x) > 0 <==> exists i :: 0 <= i < |ops| && x in ops[i].inputs
  {
    if ops != [] {
      var front, last := ops[..|ops| - 1], ops[|ops| - 1];
      UsedSomewhere(front, x);
      OccursHere(last.inputs, x);
      if Uses(front, x) > 0 {
        var i :| 0 <= i < |front| && x in front[i].inputs;
        assert x in ops[i].inputs;
      }
      if i: nat :| i < |ops| && x in ops[i].inputs {
        if i < |front| { assert x in front[i].inputs; }
      }
    }
  }

  // ----- the check on a slice -----

  // Whether a slice cannot be used. In strict slicing the runtime stops over operations
  // without operands, over operands without operations, and over an invalid slice.
  method Invalid(s: Slice, strictSlicing: bool, ghost m: Model, ghost nc: set<nat>) returns (invalid: bool, stops: bool)
    requires IsSlice(m, nc, s)
    ensures stops <==> strictSlicing && s.operations != [] && s.operands == []
    ensures !stops ==> (invalid <==> s.operations == [] || s.outputIndexes == [])
  {
    PartsOfSlice(m, nc, s);
    EmptySlice(m, nc, s);
    hide IsSlice, IsGraph, ListsLifetime;
    var looksEmpty := s.operations == [];
    if strictSlicing && looksEmpty != (s.operands == []) { return true, true; }
    if looksEmpty || s.outputIndexes == [] { return true, false; }
    var graph := ValidateGraph(AsModel(s));
    var inputs := ValidateModelInputOutputs(s.inputIndexes, s.operands, SubgraphInput);
    var outputs := ValidateModelInputOutputs(s.outputIndexes, s.operands, SubgraphOutput);
    if !graph || !inputs || !outputs { return true, strictSlicing; }
    return false, false;
  }

  lemma {:induction false} NothingCompliant(m: Model, nc: set<nat>, n: nat)
    requires n <= |m.operations| && CompliantBelow(nc, n) == []
    ensures ConsumedBy(m, nc, n) == {} && forall x :: x in Produced(m, nc, n) ==> x in Consumed(m, nc)
  {
    hide Consumed;
    if n > 0 {
      assert n - 1 in nc;
      NothingCompliant(m, nc, n - 1);
    }
  }

  /** Without operations a slice has no operands. */
  lemma EmptySlice(m: Model, nc: set<nat>, s: Slice)
    requires IsSlice(m, nc, s)
    ensures s.operations == [] ==> s.operands == []
  {
    if s.operations == [] {
      NothingCompliant(m, nc, |m.operations|);
      NothingMapped(m, nc, s);
    }
  }

  ghost predicate HasNoArguments(m: Model, nc: set<nat>) {
    forall k: nat :: k < |m.operations| && k !in nc ==> m.operations[k].inputs == [] && m.operations[k].outputs == []
  }

  /** A slice has operations without operands if and only if some are compliant and no
      compliant operation has an argument. So an operation with an output keeps the
      runtime from stopping. */
  lemma StopsWithoutArguments(m: Model, nc: set<nat>, s: Slice)
    requires IsSlice(m, nc, s)
    ensures s.operations != [] && s.operands == [] <==>
              && (exists k: nat :: k < |m.operations| && k !in nc)
              && HasNoArguments(m, nc)
  {
    hide IsSlice, HasNoArguments;
    OperationsAreTheCompliantOnes(m, nc, s);
    if s.operations != [] { assert s.origins[0] in s.origins; }
    if HasNoArguments(m, nc) { NoArgumentsNoOperands(m, nc, s); }
    if s.operands == [] { NoOperandsNoArguments(m, nc, s); }
  }

  lemma NoOperandsNoArguments(m: Model, nc: set<nat>, s: Slice)
    requires IsSlice(m, nc, s) && s.operands == []
    ensures HasNoArguments(m, nc)
  {
    hide IsSlice;
    OperationsAreTheCompliantOnes(m, nc, s);
    forall k: nat | k < |m.operations| && k !in nc ensures m.operations[k].inputs == [] && m.operations[k].outputs == [] {
      assert k in s.origins;
      var j :| 0 <= j < |s.origins| && s.origins[j] == k;
      ArgumentsAreOperands(m, nc, s, j);
    }
  }

  lemma NoArgumentsNoOperands(m: Model, nc: set<nat>, s: Slice)
    requires IsSlice(m, nc, s) && HasNoArguments(m, nc)
    ensures s.operands == []
  {
    NoArguments(m, nc, |m.operations|);
    NothingMapped(m, nc, s);
  }

  lemma NothingMapped(m: Model, nc: set<nat>, s: Slice)
    requires IsSlice(m, nc, s) && Consumed(m, nc) == {} && Produced(m, nc, |m.operations|) <= Consumed(m, nc)
    ensures s.operands == []
  {
    hide Consumed, Produced, IsWellFormed, AreRenumbered, LifetimeOf;
    assert s.index.Keys == {};
    assert |s.operands| > 0 ==> HasOrigin(s.index, 0);
  }

  lemma ArgumentsAreOperands(m: Model, nc: set<nat>, s: Slice, j: nat)
    requires IsSlice(m, nc, s) && j < |s.operations|
    ensures j < |s.origins| && s.origins[j] < |m.operations|
    ensures var op := m.operations[s.origins[j]]; op.inputs != [] || op.outputs != [] ==> s.operands != []
  {
    ArgumentsKeepTheirTypes(m, nc, s, j);
    var op := s.operations[j];
    assert op.inputs != [] ==> op.inputs[0] < |s.operands|;
    assert op.outputs != [] ==> op.outputs[0] < |s.operands|;
  }

  lemma {:induction false} NoArguments(m: Model, nc: set<nat>, n: nat)
    requires n <= |m.operations|
    requires HasNoArguments(m, nc)
    ensures ConsumedBy(m, nc, n) == {} && forall x :: x in Produced(m, nc, n) ==> x in Consumed(m, nc)
  {
    hide Consumed;
    if n > 0 { NoArguments(m, nc, n - 1); }
  }
}
