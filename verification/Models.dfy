/** Source models: operands, operations and the models that control flow refers to.

    A model is a tree. Where the runtime stores an operand of type SUBGRAPH that
    points at another model, an operation here carries the referenced models,
    once it is known that the control flow interpreter will run the operation.
 */
module Models {

  newtype byte = x: int | 0 <= x < 256

  type Bytes = seq<byte>

  datatype Lifetime =
    | TemporaryVariable
    | SubgraphInput
    | SubgraphOutput
    | ConstantCopy
    | ConstantReference
    | NoValue
    | SubgraphReference

  datatype OperandType = OperandType(
    code: int,
    dimensions: seq<nat>,
    scale: real,
    zeroPoint: int,
    extraParams: Bytes)

  // `value` is the data of a constant, and empty for every other lifetime.
  datatype Operand = Operand(
    ty: OperandType,
    lifetime: Lifetime,
    numberOfConsumers: nat,
    value: Bytes)

  // Where an operation runs. A control flow operation that a device takes whole
  // is an ordinary operation of that device.
  datatype Placement =
    | OnDevice(device: nat)
    | InterpretIf(thenModel: Model, elseModel: Model)
    | InterpretWhile(condModel: Model, bodyModel: Model)

  datatype Operation = Operation(
    opcode: int,
    inputs: seq<nat>,
    outputs: seq<nat>,
    placement: Placement)

  datatype Model = Model(
    operands: seq<Operand>,
    operations: seq<Operation>,
    inputIndexes: seq<nat>,
    outputIndexes: seq<nat>)

  // Input positions of the control flow operations.
  const IF_CONDITION := 0
  const IF_FIRST_INPUT := 3
  const WHILE_FIRST_INPUT := 2

  /** The value of the operand is known before any operation runs. */
  predicate KnownInitially(l: Lifetime) {
    l != TemporaryVariable && l != SubgraphOutput
  }

  predicate IsConstant(l: Lifetime) {
    l == ConstantCopy || l == ConstantReference
  }

  ghost predicate Distinct<T>(s: seq<T>) {
    forall i, j :: 0 <= i < j < |s| ==> s[i] != s[j]
  }

  ghost predicate InRange(s: seq<nat>, n: nat) {
    forall x :: x in s ==> x < n
  }

  function AsSet<T(==,!new)>(s: seq<T>): (r: set<T>)
    ensures forall x :: x in r <==> x in s
  {
    set x | x in s
  }

  function OutputsOf(ops: seq<Operation>): (r: set<nat>) {
    if ops == [] then {} else AsSet(ops[0].outputs) + OutputsOf(ops[1..])
  }

  ghost function KnownSet(m: Model): set<nat> {
    set i | 0 <= i < |m.operands| && KnownInitially(m.operands[i].lifetime)
  }

  /** The operations are in an order in which nothing is read before it is written
      and nothing is written twice, starting from the known operands. */
  ghost predicate Ordered(ops: seq<Operation>, known: set<nat>)
  {
    ops != [] ==>
      && (forall x :: x in ops[0].inputs ==> x in known)
      && Distinct(ops[0].outputs)
      && (forall x :: x in ops[0].outputs ==> x !in known)
      && Ordered(ops[1..], known + AsSet(ops[0].outputs))
  }

  ghost predicate ListsLifetime(indexes: seq<nat>, operands: seq<Operand>, l: Lifetime) {
    && (forall x :: x in indexes ==> x < |operands| && operands[x].lifetime == l)
    && Distinct(indexes)
    && (forall x :: 0 <= x < |operands| && operands[x].lifetime == l ==> x in indexes)
  }

  ghost predicate OperationFits(op: Operation, operands: seq<Operand>) {
    && InRange(op.inputs, |operands|)
    && InRange(op.outputs, |operands|)
    && (forall x :: x in op.outputs ==>
          x < |operands| && !KnownInitially(operands[x].lifetime))
    && match op.placement
       case OnDevice(_) => true
       case InterpretIf(t, e) =>
         && |op.inputs| >= IF_FIRST_INPUT
         && |t.inputIndexes| == |e.inputIndexes| == |op.inputs| - IF_FIRST_INPUT
         && |t.outputIndexes| == |e.outputIndexes| == |op.outputs|
       case InterpretWhile(c, b) =>
         && |op.inputs| >= WHILE_FIRST_INPUT
         && |c.inputIndexes| == |b.inputIndexes| == |op.inputs| - WHILE_FIRST_INPUT
         && |c.outputIndexes| == 1
         && |op.outputs| <= |b.outputIndexes| <= |b.inputIndexes|
  }

  ghost predicate ShallowValid(m: Model) {
    && |m.operations| > 0
    && ListsLifetime(m.inputIndexes, m.operands, SubgraphInput)
    && ListsLifetime(m.outputIndexes, m.operands, SubgraphOutput)
    && (forall i :: 0 <= i < |m.operations| ==> OperationFits(m.operations[i], m.operands))
    && Ordered(m.operations, KnownSet(m))
    && (forall x :: 0 <= x < |m.operands| ==>
          x in KnownSet(m) || x in OutputsOf(m.operations))
  }

  // ----- operands that control flow cannot pass on -----

  predicate HasLocation(l: Lifetime) {
    l != NoValue && l != SubgraphReference
  }

  /** The operands that the control flow interpreter reads or passes on itself. */
  function Passed(op: Operation): seq<nat> {
    match op.placement
    case OnDevice(_) => []
    case InterpretIf(_, _) => if |op.inputs| < IF_FIRST_INPUT then [] else [op.inputs[IF_CONDITION]] + op.inputs[IF_FIRST_INPUT..]
    case InterpretWhile(_, _) => if |op.inputs| < WHILE_FIRST_INPUT then [] else op.inputs[WHILE_FIRST_INPUT..]
  }

  /** No omitted operand and no model is the condition of an interpreted operation
      or an input to pass on. */
  predicate Passable(op: Operation, operands: seq<Operand>) {
    forall x :: x in Passed(op) && x < |operands| ==> HasLocation(operands[x].lifetime)
  }

  /** All operations are passable, here and in the models referred to. */
  ghost predicate Passes(m: Model) {
    forall i :: 0 <= i < |m.operations| ==> Passable(m.operations[i], m.operands) && PlacementPasses(m.operations[i].placement)
  }

  ghost predicate PlacementPasses(p: Placement) {
    match p
    case OnDevice(_) => true
    case InterpretIf(t, e) => Passes(t) && Passes(e)
    case InterpretWhile(c, b) => Passes(c) && Passes(b)
  }

  /** The model and every model it refers to passed validation. */
  ghost predicate Valid(m: Model) {
    && ShallowValid(m)
    && forall i :: 0 <= i < |m.operations| ==> ValidPlacement(m.operations[i].placement)
  }

  ghost predicate ValidPlacement(p: Placement) {
    match p
    case OnDevice(_) => true
    case InterpretIf(t, e) => Valid(t) && Valid(e)
    case InterpretWhile(c, b) => Valid(c) && Valid(b)
  }
}
