/** Which operations of a model an older version of the interface can express, and the slice
    of a model for a version. */
module Compliance {
  import opened Models
  import opened Graphs
  import opened Slices

  datatype HalVersion = UNKNOWN | V1_0 | V1_1 | V1_2 | V1_3

  // A memory that constants of a model are in.
  datatype Pool = Pool(name: string, hasHandle: bool)

  // What the test takes from elsewhere: the pools, the pool of each operand, which types
  // belong to an extension, and the verdict of the operation's own validation.
  datatype Surroundings = Surroundings(
    pools: seq<Pool>,
    poolOf: nat -> nat,
    isExtension: int -> bool,
    isValidOperation: (HalVersion, nat) -> bool)

  function Number(v: HalVersion): nat {
    match v
    case UNKNOWN => 0
    case V1_0 => 1
    case V1_1 => 2
    case V1_2 => 3
    case V1_3 => 4
  }

  predicate ValidatePool(pool: Pool, version: HalVersion) {
    && (pool.name == "ashmem" || pool.name == "mmap_fd"
        || (Number(version) >= Number(V1_2) && (pool.name == "hardware_buffer_blob" || pool.name == "hardware_buffer")))
    && pool.hasHandle
  }

  // The types of the first version, and the scalars among them.
  predicate IsTypeOfV1_0(code: int) {
    0 <= code <= 5 || code == 10000 || code == 10001
  }

  predicate IsScalarOfV1_0(code: int) {
    0 <= code <= 2 || code == 10000
  }

  predicate IsTypeOfV1_2(code: int, isExtension: int -> bool) {
    0 <= code <= 13 || code == 10000 || code == 10001 || isExtension(code)
  }

  /** A version can express an operand, wherever its value is. */
  predicate IsExpressible(version: HalVersion, o: Operand, isExtension: int -> bool) {
    match version
    case UNKNOWN => false
    case V1_0 => ExpressibleInV1_0(o)
    case V1_1 => ExpressibleInV1_0(o)
    case V1_2 => IsTypeOfV1_2(o.ty.code, isExtension) && o.lifetime != SubgraphReference
    case V1_3 => true
  }

  predicate ExpressibleInV1_0(o: Operand) {
    && IsTypeOfV1_0(o.ty.code)
    && (IsScalarOfV1_0(o.ty.code) || o.ty.dimensions != [])
    && o.lifetime != SubgraphReference
  }

  /** The operand, with its value, is compliant with a version. */
  predicate IsCompliant(version: HalVersion, m: Model, around: Surroundings, x: nat) {
    && x < |m.operands| && IsExpressible(version, m.operands[x], around.isExtension)
    && (m.operands[x].lifetime == ConstantReference ==>
          around.poolOf(x) < |around.pools| && ValidatePool(around.pools[around.poolOf(x)], version))
  }

  predicate OperationComplies(version: HalVersion, m: Model, around: Surroundings, k: nat)
    requires k < |m.operations|
  {
    && (forall x :: x in m.operations[k].inputs ==> IsCompliant(version, m, around, x))
    && (forall x :: x in m.operations[k].outputs ==> IsCompliant(version, m, around, x))
    && around.isValidOperation(version, k)
  }

  /** Exactly the operations that are not compliant. */
  ghost predicate AreNoncompliant(version: HalVersion, m: Model, around: Surroundings, nc: set<nat>) {
    forall k: nat :: k in nc <==> k < |m.operations| && !OperationComplies(version, m, around, k)
  }

  method FindNoncompliant(version: HalVersion, m: Model, around: Surroundings) returns (nc: set<nat>)
    ensures AreNoncompliant(version, m, around, nc)
    ensures forall k: nat :: k in nc <==>
              k < |m.operations| &&
              (!around.isValidOperation(version, k) || exists x :: (x in m.operations[k].inputs || x in m.operations[k].outputs) && !IsCompliant(version, m, around, x))
  {
    hide IsCompliant;
    nc := {};
    for k := 0 to |m.operations|
      invariant forall i: nat :: i in nc <==> i < k && !OperationComplies(version, m, around, i)
    {
      if !OperationComplies(version, m, around, k) { nc := nc + {k}; }
    }
  }

  predicate IsOlder(version: HalVersion) {
    version == V1_0 || version == V1_1 || version == V1_2
  }

  /** What a compliant operation reads or writes is compliant. */
  lemma TouchedIsCompliant(version: HalVersion, m: Model, around: Surroundings, nc: set<nat>, k: nat, x: nat)
    requires AreNoncompliant(version, m, around, nc) && k < |m.operations| && k !in nc
    requires x in m.operations[k].inputs || x in m.operations[k].outputs
    ensures IsCompliant(version, m, around, x)
  {
  }

  lemma ReadIsCompliant(version: HalVersion, m: Model, around: Surroundings, nc: set<nat>, x: nat)
    requires AreNoncompliant(version, m, around, nc) && x in Consumed(m, nc)
    ensures IsCompliant(version, m, around, x)
  {
    hide IsCompliant, AreNoncompliant;
    ConsumedAre(m, nc, |m.operations|);
    var k: nat :| k < |m.operations| && k !in nc && x in m.operations[k].inputs;
    TouchedIsCompliant(version, m, around, nc, k, x);
  }

  /** In the older versions no compliant operation reads a model, so a slice can always
      be made. */
  lemma NoModelIsRead(version: HalVersion, m: Model, around: Surroundings, nc: set<nat>)
    requires IsOlder(version) && AreNoncompliant(version, m, around, nc)
    ensures ReadsNoModel(m, nc)
  {
    hide AreNoncompliant, Consumed;
    forall x | x in Consumed(m, nc) && x < |m.operands| ensures m.operands[x].lifetime != SubgraphReference {
      ReadIsCompliant(version, m, around, nc, x);
    }
  }

  lemma {:induction false} ProducedIsTouched(m: Model, nc: set<nat>, n: nat, x: nat)
    requires n <= |m.operations| && x in Produced(m, nc, n)
    ensures x in Consumed(m, nc) || exists k: nat :: k < n && k !in nc && x in m.operations[k].outputs
  {
    hide Consumed;
    if x in Produced(m, nc, n - 1) {
      ProducedIsTouched(m, nc, n - 1, x);
    } else if n - 1 !in nc {
      assert x in m.operations[n - 1].outputs;
    }
  }

  lemma MappedIsReadOrProduced(m: Model, nc: set<nat>, s: Slice, x: nat)
    requires IsSlice(m, nc, s) && x in s.index
    ensures x in Consumed(m, nc) || x in Produced(m, nc, |m.operations|)
  {
    hide IsWellFormed, Maps, CompliantBelow, Consumed, Produced;
    assert x in Initially(m, nc) + Produced(m, nc, |m.operations|);
  }

  lemma MappedAgree(m: Model, nc: set<nat>, s: Slice, x: nat)
    requires IsSlice(m, nc, s) && x in s.index
    ensures x < |m.operands| && s.index[x] < |s.operands| && s.operands[s.index[x]].ty == m.operands[x].ty
    ensures s.operands[s.index[x]].lifetime in {m.operands[x].lifetime, SubgraphInput, SubgraphOutput}
  {
    hide IsWellFormed, CompliantBelow, Consumed, Produced, Foreign;
  }

  lemma HaveOrigins(m: Model, nc: set<nat>, s: Slice, j: nat)
    requires IsSlice(m, nc, s) && j < |s.operands|
    ensures HasOrigin(s.index, j)
  {
    hide IsWellFormed, CompliantBelow, Consumed, Produced, Foreign;
  }

  /** Whatever a slice has an operand for is compliant. */
  lemma MappedIsCompliant(version: HalVersion, m: Model, around: Surroundings, nc: set<nat>, s: Slice, x: nat)
    requires AreNoncompliant(version, m, around, nc) && IsSlice(m, nc, s) && x in s.index
    ensures IsCompliant(version, m, around, x)
  {
    hide AreNoncompliant, IsCompliant, Consumed, Produced;
    MappedIsReadOrProduced(m, nc, s, x);
    if x in Consumed(m, nc) {
      ReadIsCompliant(version, m, around, nc, x);
    } else {
      ProducedIsTouched(m, nc, |m.operations|, x);
      var k: nat :| k < |m.operations| && k !in nc && x in m.operations[k].outputs;
      TouchedIsCompliant(version, m, around, nc, k, x);
    }
  }

  /** The version can express every operand of the slice. */
  lemma SliceIsExpressible(version: HalVersion, m: Model, around: Surroundings, nc: set<nat>, s: Slice)
    requires IsOlder(version) && AreNoncompliant(version, m, around, nc) && IsSlice(m, nc, s)
    ensures forall j: nat :: j < |s.operands| ==> IsExpressible(version, s.operands[j], around.isExtension)
  {
    hide AreNoncompliant, IsSlice;
    forall j: nat | j < |s.operands| ensures IsExpressible(version, s.operands[j], around.isExtension) {
      HaveOrigins(m, nc, s, j);
      var x :| x in s.index && s.index[x] == j;
      MappedIsCompliant(version, m, around, nc, s, x);
      MappedAgree(m, nc, s, x);
    }
  }

  // ----- which operands are compliant -----

  // The types of operands, and the API level since which each is available.
  datatype OperandCode =
    | FLOAT32 | INT32 | UINT32 | TENSOR_FLOAT32 | TENSOR_INT32 | TENSOR_QUANT8_ASYMM | BOOL | TENSOR_QUANT16_SYMM | TENSOR_FLOAT16
    | TENSOR_BOOL8 | FLOAT16 | TENSOR_QUANT8_SYMM_PER_CHANNEL | TENSOR_QUANT16_ASYMM | TENSOR_QUANT8_SYMM | TENSOR_QUANT8_ASYMM_SIGNED
    | MODEL | OEM_SCALAR | TENSOR_OEM_BYTE

  function CodeOf(t: OperandCode): int {
    match t
    case FLOAT32 => 0
    case INT32 => 1
    case UINT32 => 2
    case TENSOR_FLOAT32 => 3
    case TENSOR_INT32 => 4
    case TENSOR_QUANT8_ASYMM => 5
    case BOOL => 6
    case TENSOR_QUANT16_SYMM => 7
    case TENSOR_FLOAT16 => 8
    case TENSOR_BOOL8 => 9
    case FLOAT16 => 10
    case TENSOR_QUANT8_SYMM_PER_CHANNEL => 11
    case TENSOR_QUANT16_ASYMM => 12
    case TENSOR_QUANT8_SYMM => 13
    case TENSOR_QUANT8_ASYMM_SIGNED => 14
    case MODEL => 15
    case OEM_SCALAR => 10000
    case TENSOR_OEM_BYTE => 10001
  }

  function AvailableSince(t: OperandCode): nat {
    match t
    case FLOAT32 => 27
    case INT32 => 27
    case UINT32 => 27
    case TENSOR_FLOAT32 => 27
    case TENSOR_INT32 => 27
    case TENSOR_QUANT8_ASYMM => 27
    case OEM_SCALAR => 27
    case TENSOR_OEM_BYTE => 27
    case TENSOR_QUANT8_ASYMM_SIGNED => 30
    case MODEL => 30
    case _ => 29
  }

  predicate IsScalar(t: OperandCode) {
    t in {FLOAT32, INT32, UINT32, BOOL, FLOAT16, MODEL, OEM_SCALAR}
  }

  // The API level that an older version of the interface came with.
  function ApiLevel(version: HalVersion): nat {
    match version
    case V1_0 => 27
    case V1_1 => 28
    case V1_2 => 29
    case _ => 30
  }

  /** Types of extensions have other codes than these. */
  ghost predicate KnowsExtensions(around: Surroundings) {
    forall t: OperandCode :: !around.isExtension(CodeOf(t))
  }

  /** The pool of a constant in a memory can be used: it has a handle and is of a kind that the
      version knows. */
  predicate HasUsablePool(version: HalVersion, around: Surroundings, x: nat) {
    && around.poolOf(x) < |around.pools|
    && var pool := around.pools[around.poolOf(x)];
    && pool.hasHandle
    && (pool.name in {"ashmem", "mmap_fd"} || (version == V1_2 && pool.name in {"hardware_buffer_blob", "hardware_buffer"}))
  }

  /** An operand is compliant with an older version exactly if its type is available there, it
      is no model, a tensor has dimensions where that is asked, and its pool is usable. */
  lemma CompliantByType(version: HalVersion, m: Model, around: Surroundings, x: nat, t: OperandCode)
    requires IsOlder(version) && KnowsExtensions(around) && x < |m.operands| && m.operands[x].ty.code == CodeOf(t)
    ensures IsCompliant(version, m, around, x) <==>
              && AvailableSince(t) <= ApiLevel(version) && m.operands[x].lifetime != SubgraphReference
              && (version != V1_2 && !IsScalar(t) ==> m.operands[x].ty.dimensions != [])
              && (m.operands[x].lifetime == ConstantReference ==> HasUsablePool(version, around, x))
  {
  }

  /** Operands of extension types are compliant since version 1.2. */
  lemma CompliantExtension(version: HalVersion, m: Model, around: Surroundings, x: nat)
    requires IsOlder(version) && x < |m.operands| && around.isExtension(m.operands[x].ty.code) && forall t: OperandCode :: m.operands[x].ty.code != CodeOf(t)
    ensures IsCompliant(version, m, around, x) <==>
              && version == V1_2 && m.operands[x].lifetime != SubgraphReference
              && (m.operands[x].lifetime == ConstantReference ==> HasUsablePool(version, around, x))
  {
    assert m.operands[x].ty.code !in {CodeOf(FLOAT32), CodeOf(INT32), CodeOf(UINT32), CodeOf(TENSOR_FLOAT32), CodeOf(TENSOR_INT32), CodeOf(TENSOR_QUANT8_ASYMM),
                                      CodeOf(OEM_SCALAR), CodeOf(TENSOR_OEM_BYTE)};
  }

  /** For version 1.3 only an unusable pool stands in the way, and nothing is compliant with a
      version that is not known. */
  lemma NewestTakesAll(m: Model, around: Surroundings, x: nat)
    requires x < |m.operands|
    ensures m.operands[x].lifetime != ConstantReference ==> IsCompliant(V1_3, m, around, x)
    ensures m.operands[x].lifetime == ConstantReference && HasUsablePool(V1_2, around, x) ==> IsCompliant(V1_3, m, around, x)
    ensures !IsCompliant(UNKNOWN, m, around, x)
  {
  }

  // ----- a model that is sliced whole -----

  /** The operand could be in a model of the first version. */
  ghost predicate IsOfFirstVersion(m: Model, around: Surroundings, x: nat) {
    && x < |m.operands| && m.operands[x].lifetime != SubgraphReference
    && (exists t: OperandCode ::
          m.operands[x].ty.code == CodeOf(t) && AvailableSince(t) == 27 && (IsScalar(t) || m.operands[x].ty.dimensions != []))
    && (m.operands[x].lifetime == ConstantReference ==> HasUsablePool(V1_0, around, x))
  }

  /** A model with operands of the first version and operations that are valid in a version is
      sliced whole for that version: every operation is in the slice, in its place. */
  lemma SlicedWhole(version: HalVersion, m: Model, around: Surroundings, nc: set<nat>, s: Slice)
    requires IsOlder(version) && KnowsExtensions(around) && IsOriginal(m)
    requires AreNoncompliant(version, m, around, nc) && IsSlice(m, nc, s)
    requires forall x: nat :: x < |m.operands| ==> IsOfFirstVersion(m, around, x)
    requires forall k: nat :: k < |m.operations| ==> around.isValidOperation(version, k)
    ensures nc == {} && |s.operations| == |m.operations| == |s.origins|
    ensures forall k :: 0 <= k < |s.operations| ==> s.origins[k] == k && s.operations[k].opcode == m.operations[k].opcode
  {
    forall k: nat | k < |m.operations| ensures OperationComplies(version, m, around, k) {
      OperandsComply(version, m, around, k);
    }
    hide IsOriginal, OperationComplies, IsOfFirstVersion, IsSlice;
    assert forall k: nat :: k !in nc;
    OperationsAreTheCompliantOnes(m, nc, s);
    OriginsAreAll(m, nc, s);
  }

  /** Such a slice has an output if the model has one. */
  lemma SlicedWholeHasOutputs(m: Model, s: Slice, k: nat, x: nat)
    requires IsOriginal(m) && CountsConsumers(m) && IsSlice(m, {}, s)
    requires k < |m.operations| && x in m.operations[k].outputs && x < |m.operands| && m.operands[x].lifetime == SubgraphOutput
    ensures s.outputIndexes != []
  {
    hide IsOriginal, CountsConsumers, IsSlice;
    OutputsOfTheSlice(m, {}, s, k, x);
  }

  lemma OperandsComply(version: HalVersion, m: Model, around: Surroundings, k: nat)
    requires IsOlder(version) && KnowsExtensions(around) && OperandsInRange(m) && k < |m.operations|
    requires forall x: nat :: x < |m.operands| ==> IsOfFirstVersion(m, around, x)
    ensures forall x :: x in m.operations[k].inputs || x in m.operations[k].outputs ==> IsCompliant(version, m, around, x)
  {
    hide IsCompliant;
    forall x | x in m.operations[k].inputs || x in m.operations[k].outputs ensures IsCompliant(version, m, around, x) {
      assert IsOfFirstVersion(m, around, x);
      var t: OperandCode :| m.operands[x].ty.code == CodeOf(t) && AvailableSince(t) == 27 && (IsScalar(t) || m.operands[x].ty.dimensions != []);
      CompliantByType(version, m, around, x, t);
    }
  }

  lemma OriginsAreAll(m: Model, nc: set<nat>, s: Slice)
    requires IsSlice(m, nc, s) && forall k: nat :: k !in nc
    ensures s.origins == seq(|m.operations|, i => i)
  {
    hide IsWellFormed, Maps;
    AllBelow(nc, |m.operations|);
  }

  lemma {:induction false} AllBelow(nc: set<nat>, n: nat)
    requires forall k: nat :: k !in nc
    ensures CompliantBelow(nc, n) == seq(n, i => i)
  {
    if n > 0 {
      AllBelow(nc, n - 1);
      assert seq(n, i => i) == seq(n - 1, i => i) + [n - 1];
    }
  }

  // The outcome of asking for a slice.
  datatype Answer = Stopped | NoSlice | Sliced(slice: Slice)

  /** The slice of a validated model for an older version, which is kept. It is made without any
      lookup failing. There is none exactly if nothing is compliant or the slice has no
      output, and the runtime stops only in strict slicing, over an operation without
      arguments. */
  method GetSlice(version: HalVersion, m: Model, around: Surroundings, strictSlicing: bool) returns (r: Answer, s: Slice, nc: set<nat>)
    requires IsOlder(version) && IsOriginal(m)
    ensures AreNoncompliant(version, m, around, nc) && IsSlice(m, nc, s)
    ensures r.Stopped? <==> strictSlicing && s.operations != [] && s.operands == []
    ensures r.NoSlice? <==> !r.Stopped? && (s.operations == [] || s.outputIndexes == [])
    ensures r.Sliced? ==> r.slice == s
    ensures forall j: nat :: j < |s.operands| ==> IsExpressible(version, s.operands[j], around.isExtension)
  {
    hide AreNoncompliant, IsOriginal, ReadsNoModel, IsSlice, IsGraph, OperandsInRange, ListsLifetime, IsExpressible;
    nc := FindNoncompliant(version, m, around);
    NoModelIsRead(version, m, around, nc);
    var slice := MakeSlice(m, nc);
    s := slice.value;
    SliceIsExpressible(version, m, around, nc, s);
    var invalid, stops := Invalid(s, strictSlicing, m, nc);
    r := if stops then Stopped else if invalid then NoSlice else Sliced(s);
  }
}
