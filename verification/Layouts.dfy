/** The memory for temporaries: one region for every operand on a partition boundary,
    two for what a loop body writes, and copies of constants that control flow passes
    on. Sizes are 32 bit words that wrap around. */
module Layouts {
  import opened Arithmetic
  import opened Models
  import opened FlatPlans
  import opened Machine
  import opened Runs

  datatype Region = Region(offset: nat, size: nat)

  function Alignment(size: nat): nat {
    if size < 2 then 1 else if size < 4 then 2 else 4
  }

  /** The bytes to skip so that a region of the size starts at a multiple of its
      alignment. */
  function AlignBytesNeeded(index: nat, size: nat): (r: nat)
    ensures r < Alignment(size) && (index + r) % Alignment(size) == 0
  {
    (Alignment(size) - index % Alignment(size)) % Alignment(size)
  }

  // Both words bit by bit.
  function BitAnd(x: nat, y: nat): nat {
    if x == 0 || y == 0 then 0 else (x % 2) * (y % 2) + 2 * BitAnd(x / 2, y / 2)
  }

  // Each of the low bits inverted.
  function BitNot(x: nat, bits: nat): nat {
    if bits == 0 then 0 else 1 - x % 2 + 2 * BitNot(x / 2, bits - 1)
  }

  function PowerOfTwo(n: nat): nat {
    if n == 0 then 1 else 2 * PowerOfTwo(n - 1)
  }

  lemma {:induction false} NotIsComplement(x: nat, bits: nat)
    requires x < PowerOfTwo(bits)
    ensures BitNot(x, bits) == PowerOfTwo(bits) - 1 - x
  {
    if bits > 0 { NotIsComplement(x / 2, bits - 1); }
  }

  lemma MaskIsRemainder(x: nat)
    ensures BitAnd(x, 0) == 0 && BitAnd(x, 1) == x % 2 && BitAnd(x, 3) == x % 4
  {
    assert BitAnd(x / 2, 0) == 0 && BitAnd(x / 2, 1) == x / 2 % 2;
  }

  function Pattern(size: nat): nat {
    if size < 2 then 0 else if size < 4 then 1 else 3
  }

  // A 32-bit word inverted.
  function Inverted(word: nat): nat {
    BitNot(word, 32)
  }

  lemma InvertedWord(word: nat)
    requires word < UINT32_RANGE
    ensures Inverted(word) == UINT32_RANGE - 1 - word
  {
    hide BitNot, PowerOfTwo;
    PowersOfTwo();
    NotIsComplement(word, 32);
  }

  lemma LowBitsOf(index: nat, inverted: nat)
    requires index < UINT32_RANGE && inverted == if index == 0 then 0 else UINT32_RANGE - index
    ensures (2 - index % 2) % 2 == inverted % 2 && (4 - index % 4) % 4 == inverted % 4
  {
    hide *;
    QuarterWord();
    LowBitsIn(index / 4, index % 4, inverted);
  }

  lemma QuarterWord()
    ensures UINT32_RANGE == 4 * 0x4000_0000
  {
  }

  lemma LowBitsIn(q: nat, r: nat, inverted: nat)
    requires r < 4 && 4 * q + r < 4 * 0x4000_0000
    requires inverted == if 4 * q + r == 0 then 0 else 4 * 0x4000_0000 - (4 * q + r)
    ensures (2 - (4 * q + r) % 2) % 2 == inverted % 2 && (4 - (4 * q + r) % 4) % 4 == inverted % 4
  {
    hide *;
    var k := 0x4000_0000 - q;
    Remainders(q, r);
    if r > 0 {
      Remainders(k - 1, 4 - r);
    } else if q > 0 {
      Remainders(k, 0);
    }
  }

  lemma Remainders(q: nat, r: nat)
    requires r < 4
    ensures (4 * q + r) % 4 == r && (4 * q + r) % 2 == r % 2
  {
  }

  /** The runtime inverts the preceding index, which wraps around, and keeps the low bits. */
  lemma LowBits(index: nat, size: nat)
    requires index < UINT32_RANGE
    ensures AlignBytesNeeded(index, size) == BitAnd(Inverted((index + UINT32_RANGE - 1) % UINT32_RANGE), Pattern(size))
  {
    hide BitAnd, Inverted;
    var before := (index + UINT32_RANGE - 1) % UINT32_RANGE;
    assert before == if index == 0 then UINT32_RANGE - 1 else index - 1;
    InvertedWord(before);
    var inverted := UINT32_RANGE - 1 - before;
    MaskIsRemainder(inverted);
    LowBitsOf(index, inverted);
    AlignmentByCase(index, size);
    hide AlignBytesNeeded, Alignment;
  }

  lemma AlignmentByCase(index: nat, size: nat)
    ensures size < 2 ==> AlignBytesNeeded(index, size) == 0
    ensures 2 <= size < 4 ==> AlignBytesNeeded(index, size) == (2 - index % 2) % 2
    ensures size >= 4 ==> AlignBytesNeeded(index, size) == (4 - index % 4) % 4
  {
  }

  lemma PowersOfTwo()
    ensures PowerOfTwo(32) == UINT32_RANGE
  {
    assert PowerOfTwo(8) == 0x100;
    assert PowerOfTwo(16) == 0x1_0000;
    assert PowerOfTwo(24) == 0x100_0000;
  }

  ghost predicate Apart(a: Region, b: Region) {
    a.offset + a.size <= b.offset || b.offset + b.size <= a.offset
  }

  /** The regions are aligned, not empty, within the total and pairwise disjoint. */
  ghost predicate LaidOut(regions: map<Location, Region>, total: nat) {
    && (forall l :: l in regions ==>
          && regions[l].size > 0
          && regions[l].offset % Alignment(regions[l].size) == 0
          && regions[l].offset + regions[l].size <= total)
    && (forall l, l' :: l in regions && l' in regions && l != l' ==> Apart(regions[l], regions[l']))
  }

  lemma OneMoreRegion(regions: map<Location, Region>, total: nat, l: Location, size: nat)
    requires LaidOut(regions, total) && l !in regions && size > 0
    ensures var offset := total + AlignBytesNeeded(total, size);
            LaidOut(regions[l := Region(offset, size)], offset + size)
  {
    hide AlignBytesNeeded, Alignment;
  }

  // ----- the total -----

  // The total after one more region.
  function Grown(total: nat, size: nat): nat {
    total + AlignBytesNeeded(total, size) + size
  }

  /** A region starts at the next offset that is even if its size is two or three bytes, and
      at the next multiple of four if it is larger. */
  lemma NextAlignedOffset(total: nat, size: nat)
    ensures size < 2 ==> Grown(total, size) == total + size
    ensures 2 <= size < 4 ==> total + size <= Grown(total, size) <= total + size + 1 && (Grown(total, size) - size) % 2 == 0
    ensures size >= 4 ==> total + size <= Grown(total, size) <= total + size + 3 && (Grown(total, size) - size) % 4 == 0
  {
  }

  // The total after regions for a list of operands, in order.
  function TotalAfter(total: nat, ks: seq<Key>, sizes: Key -> nat): nat {
    if ks == [] then total else Grown(TotalAfter(total, ks[..|ks| - 1], sizes), sizes(ks[|ks| - 1]))
  }

  lemma OneMoreInTotal(total: nat, ks: seq<Key>, k: Key, sizes: Key -> nat)
    ensures TotalAfter(total, ks + [k], sizes) == Grown(TotalAfter(total, ks, sizes), sizes(k))
  {
    assert (ks + [k])[..|ks|] == ks;
  }

  lemma {:induction false} TotalInSequence(total: nat, a: seq<Key>, b: seq<Key>, sizes: Key -> nat)
    ensures TotalAfter(total, a + b, sizes) == TotalAfter(TotalAfter(total, a, sizes), b, sizes)
    decreases |b|
  {
    if b == [] {
      assert a + b == a;
    } else {
      assert (a + b)[..|a + b| - 1] == a + b[..|b| - 1];
      TotalInSequence(total, a, b[..|b| - 1], sizes);
    }
  }

  function Sum(ks: seq<Key>, sizes: Key -> nat): nat {
    if ks == [] then 0 else Sum(ks[..|ks| - 1], sizes) + sizes(ks[|ks| - 1])
  }

  /** The total is the sum of the sizes and at most three bytes more for each region. */
  lemma {:induction false} TotalIsBounded(total: nat, ks: seq<Key>, sizes: Key -> nat)
    ensures total + Sum(ks, sizes) <= TotalAfter(total, ks, sizes) <= total + Sum(ks, sizes) + 3 * |ks|
  {
    if ks != [] {
      hide AlignBytesNeeded;
      TotalIsBounded(total, ks[..|ks| - 1], sizes);
    }
  }

  // The operands of a list that get a region for a reason, in order.
  function MappedList(sources: seq<Model>, ks: seq<Key>, reason: Reason): seq<Key> {
    if ks == [] then []
    else
      var k := ks[|ks| - 1];
      MappedList(sources, ks[..|ks| - 1], reason) + if IsSkipped(sources, k, reason) then [] else [k]
  }

  function Doubled(ks: seq<Key>): seq<Key> {
    if ks == [] then [] else Doubled(ks[..|ks| - 1]) + [ks[|ks| - 1], ks[|ks| - 1]]
  }

  // The operands that a step lays out, in order, as often as it does.
  function StepList(step: LogicalStep, sources: seq<Model>): seq<Key> {
    match step
    case ExecutionStep(mi, _, _, _, outs) => MappedList(sources, Keys(mi, outs), Boundary)
    case IfStep(_, _, _, _, outs, _, _, _, _) => MappedList(sources, outs, Boundary)
    case WhileStep(_, _, _, _, outs, _, condOutput, _, bodyOutputs) =>
      MappedList(sources, outs, Boundary) + Doubled(bodyOutputs) + [condOutput]
    case GotoStep(_) => []
  }

  function PlanList(code: seq<LogicalStep>, sources: seq<Model>): seq<Key> {
    if code == [] then [] else PlanList(code[..|code| - 1], sources) + StepList(code[|code| - 1], sources)
  }

  /** The size of the memory for temporaries: a region for each operand that a step needs laid
      out, in the order of the plan, and for each copy of a constant. */
  function TotalSize(code: seq<LogicalStep>, sources: seq<Model>, sizes: Key -> nat, copies: seq<Key>): nat {
    TotalAfter(0, PlanList(code, sources) + copies, sizes)
  }

  // ----- the bytes of the regions -----

  /** Memory has the values of the locations in their regions. */
  ghost predicate Represents(bytes: Bytes, regions: map<Location, Region>, total: nat, store: map<Location, Bytes>) {
    && |bytes| == total
    && forall l :: l in regions && l in store ==> HasBytes(bytes, regions[l], store[l])
  }

  ghost predicate HasBytes(bytes: Bytes, r: Region, v: Bytes) {
    r.offset + r.size <= |bytes| && bytes[r.offset..r.offset + r.size] == v
  }

  function Overwritten(bytes: Bytes, offset: nat, v: Bytes): Bytes
    requires offset + |v| <= |bytes|
  {
    bytes[..offset] + v + bytes[offset + |v|..]
  }

  lemma ElsewhereStays(bytes: Bytes, a: Region, v: Bytes, b: Region, w: Bytes)
    requires a.offset + a.size <= |bytes| && |v| == a.size && Apart(a, b) && HasBytes(bytes, b, w)
    ensures HasBytes(Overwritten(bytes, a.offset, v), b, w)
  {
    var bytes' := Overwritten(bytes, a.offset, v);
    forall i | b.offset <= i < b.offset + b.size ensures bytes'[i] == bytes[i] {
    }
    assert bytes'[b.offset..b.offset + b.size] == bytes[b.offset..b.offset + b.size];
  }

  /** Where regions are laid out, writing a value of the right size into the bytes of one
      is writing it to one location. */
  lemma WriteIsLocal(bytes: Bytes, regions: map<Location, Region>, total: nat, store: map<Location, Bytes>, l: Location, v: Bytes)
    requires LaidOut(regions, total) && Represents(bytes, regions, total, store) && l in regions && |v| == regions[l].size
    ensures Represents(Overwritten(bytes, regions[l].offset, v), regions, total, store[l := v])
  {
    var r := regions[l];
    var bytes' := Overwritten(bytes, r.offset, v);
    forall l' | l' in regions && l' in store[l := v] ensures HasBytes(bytes', regions[l'], store[l := v][l']) {
      if l' == l {
        assert bytes'[r.offset..r.offset + r.size] == v;
      } else {
        assert Apart(r, regions[l']);
        hide LaidOut;
        ElsewhereStays(bytes, r, v, regions[l'], store[l']);
      }
    }
  }

  ghost function Home(constants: set<Key>, k: Key): Location {
    if k in constants then Location.Constant(k) else Slot(k, false)
  }

  /** What is laid out for operands with one temporary, with two, and for constants. */
  ghost function LocationsFor(homes: set<Key>, seconds: set<Key>, constants: set<Key>): set<Location> {
    (set k | k in homes :: Home(constants, k)) + (set k | k in seconds :: Slot(k, true))
  }

  ghost predicate OffsetsAgree(offsets: map<Key, nat>, offsets2: map<Key, nat>, constants: set<Key>, regions: map<Location, Region>) {
    && (forall k :: k in offsets ==> Home(constants, k) in regions && regions[Home(constants, k)].offset == offsets[k])
    && (forall k :: k in offsets2 ==> Slot(k, true) in regions && regions[Slot(k, true)].offset == offsets2[k])
  }

  lemma OneMorePlace(homes: set<Key>, seconds: set<Key>, constants: set<Key>, k: Key)
    requires constants <= homes
    ensures k !in homes ==> LocationsFor(homes + {k}, seconds, constants) == LocationsFor(homes, seconds, constants) + {Slot(k, false)}
    ensures k !in homes ==> LocationsFor(homes + {k}, seconds, constants + {k}) == LocationsFor(homes, seconds, constants) + {Location.Constant(k)}
    ensures k !in homes ==> Slot(k, false) !in LocationsFor(homes, seconds, constants) && Location.Constant(k) !in LocationsFor(homes, seconds, constants)
    ensures k !in seconds ==> LocationsFor(homes, seconds + {k}, constants) == LocationsFor(homes, seconds, constants) + {Slot(k, true)}
    ensures k !in seconds ==> Slot(k, true) !in LocationsFor(homes, seconds, constants)
  {
    if k !in homes {
      assert forall x :: x in homes ==> Home(constants + {k}, x) == Home(constants, x);
    }
  }

  lemma OneMoreOffset(offsets: map<Key, nat>, offsets2: map<Key, nat>, constants: set<Key>, regions: map<Location, Region>,
                      k: Key, second: bool, isConstant: bool, r: Region)
    requires OffsetsAgree(offsets, offsets2, constants, regions) && constants <= offsets.Keys
    requires k !in (if second then offsets2 else offsets) && (second ==> !isConstant)
    ensures OffsetsAgree(if second then offsets else offsets[k := r.offset], if second then offsets2[k := r.offset] else offsets2,
                         constants + if isConstant then {k} else {},
                         regions[(if isConstant then Location.Constant(k) else Slot(k, second)) := r])
  {
  }

  lemma NoWrapping(total: nat, skipped: nat, size: nat)
    ensures var offset := (total + skipped) % UINT32_RANGE;
            total + skipped + size < UINT32_RANGE ==> offset == total + skipped && (offset + size) % UINT32_RANGE == total + skipped + size
  {
  }

  // The reason for a temporary: what the lifetime of its operand has to be.
  datatype Reason = Boundary | LoopOutput

  class TemporaryLayout {
    var totalSizeOfTemporaries: nat
    var offsetOfTemporary: map<Key, nat>
    var offsetOfTemporary2: map<Key, nat>
    // The total without wrapping, which the runtime does not keep.
    var exactSize: nat
    // What is where, and which operands are constants.
    ghost var regions: map<Location, Region>
    ghost var constants: set<Key>

    ghost predicate Valid()
      reads this
    {
      && totalSizeOfTemporaries < UINT32_RANGE
      && constants <= offsetOfTemporary.Keys
      && regions.Keys == LocationsFor(offsetOfTemporary.Keys, offsetOfTemporary2.Keys, constants)
      && (exactSize < UINT32_RANGE ==>
            && totalSizeOfTemporaries == exactSize && LaidOut(regions, exactSize)
            && OffsetsAgree(offsetOfTemporary, offsetOfTemporary2, constants, regions))
    }

    constructor ()
      ensures Valid() && offsetOfTemporary == map[] && offsetOfTemporary2 == map[] && constants == {} && exactSize == 0
    {
      totalSizeOfTemporaries := 0;
      offsetOfTemporary, offsetOfTemporary2 := map[], map[];
      exactSize, regions, constants := 0, map[], {};
    }

    method AddTemporaryOfSize(size: nat) returns (offset: nat)
      requires totalSizeOfTemporaries < UINT32_RANGE && size < UINT32_RANGE
      modifies this`totalSizeOfTemporaries, this`exactSize
      ensures totalSizeOfTemporaries < UINT32_RANGE
      ensures exactSize == Grown(old(exactSize), size)
      ensures exactSize < UINT32_RANGE && old(totalSizeOfTemporaries) == old(exactSize) ==>
                totalSizeOfTemporaries == exactSize && offset == exactSize - size
    {
      hide AlignBytesNeeded, Alignment;
      NoWrapping(exactSize, AlignBytesNeeded(exactSize, size), size);
      totalSizeOfTemporaries := (totalSizeOfTemporaries + AlignBytesNeeded(totalSizeOfTemporaries, size)) % UINT32_RANGE;
      offset := totalSizeOfTemporaries;
      totalSizeOfTemporaries := (totalSizeOfTemporaries + size) % UINT32_RANGE;
      exactSize := exactSize + AlignBytesNeeded(exactSize, size) + size;
    }

    method LayOut(k: Key, second: bool, isConstant: bool, size: nat)
      requires Valid() && 0 < size < UINT32_RANGE
      requires k !in (if second then offsetOfTemporary2 else offsetOfTemporary)
      requires second ==> !isConstant
      modifies this
      ensures Valid() && exactSize == Grown(old(exactSize), size)
      ensures offsetOfTemporary.Keys == if second then old(offsetOfTemporary.Keys) else old(offsetOfTemporary.Keys) + {k}
      ensures offsetOfTemporary2.Keys == if second then old(offsetOfTemporary2.Keys) + {k} else old(offsetOfTemporary2.Keys)
      ensures constants == old(constants) + if isConstant then {k} else {}
    {
      hide LaidOut, AlignBytesNeeded, OffsetsAgree, LocationsFor;
      ghost var total := exactSize;
      ghost var l := if isConstant then Location.Constant(k) else Slot(k, second);
      ghost var r := Region(total + AlignBytesNeeded(total, size), size);
      OneMorePlace(offsetOfTemporary.Keys, offsetOfTemporary2.Keys, constants, k);
      var offset := AddTemporaryOfSize(size);
      if exactSize < UINT32_RANGE {
        OneMoreRegion(regions, total, l, size);
        OneMoreOffset(offsetOfTemporary, offsetOfTemporary2, constants, regions, k, second, isConstant, r);
      }
      if second {
        offsetOfTemporary2 := offsetOfTemporary2[k := offset];
      } else {
        offsetOfTemporary := offsetOfTemporary[k := offset];
      }
      regions := regions[l := r];
      if isConstant { constants := constants + {k}; }
      assert offsetOfTemporary.Keys == if second then old(offsetOfTemporary.Keys) else old(offsetOfTemporary.Keys) + {k};
      assert offsetOfTemporary2.Keys == if second then old(offsetOfTemporary2.Keys) + {k} else old(offsetOfTemporary2.Keys);
      assert regions.Keys == LocationsFor(offsetOfTemporary.Keys, offsetOfTemporary2.Keys, constants);
      assert constants == old(constants) + if isConstant then {k} else {};
    }

    // Fails where the runtime's checks do: an operand of the wrong lifetime, without a
    // size, or laid out before.
    method MapTemporary(k: Key, second: bool, reason: Reason, sources: seq<Model>, size: nat) returns (ok: bool)
      requires Valid() && size < UINT32_RANGE
      modifies this
      ensures Valid() && constants == old(constants)
      ensures ok <==> IsSkipped(sources, k, reason) || IsMapped(sources, k, reason, size, if second then old(offsetOfTemporary2.Keys) else old(offsetOfTemporary.Keys))
      ensures ok ==> offsetOfTemporary.Keys == if second || IsSkipped(sources, k, reason) then old(offsetOfTemporary.Keys) else old(offsetOfTemporary.Keys) + {k}
      ensures ok ==> offsetOfTemporary2.Keys == if second && !IsSkipped(sources, k, reason) then old(offsetOfTemporary2.Keys) + {k} else old(offsetOfTemporary2.Keys)
      ensures ok ==> exactSize == if IsSkipped(sources, k, reason) then old(exactSize) else Grown(old(exactSize), size)
    {
      if reason == Boundary && HasLifetime(sources, k, SubgraphOutput) {
        return true;
      }
      if !HasLifetime(sources, k, if reason == Boundary then TemporaryVariable else SubgraphOutput) || size == 0
         || k in (if second then offsetOfTemporary2 else offsetOfTemporary)
      {
        return false;
      }
      hide Valid;
      LayOut(k, second, false, size);
      ok := true;
    }

    method MapTemporaries(ks: seq<Key>, second: bool, reason: Reason, sources: seq<Model>, sizes: Key -> nat) returns (ok: bool)
      requires Valid() && forall k :: sizes(k) < UINT32_RANGE
      modifies this
      ensures Valid() && constants == old(constants)
      ensures ok ==> offsetOfTemporary.Keys == if second then old(offsetOfTemporary.Keys) else old(offsetOfTemporary.Keys) + Mapped(sources, ks, reason)
      ensures ok ==> offsetOfTemporary2.Keys == if second then old(offsetOfTemporary2.Keys) + Mapped(sources, ks, reason) else old(offsetOfTemporary2.Keys)
      ensures ok ==> exactSize == TotalAfter(old(exactSize), MappedList(sources, ks, reason), sizes)
      ensures AllMapped(sources, ks, reason, sizes, if second then old(offsetOfTemporary2.Keys) else old(offsetOfTemporary.Keys)) ==> ok
    {
      hide Valid, IsSkipped, Mapped, AllMapped, Grown, TotalAfter, MappedList;
      NothingListed(sources, ks, reason, exactSize, sizes);
      ghost var taken := if second then offsetOfTemporary2.Keys else offsetOfTemporary.Keys;
      MappedNothing(sources, ks, reason);
      var i := 0;
      while i < |ks|
        invariant 0 <= i <= |ks| && Valid() && constants == old(constants)
        invariant offsetOfTemporary.Keys == if second then old(offsetOfTemporary.Keys) else old(offsetOfTemporary.Keys) + Mapped(sources, ks[..i], reason)
        invariant offsetOfTemporary2.Keys == if second then old(offsetOfTemporary2.Keys) + Mapped(sources, ks[..i], reason) else old(offsetOfTemporary2.Keys)
        invariant exactSize == TotalAfter(old(exactSize), MappedList(sources, ks[..i], reason), sizes)
      {
        MappedOneMore(sources, ks, reason, i);
        ListedOneMore(sources, ks, reason, i, old(exactSize), sizes);
        if AllMapped(sources, ks, reason, sizes, taken) { NextIsMapped(sources, ks, reason, sizes, taken, i); }
        ok := MapTemporary(ks[i], second, reason, sources, sizes(ks[i]));
        if !ok { return; }
        i := i + 1;
      }
      assert ks[..i] == ks;
      ok := true;
    }

    // Two temporaries for each output of a loop body.
    method MapLoopOutputs(ks: seq<Key>, sources: seq<Model>, sizes: Key -> nat) returns (ok: bool)
      requires Valid() && forall k :: sizes(k) < UINT32_RANGE
      modifies this
      ensures Valid() && constants == old(constants)
      ensures ok ==> offsetOfTemporary.Keys == old(offsetOfTemporary.Keys) + Mapped(sources, ks, LoopOutput)
      ensures ok ==> offsetOfTemporary2.Keys == old(offsetOfTemporary2.Keys) + Mapped(sources, ks, LoopOutput)
      ensures ok ==> exactSize == TotalAfter(old(exactSize), Doubled(ks), sizes)
      ensures AllMapped(sources, ks, LoopOutput, sizes, old(offsetOfTemporary.Keys)) && AllMapped(sources, ks, LoopOutput, sizes, old(offsetOfTemporary2.Keys)) ==> ok
    {
      hide Valid, IsMapped, Mapped, AllMapped, Grown, TotalAfter, Doubled;
      NothingDoubled(ks, exactSize, sizes);
      ghost var taken, taken2 := offsetOfTemporary.Keys, offsetOfTemporary2.Keys;
      MappedNothing(sources, ks, LoopOutput);
      var i := 0;
      while i < |ks|
        invariant 0 <= i <= |ks| && Valid() && constants == old(constants)
        invariant offsetOfTemporary.Keys == taken + Mapped(sources, ks[..i], LoopOutput)
        invariant offsetOfTemporary2.Keys == taken2 + Mapped(sources, ks[..i], LoopOutput)
        invariant exactSize == TotalAfter(old(exactSize), Doubled(ks[..i]), sizes)
      {
        MappedOneMore(sources, ks, LoopOutput, i);
        DoubledOneMore(ks, i, old(exactSize), sizes);
        if AllMapped(sources, ks, LoopOutput, sizes, taken) { NextIsMapped(sources, ks, LoopOutput, sizes, taken, i); }
        if AllMapped(sources, ks, LoopOutput, sizes, taken2) { NextIsMapped(sources, ks, LoopOutput, sizes, taken2, i); }
        ghost var more := if IsSkipped(sources, ks[i], LoopOutput) then {} else {ks[i]};
        ok := MapTemporary(ks[i], false, LoopOutput, sources, sizes(ks[i]));
        if !ok { return; }
        assert offsetOfTemporary.Keys == taken + Mapped(sources, ks[..i], LoopOutput) + more == taken + (Mapped(sources, ks[..i], LoopOutput) + more);
        ok := MapTemporary(ks[i], true, LoopOutput, sources, sizes(ks[i]));
        if !ok { return; }
        assert offsetOfTemporary2.Keys == taken2 + Mapped(sources, ks[..i], LoopOutput) + more == taken2 + (Mapped(sources, ks[..i], LoopOutput) + more);
        i := i + 1;
      }
      assert ks[..i] == ks;
      ok := true;
    }

    method LayOutStep(step: LogicalStep, sources: seq<Model>, sizes: Key -> nat) returns (ok: bool)
      requires Valid() && forall k :: sizes(k) < UINT32_RANGE
      modifies this
      ensures Valid() && constants == old(constants)
      ensures ok ==> offsetOfTemporary.Keys == old(offsetOfTemporary.Keys) + LaidFor(step, sources)
      ensures ok ==> offsetOfTemporary2.Keys == if step.WhileStep? then old(offsetOfTemporary2.Keys) + Mapped(sources, step.bodyOutputs, LoopOutput) else old(offsetOfTemporary2.Keys)
      ensures ok ==> exactSize == TotalAfter(old(exactSize), StepList(step, sources), sizes)
      ensures StepFits(step, sources, sizes, old(offsetOfTemporary.Keys), old(offsetOfTemporary2.Keys)) ==> ok
    {
      hide Valid, IsMapped, Mapped, AllMapped, Keys, Grown, MappedList, Doubled, TotalAfter;
      NothingInTotal(exactSize, sizes);
      if step.WhileStep? { LoopTotal(step, sources, exactSize, sizes); }
      match step {
        case ExecutionStep(mi, _, _, _, outs) =>
          ok := MapTemporaries(Keys(mi, outs), false, Boundary, sources, sizes);
        case IfStep(_, _, _, _, outs, _, _, _, _) =>
          ok := MapTemporaries(outs, false, Boundary, sources, sizes);
        case WhileStep(_, _, _, _, outs, _, condOutput, _, bodyOutputs) =>
          ok := MapTemporaries(outs, false, Boundary, sources, sizes);
          if !ok { return; }
          ok := MapLoopOutputs(bodyOutputs, sources, sizes);
          if !ok { return; }
          ok := MapTemporary(condOutput, false, LoopOutput, sources, sizes(condOutput));
        case GotoStep(_) =>
          ok := true;
      }
    }

    // The layout for all steps, in order.
    method LayOutSteps(code: seq<LogicalStep>, sources: seq<Model>, sizes: Key -> nat) returns (ok: bool)
      requires Valid() && offsetOfTemporary == map[] && offsetOfTemporary2 == map[] && exactSize == 0
      requires forall k :: sizes(k) < UINT32_RANGE
      modifies this
      ensures Valid() && constants == old(constants)
      ensures ok ==> offsetOfTemporary.Keys == LaidBy(code, sources) && offsetOfTemporary2.Keys == LaidTwiceBy(code, sources)
      ensures ok ==> exactSize == TotalAfter(0, PlanList(code, sources), sizes)
      ensures PlanFits(code, sources, sizes) ==> ok
    {
      hide Valid, LaidFor, StepFits, StepList, TotalAfter;
      NothingInTotal(exactSize, sizes);
      var p := 0;
      while p < |code|
        invariant 0 <= p <= |code| && Valid() && constants == old(constants)
        invariant offsetOfTemporary.Keys == LaidBy(code[..p], sources) && offsetOfTemporary2.Keys == LaidTwiceBy(code[..p], sources)
        invariant exactSize == TotalAfter(0, PlanList(code[..p], sources), sizes)
      {
        TotalInSequence(0, PlanList(code[..p], sources), StepList(code[p], sources), sizes);
        assert code[..p + 1] == code[..p] + [code[p]];
        assert code[..p + 1][..p] == code[..p];
        ok := LayOutStep(code[p], sources, sizes);
        if !ok { return; }
        p := p + 1;
      }
      assert code[..p] == code;
      ok := true;
    }

    // Room for copies of the constants that control flow passes on.
    method LayOutConstants(copies: seq<Key>, sizes: Key -> nat)
      requires Valid() && constants == {} && Distinct(copies)
      requires forall k :: k in copies ==> 0 < sizes(k) < UINT32_RANGE && k !in offsetOfTemporary
      modifies this
      ensures Valid() && constants == AsSet(copies)
      ensures offsetOfTemporary.Keys == old(offsetOfTemporary.Keys) + AsSet(copies)
      ensures offsetOfTemporary2.Keys == old(offsetOfTemporary2.Keys)
      ensures exactSize == TotalAfter(old(exactSize), copies, sizes)
    {
      hide Valid, TotalAfter, Grown;
      NothingInTotal(exactSize, sizes);
      assert copies[..0] == [];
      var i := 0;
      while i < |copies|
        invariant 0 <= i <= |copies| && Valid() && constants == AsSet(copies[..i])
        invariant offsetOfTemporary.Keys == old(offsetOfTemporary.Keys) + AsSet(copies[..i])
        invariant offsetOfTemporary2.Keys == old(offsetOfTemporary2.Keys)
        invariant exactSize == TotalAfter(old(exactSize), copies[..i], sizes)
      {
        OneMoreInTotal(old(exactSize), copies[..i], copies[i], sizes);
        assert copies[..i + 1] == copies[..i] + [copies[i]] && copies[i] !in copies[..i] && copies[i] in copies;
        LayOut(copies[i], false, true, sizes(copies[i]));
        i := i + 1;
      }
      assert copies[..i] == copies;
    }
  }

  ghost function LaidBy(code: seq<LogicalStep>, sources: seq<Model>): set<Key> {
    if code == [] then {} else LaidBy(code[..|code| - 1], sources) + LaidFor(code[|code| - 1], sources)
  }

  ghost function LaidTwiceBy(code: seq<LogicalStep>, sources: seq<Model>): set<Key> {
    if code == [] then {}
    else
      var step := code[|code| - 1];
      if step.WhileStep? then LaidTwiceBy(code[..|code| - 1], sources) + Mapped(sources, step.bodyOutputs, LoopOutput)
      else LaidTwiceBy(code[..|code| - 1], sources)
  }

  /** No check fails for any step. */
  ghost predicate PlanFits(code: seq<LogicalStep>, sources: seq<Model>, sizes: Key -> nat) {
    forall p :: 0 <= p < |code| ==>
      StepFits(code[p], sources, sizes, LaidBy(code[..p], sources), LaidTwiceBy(code[..p], sources))
  }

  /** The operands that get a temporary because of a step. */
  ghost function LaidFor(step: LogicalStep, sources: seq<Model>): set<Key> {
    match step
    case ExecutionStep(mi, _, _, _, outs) => Mapped(sources, Keys(mi, outs), Boundary)
    case IfStep(_, _, _, _, outs, _, _, _, _) => Mapped(sources, outs, Boundary)
    case WhileStep(_, _, _, _, outs, _, condOutput, _, bodyOutputs) =>
      Mapped(sources, outs, Boundary) + Mapped(sources, bodyOutputs, LoopOutput) + {condOutput}
    case GotoStep(_) => {}
  }

  /** No check fails for the step. */
  ghost predicate StepFits(step: LogicalStep, sources: seq<Model>, sizes: Key -> nat, taken: set<Key>, taken2: set<Key>) {
    match step
    case ExecutionStep(mi, _, _, _, outs) => AllMapped(sources, Keys(mi, outs), Boundary, sizes, taken)
    case IfStep(_, _, _, _, outs, _, _, _, _) => AllMapped(sources, outs, Boundary, sizes, taken)
    case WhileStep(_, _, _, _, outs, _, condOutput, _, bodyOutputs) =>
      && AllMapped(sources, outs, Boundary, sizes, taken)
      && var taken1 := taken + Mapped(sources, outs, Boundary);
      && AllMapped(sources, bodyOutputs, LoopOutput, sizes, taken1)
      && AllMapped(sources, bodyOutputs, LoopOutput, sizes, taken2)
      && IsMapped(sources, condOutput, LoopOutput, sizes(condOutput), taken1 + Mapped(sources, bodyOutputs, LoopOutput))
    case GotoStep(_) => true
  }

  /** The operands of a list that a step lays out for a reason. */
  ghost function Mapped(sources: seq<Model>, ks: seq<Key>, reason: Reason): set<Key> {
    set k | k in ks && !IsSkipped(sources, k, reason)
  }

  /** Outputs of a source model live where the referring operation says. */
  predicate IsSkipped(sources: seq<Model>, k: Key, reason: Reason) {
    reason == Boundary && HasLifetime(sources, k, SubgraphOutput)
  }

  predicate IsMapped(sources: seq<Model>, k: Key, reason: Reason, size: nat, taken: set<Key>) {
    && HasLifetime(sources, k, if reason == Boundary then TemporaryVariable else SubgraphOutput)
    && size > 0 && k !in taken
  }

  /** No check fails for any operand of the list. */
  ghost predicate AllMapped(sources: seq<Model>, ks: seq<Key>, reason: Reason, sizes: Key -> nat, taken: set<Key>) {
    && Distinct(ks)
    && forall k :: k in ks ==> IsSkipped(sources, k, reason) || IsMapped(sources, k, reason, sizes(k), taken)
  }

  lemma NothingInTotal(total: nat, sizes: Key -> nat)
    ensures TotalAfter(total, [], sizes) == total
  {
  }

  lemma NothingListed(sources: seq<Model>, ks: seq<Key>, reason: Reason, total: nat, sizes: Key -> nat)
    ensures TotalAfter(total, MappedList(sources, ks[..0], reason), sizes) == total
  {
  }

  lemma ListedOneMore(sources: seq<Model>, ks: seq<Key>, reason: Reason, i: nat, total: nat, sizes: Key -> nat)
    requires i < |ks|
    ensures var before := TotalAfter(total, MappedList(sources, ks[..i], reason), sizes);
            TotalAfter(total, MappedList(sources, ks[..i + 1], reason), sizes) ==
            if IsSkipped(sources, ks[i], reason) then before else Grown(before, sizes(ks[i]))
  {
    hide IsSkipped, Grown, TotalAfter;
    var before := MappedList(sources, ks[..i], reason);
    assert ks[..i + 1][..i] == ks[..i];
    assert MappedList(sources, ks[..i + 1], reason) == before + if IsSkipped(sources, ks[i], reason) then [] else [ks[i]];
    assert before + [] == before;
    OneMoreInTotal(total, before, ks[i], sizes);
  }

  lemma NothingDoubled(ks: seq<Key>, total: nat, sizes: Key -> nat)
    ensures TotalAfter(total, Doubled(ks[..0]), sizes) == total
  {
  }

  lemma DoubledOneMore(ks: seq<Key>, i: nat, total: nat, sizes: Key -> nat)
    requires i < |ks|
    ensures TotalAfter(total, Doubled(ks[..i + 1]), sizes) == Grown(Grown(TotalAfter(total, Doubled(ks[..i]), sizes), sizes(ks[i])), sizes(ks[i]))
  {
    hide Grown, TotalAfter;
    var d, k := Doubled(ks[..i]), ks[i];
    assert ks[..i + 1][..i] == ks[..i];
    assert d + [k, k] == d + [k] + [k];
    OneMoreInTotal(total, d, k, sizes);
    OneMoreInTotal(total, d + [k], k, sizes);
  }

  lemma LoopTotal(step: LogicalStep, sources: seq<Model>, total: nat, sizes: Key -> nat)
    requires step.WhileStep?
    ensures TotalAfter(total, StepList(step, sources), sizes) ==
            Grown(TotalAfter(TotalAfter(total, MappedList(sources, step.outerOutputs, Boundary), sizes), Doubled(step.bodyOutputs), sizes), sizes(step.condOutput))
  {
    hide Grown, TotalAfter, MappedList, Doubled;
    var outer, body := MappedList(sources, step.outerOutputs, Boundary), Doubled(step.bodyOutputs);
    OneMoreInTotal(total, outer + body, step.condOutput, sizes);
    TotalInSequence(total, outer, body, sizes);
  }

  lemma MappedNothing(sources: seq<Model>, ks: seq<Key>, reason: Reason)
    ensures Mapped(sources, ks[..0], reason) == {}
  {
  }

  lemma MappedOneMore(sources: seq<Model>, ks: seq<Key>, reason: Reason, i: nat)
    requires i < |ks|
    ensures Mapped(sources, ks[..i + 1], reason) == Mapped(sources, ks[..i], reason) + if IsSkipped(sources, ks[i], reason) then {} else {ks[i]}
  {
    assert ks[..i + 1] == ks[..i] + [ks[i]];
  }

  lemma NextIsMapped(sources: seq<Model>, ks: seq<Key>, reason: Reason, sizes: Key -> nat, taken: set<Key>, i: nat)
    requires i < |ks| && AllMapped(sources, ks, reason, sizes, taken)
    ensures || IsSkipped(sources, ks[i], reason)
            || IsMapped(sources, ks[i], reason, sizes(ks[i]), taken + Mapped(sources, ks[..i], reason))
  {
    assert ks[i] in ks && ks[i] !in ks[..i];
  }
}
