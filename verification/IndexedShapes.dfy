/** Indexes into a shape: an odometer that visits all of them in row-major order. */
module IndexedShapes {
  import opened Arithmetic

  function Product(dims: seq<nat>): nat {
    if dims == [] then 1 else dims[0] * Product(dims[1..])
  }

  ghost predicate ValidIndex(dims: seq<nat>, index: seq<nat>) {
    |index| == |dims| && forall i :: 0 <= i < |dims| ==> index[i] < dims[i]
  }

  /** The position of an index in row-major order. */
  function Flat(dims: seq<nat>, index: seq<nat>): nat
    requires |index| == |dims|
  {
    if dims == [] then 0 else index[0] * Product(dims[1..]) + Flat(dims[1..], index[1..])
  }

  lemma {:induction false} FlatInRange(dims: seq<nat>, index: seq<nat>)
    requires ValidIndex(dims, index)
    ensures Flat(dims, index) < Product(dims)
  {
    if dims != [] {
      FlatInRange(dims[1..], index[1..]);
      Monotone(index[0] + 1, dims[0], Product(dims[1..]));
      Successor(index[0], Product(dims[1..]));
    }
  }

  /** Different indexes have different positions. */
  lemma {:induction false} FlatIsUnique(dims: seq<nat>, a: seq<nat>, b: seq<nat>)
    requires ValidIndex(dims, a) && ValidIndex(dims, b) && Flat(dims, a) == Flat(dims, b)
    ensures a == b
  {
    if dims != [] {
      FlatInRange(dims[1..], a[1..]);
      FlatInRange(dims[1..], b[1..]);
      Unique(a[0], Flat(dims[1..], a[1..]), b[0], Flat(dims[1..], b[1..]), Product(dims[1..]));
      FlatIsUnique(dims[1..], a[1..], b[1..]);
      assert a == [a[0]] + a[1..] && b == [b[0]] + b[1..];
    }
  }

  /** Positions of indexes that agree at the front differ as those of the rest do. */
  lemma {:induction false} FrontCancels(dims: seq<nat>, a: seq<nat>, b: seq<nat>, i: nat)
    requires |a| == |b| == |dims| && i <= |dims| && a[..i] == b[..i]
    ensures Flat(dims, a) - Flat(dims, b) == Flat(dims[i..], a[i..]) - Flat(dims[i..], b[i..])
  {
    if i > 0 {
      assert a[0] == a[..i][0] == b[..i][0] == b[0];
      assert a[1..][..i - 1] == a[..i][1..] && b[1..][..i - 1] == b[..i][1..];
      FrontCancels(dims[1..], a[1..], b[1..], i - 1);
      assert dims[1..][i - 1..] == dims[i..] && a[1..][i - 1..] == a[i..] && b[1..][i - 1..] == b[i..];
    } else {
      assert dims[0..] == dims && a[0..] == a && b[0..] == b;
    }
  }

  ghost predicate Positive(dims: seq<nat>) {
    forall i :: 0 <= i < |dims| ==> dims[i] > 0
  }

  ghost predicate AllZero(index: seq<nat>) {
    forall i :: 0 <= i < |index| ==> index[i] == 0
  }

  ghost predicate AllLast(dims: seq<nat>, index: seq<nat>) {
    |index| == |dims| && forall i :: 0 <= i < |index| ==> index[i] + 1 == dims[i]
  }

  lemma {:induction false} FlatOfZero(dims: seq<nat>, index: seq<nat>)
    requires |index| == |dims| && AllZero(index)
    ensures Flat(dims, index) == 0
  {
    if dims != [] {
      FlatOfZero(dims[1..], index[1..]);
      assert 0 * Product(dims[1..]) == 0;
    }
  }

  lemma {:induction false} FlatOfLast(dims: seq<nat>, index: seq<nat>)
    requires AllLast(dims, index)
    ensures Flat(dims, index) + 1 == Product(dims)
  {
    if dims != [] {
      FlatOfLast(dims[1..], index[1..]);
      Successor(index[0], Product(dims[1..]));
    }
  }

  lemma {:induction false} ProductIsPositive(dims: seq<nat>)
    requires Positive(dims)
    ensures Product(dims) > 0
  {
    if dims != [] {
      ProductIsPositive(dims[1..]);
      Monotone(1, dims[0], Product(dims[1..]));
    }
  }

  lemma {:induction false} RestIsSmaller(dims: seq<nat>, i: nat)
    requires Positive(dims) && i <= |dims|
    ensures 0 < Product(dims[i..]) <= Product(dims)
  {
    ProductIsPositive(dims[i..]);
    if i == 0 {
      assert dims[0..] == dims;
    } else {
      RestIsSmaller(dims[1..], i - 1);
      assert dims[1..][i - 1..] == dims[i..];
      Monotone(1, dims[0], Product(dims[1..]));
    }
  }

  lemma StrideStep(dims: seq<nat>, i: nat)
    requires i < |dims|
    ensures Product(dims[i..]) == dims[i] * Product(dims[i + 1..])
  {
    assert dims[i..][1..] == dims[i + 1..];
  }

  /** From dimension i on each stride is the number of elements that one step in its dimension skips. */
  ghost predicate AreStrides(dims: seq<nat>, strides: seq<nat>, i: nat) {
    |strides| == |dims| && forall j: nat :: i <= j < |dims| ==> strides[j] == Product(dims[j + 1..])
  }

  lemma LastStride(dims: seq<nat>)
    requires dims != []
    ensures AreStrides(dims, seq(|dims|, _ => 1), |dims| - 1)
  {
    assert dims[|dims|..] == [];
  }

  lemma StrideFits(dims: seq<nat>, i: nat, next: nat)
    requires Positive(dims) && Product(dims) < UINT32_RANGE && i + 1 < |dims| && next == Product(dims[i + 2..])
    ensures (dims[i + 1] * next) % UINT32_RANGE == Product(dims[i + 1..])
  {
    RestIsSmaller(dims, i + 1);
    StrideStep(dims, i + 1);
    hide *;
    Remains(dims[i + 1] * next, UINT32_RANGE);
  }

  class IndexedShapeWrapper {
    const dims: seq<nat>
    var strides: seq<nat>

    ghost predicate Valid()
      reads this
    {
      dims != [] && Positive(dims) && Product(dims) < UINT32_RANGE && AreStrides(dims, strides, 0)
    }

    // Strides are multiplied in 32 bits.
    constructor (dims: seq<nat>)
      requires dims != [] && Positive(dims) && Product(dims) < UINT32_RANGE
      ensures this.dims == dims && Valid()
    {
      var n := |dims|;
      var s: seq<nat> := seq(n, _ => 1);
      LastStride(dims);
      hide Product, Positive;
      for i := n - 1 downto 0
        invariant |s| == n && AreStrides(dims, s, i)
      {
        StrideFits(dims, i, s[i + 1]);
        s := s[i := (dims[i + 1] * s[i + 1]) % UINT32_RANGE];
      }
      this.dims, strides := dims, s;
    }

    method IsValid(index: seq<nat>) returns (ok: bool)
      ensures ok <==> ValidIndex(dims, index)
    {
      if |index| != |dims| { return false; }
      for i := 0 to |index|
        invariant forall j :: 0 <= j < i ==> index[j] < dims[j]
      {
        if index[i] >= dims[i] { return false; }
      }
      ok := true;
    }

    /** Steps to the next index. The last index stays, and is reported. */
    method NextIndexInplace(index: array<nat>) returns (ok: bool, lastIndex: bool)
      requires Valid()
      modifies index
      ensures ok <==> ValidIndex(dims, old(index[..]))
      ensures !ok ==> index[..] == old(index[..])
      ensures ok ==> ValidIndex(dims, index[..])
      ensures ok ==> (lastIndex <==> Flat(dims, old(index[..])) + 1 == Product(dims))
      ensures ok ==> if lastIndex then index[..] == old(index[..]) else Flat(dims, index[..]) == Flat(dims, old(index[..])) + 1
    {
      lastIndex := false;
      ok := IsValid(index[..]);
      if !ok { return; }
      ghost var before := index[..];
      var anyIndicesLeft := false;
      for i := 0 to index.Length
        invariant index[..] == before
        invariant anyIndicesLeft <==> exists j :: 0 <= j < i && before[j] < dims[j] - 1
      {
        if index[i] < dims[i] - 1 {
          anyIndicesLeft := true;
          break;
        }
      }
      if !anyIndicesLeft {
        FlatOfLast(dims, before);
        lastIndex := true;
        return;
      }
      var i := index.Length - 1;
      while i >= 0
        invariant -1 <= i < index.Length
        invariant forall j :: 0 <= j <= i ==> index[j] == before[j]
        invariant forall j :: i < j < index.Length ==> index[j] == 0 && before[j] + 1 == dims[j]
        invariant exists j :: 0 <= j <= i && before[j] < dims[j] - 1
      {
        if index[i] + 1 == dims[i] {
          index[i] := 0;
        } else {
          index[i] := index[i] + 1;
          Carried(dims, before, index[..], i);
          FlatInRange(dims, index[..]);
          return;
        }
        i := i - 1;
      }
    }

    method AddStride(flat: nat, i: nat, x: nat) returns (sum: nat)
      requires Valid() && i < |dims| && flat + x * Product(dims[i + 1..]) < UINT32_RANGE
      ensures sum == flat + x * Product(dims[i + 1..])
    {
      Commute(strides[i], x);
      sum := (flat + strides[i] * x) % UINT32_RANGE;
    }

    // The position of an index, in 32 bits.
    method IndexToFlatIndex(index: seq<nat>) returns (ok: bool, flat: nat)
      requires Valid()
      ensures ok <==> ValidIndex(dims, index)
      ensures ok ==> flat == Flat(dims, index)
    {
      flat := 0;
      ok := IsValid(index);
      if !ok { return; }
      FlatInRange(dims, index);
      assert dims[0..] == dims && index[0..] == index;
      hide Product, Flat, ValidIndex;
      for i := 0 to |index|
        invariant flat + Flat(dims[i..], index[i..]) == Flat(dims, index)
      {
        FlatStep(dims, index, i);
        flat := AddStride(flat, i, index[i]);
      }
      NothingFlat(dims[|dims|..], index[|dims|..]);
    }

    // Adds what dimension i contributes, unless its size is one.
    method AddBroadcast(flat: nat, i: nat, currentIndex: nat, ghost rear: seq<nat>) returns (ok: bool, sum: nat)
      requires Valid() && i < |dims| == |rear| && currentIndex == rear[i]
      requires BroadcastsFrom(dims, rear, i + 1) && flat == Flat(dims[i + 1..], Repeated(dims, rear)[i + 1..])
      ensures ok <==> BroadcastsFrom(dims, rear, i)
      ensures ok ==> sum == Flat(dims[i..], Repeated(dims, rear)[i..])
    {
      var currentDimSize := dims[i];
      if !(currentIndex < currentDimSize || currentDimSize == 1) { return false, 0; }
      ghost var repeated := Repeated(dims, rear);
      assert forall j :: i <= j < |dims| ==> repeated[j] < dims[j];
      hide Product, Flat;
      PartialIsInRange(dims, repeated, i);
      FlatStep(dims, repeated, i);
      ok, sum := true, flat;
      if currentDimSize != 1 {
        sum := AddStride(flat, i, currentIndex);
      } else {
        Commute(0, Product(dims[i + 1..]));
      }
    }

    // The position of an index into a larger shape: dimensions of size one are repeated.
    method BroadcastedIndexToFlatIndex(index: seq<nat>) returns (ok: bool, flat: nat)
      requires Valid()
      ensures ok <==> |index| >= |dims| && BroadcastsFrom(dims, index[|index| - |dims|..], 0)
      ensures ok ==> flat == Flat(dims, Repeated(dims, index[|index| - |dims|..]))
    {
      flat := 0;
      if |index| < |strides| { return false, 0; }
      var n := |dims|;
      ghost var rear := index[|index| - n..];
      NothingFlat(dims[n..], Repeated(dims, rear)[n..]);
      hide Product, Flat, Repeated;
      for i := 1 to n + 1
        invariant BroadcastsFrom(dims, rear, n - i + 1)
        invariant flat == Flat(dims[n - i + 1..], Repeated(dims, rear)[n - i + 1..])
      {
        assert index[|index| - i] == rear[n - i];
        ok, flat := AddBroadcast(flat, n - i, index[|index| - i], rear);
        if !ok {
          return false, 0;
        }
      }
      assert dims[0..] == dims && Repeated(dims, rear)[0..] == Repeated(dims, rear);
      ok := true;
    }
  }

  lemma NothingFlat(dims: seq<nat>, index: seq<nat>)
    requires dims == [] && index == []
    ensures Flat(dims, index) == 0
  {
  }

  lemma FlatStep(dims: seq<nat>, index: seq<nat>, i: nat)
    requires |index| == |dims| && i < |dims|
    ensures Flat(dims[i..], index[i..]) == index[i] * Product(dims[i + 1..]) + Flat(dims[i + 1..], index[i + 1..])
  {
    assert dims[i..][1..] == dims[i + 1..] && index[i..][1..] == index[i + 1..];
  }

  /** Adding one with carry raises the position by one. */
  lemma Carried(dims: seq<nat>, before: seq<nat>, after: seq<nat>, i: nat)
    requires |before| == |after| == |dims| && i < |dims|
    requires (forall j :: 0 <= j < i ==> after[j] == before[j]) && after[i] == before[i] + 1
    requires forall j :: i < j < |dims| ==> after[j] == 0 && before[j] + 1 == dims[j]
    ensures Flat(dims, after) == Flat(dims, before) + 1
  {
    hide Flat, Product;
    assert after[..i] == before[..i];
    FrontCancels(dims, after, before, i);
    FlatOfZero(dims[i + 1..], after[i + 1..]);
    FlatOfLast(dims[i + 1..], before[i + 1..]);
    FlatStep(dims, after, i);
    FlatStep(dims, before, i);
    Successor(before[i], Product(dims[i + 1..]));
  }

  // ----- broadcasting -----

  /** From dimension i on the index is in range or the dimension is repeated. */
  ghost predicate BroadcastsFrom(dims: seq<nat>, index: seq<nat>, i: nat) {
    |index| == |dims| && forall j :: i <= j < |dims| ==> index[j] < dims[j] || dims[j] == 1
  }

  function Repeated(dims: seq<nat>, index: seq<nat>): (r: seq<nat>)
    requires |index| == |dims|
    ensures |r| == |dims| && forall i :: 0 <= i < |dims| ==> r[i] == if dims[i] == 1 then 0 else index[i]
  {
    seq(|dims|, i requires 0 <= i < |dims| => if dims[i] == 1 then 0 else index[i])
  }

  /** On indexes of the shape itself broadcasting changes nothing. */
  lemma BroadcastAgrees(dims: seq<nat>, index: seq<nat>)
    requires ValidIndex(dims, index)
    ensures BroadcastsFrom(dims, index, 0) && Repeated(dims, index) == index
  {
  }

  lemma PartialIsInRange(dims: seq<nat>, repeated: seq<nat>, i: nat)
    requires i < |dims| == |repeated| && Positive(dims) && Product(dims) < UINT32_RANGE
    requires forall j :: i <= j < |dims| ==> repeated[j] < dims[j]
    ensures Flat(dims[i..], repeated[i..]) < UINT32_RANGE
  {
    FlatInRange(dims[i..], repeated[i..]);
    RestIsSmaller(dims, i);
  }

  // ----- all indexes -----

  /** Stepping from zero visits every index once, in the order of positions. */
  method VisitAll(dims: seq<nat>) returns (visited: seq<seq<nat>>)
    requires dims != [] && Positive(dims) && Product(dims) < UINT32_RANGE
    ensures |visited| == Product(dims)
    ensures forall f :: 0 <= f < |visited| ==> ValidIndex(dims, visited[f]) && Flat(dims, visited[f]) == f
    ensures forall index :: ValidIndex(dims, index) ==> Flat(dims, index) < |visited| && visited[Flat(dims, index)] == index
  {
    var wrapper := new IndexedShapeWrapper(dims);
    var index := new nat[|dims|](_ => 0);
    FlatOfZero(dims, index[..]);
    FlatInRange(dims, index[..]);
    visited := [index[..]];
    hide Product, Flat;
    while true
      invariant fresh(index) && wrapper.Valid() && wrapper.dims == dims
      invariant ValidIndex(dims, index[..]) && Flat(dims, index[..]) == |visited| - 1 && 0 < |visited| <= Product(dims)
      invariant forall f :: 0 <= f < |visited| ==> ValidIndex(dims, visited[f]) && Flat(dims, visited[f]) == f
      decreases Product(dims) - |visited|
    {
      var ok, lastIndex := wrapper.NextIndexInplace(index);
      if lastIndex { break; }
      FlatInRange(dims, index[..]);
      visited := visited + [index[..]];
    }
    forall index | ValidIndex(dims, index) ensures Flat(dims, index) < |visited| && visited[Flat(dims, index)] == index {
      FlatInRange(dims, index);
      FlatIsUnique(dims, visited[Flat(dims, index)], index);
    }
  }
}
