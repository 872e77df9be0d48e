/** Validation of a graph: operations are in execution order, every operand is written
    once, and the numbers of consumers are right. */
module Graphs {
  import opened Models
  import opened Partitions
  import opened Trackers
  import opened Queues

  /** How many input positions of the operations name an operand. */
  function Uses(ops: seq<Operation>, x: nat): nat {
    if ops == [] then 0 else Uses(ops[..|ops| - 1], x) + Occurrences(ops[|ops| - 1].inputs, x)
  }

  lemma UsesAppend(ops: seq<Operation>, op: Operation, x: nat)
    ensures Uses(ops + [op], x) == Uses(ops, x) + Occurrences(op.inputs, x)
  {
    assert (ops + [op])[..|ops|] == ops;
  }

  ghost predicate CountsConsumers(m: Model) {
    forall x :: 0 <= x < |m.operands| ==> m.operands[x].numberOfConsumers == Uses(m.operations, x)
  }

  ghost predicate AllWritten(m: Model) {
    forall x :: 0 <= x < |m.operands| ==> x in KnownSet(m) || x in OutputsOf(m.operations)
  }

  ghost predicate IsGraph(m: Model) {
    Ordered(m.operations, KnownSet(m)) && CountsConsumers(m) && AllWritten(m)
  }

  ghost predicate OperandsInRange(m: Model) {
    forall i :: 0 <= i < |m.operations| ==> InRange(m.operations[i].inputs, |m.operands|) && InRange(m.operations[i].outputs, |m.operands|)
  }

  // What is known before operation i.
  ghost function KnownBefore(m: Model, i: nat): set<nat>
    requires i <= |m.operations|
  {
    KnownSet(m) + OutputsOf(m.operations[..i])
  }

  /** The array says which operands are in a set. */
  ghost predicate Marks(known: array<bool>, s: set<nat>)
    reads known
  {
    forall x: nat :: x < known.Length ==> (known[x] <==> x in s)
  }

  ghost predicate HasCounts(counts: array<nat>, m: Model, i: nat, inputs: seq<nat>)
    requires i <= |m.operations|
    reads counts
  {
    forall x: nat :: x < counts.Length ==> counts[x] == Uses(m.operations[..i], x) + Occurrences(inputs, x)
  }

  lemma NextIsOrderly(m: Model, i: nat)
    requires i < |m.operations| && Ordered(m.operations, KnownSet(m))
    ensures forall x :: x in m.operations[i].inputs ==> x in KnownBefore(m, i)
    ensures Distinct(m.operations[i].outputs) && forall x :: x in m.operations[i].outputs ==> x !in KnownBefore(m, i)
  {
    assert m.operations == m.operations[..i] + m.operations[i..];
    OrderedConcatenation(m.operations[..i], m.operations[i..], KnownSet(m));
  }

  // Reads the inputs of an operation. Fails if one has not been written.
  method ReadInputs(m: Model, i: nat, known: array<bool>, counts: array<nat>) returns (ok: bool)
    requires i < |m.operations| && OperandsInRange(m) && known.Length == counts.Length == |m.operands|
    requires Marks(known, KnownBefore(m, i)) && HasCounts(counts, m, i, [])
    modifies counts
    ensures ok <==> forall x :: x in m.operations[i].inputs ==> x in KnownBefore(m, i)
    ensures ok ==> HasCounts(counts, m, i, m.operations[i].inputs)
  {
    hide Uses, OutputsOf, KnownBefore;
    var inputs := m.operations[i].inputs;
    assert inputs[..0] == [];
    for j := 0 to |inputs|
      invariant forall x :: x in inputs[..j] ==> x in KnownBefore(m, i)
      invariant HasCounts(counts, m, i, inputs[..j])
    {
      var k := inputs[j];
      assert k in inputs && k < |m.operands|;
      assert inputs[..j + 1] == inputs[..j] + [k];
      if !known[k] { return false; }
      forall x: nat ensures Occurrences(inputs[..j + 1], x) == Occurrences(inputs[..j], x) + if x == k then 1 else 0 {
        OccurrencesAppend(inputs[..j], x, k);
      }
      hide Occurrences;
      counts[k] := counts[k] + 1;
    }
    assert inputs[..|inputs|] == inputs;
    ok := true;
  }

  // Writes the outputs of an operation. Fails if one has been written already.
  method WriteOutputs(m: Model, i: nat, known: array<bool>) returns (ok: bool)
    requires i < |m.operations| && OperandsInRange(m) && known.Length == |m.operands|
    requires Marks(known, KnownBefore(m, i))
    modifies known
    ensures ok <==> Distinct(m.operations[i].outputs) && forall x :: x in m.operations[i].outputs ==> x !in KnownBefore(m, i)
    ensures ok ==> Marks(known, KnownBefore(m, i) + AsSet(m.operations[i].outputs))
  {
    hide OutputsOf, KnownBefore;
    var outputs := m.operations[i].outputs;
    for j := 0 to |outputs|
      invariant Distinct(outputs[..j]) && forall x :: x in outputs[..j] ==> x !in KnownBefore(m, i)
      invariant Marks(known, KnownBefore(m, i) + AsSet(outputs[..j]))
    {
      var k := outputs[j];
      assert k in outputs && k < |m.operands|;
      assert outputs[..j + 1] == outputs[..j] + [k];
      if known[k] {
        if k in outputs[..j] {
          var l :| 0 <= l < j && outputs[l] == k;
        }
        return false;
      }
      known[k] := true;
    }
    assert outputs[..|outputs|] == outputs;
    ok := true;
  }

  // The numbers of consumers that operands state are the ones counted.
  method AgreesWithCounts(m: Model, counts: array<nat>) returns (ok: bool)
    requires counts.Length == |m.operands| && HasCounts(counts, m, |m.operations|, [])
    ensures ok <==> CountsConsumers(m)
  {
    assert m.operations[..|m.operations|] == m.operations;
    NoOccurrences();
    hide Uses, Occurrences;
    for x := 0 to counts.Length
      invariant forall y :: 0 <= y < x ==> m.operands[y].numberOfConsumers == Uses(m.operations, y)
    {
      assert counts[x] == Uses(m.operations, x);
      if m.operands[x].numberOfConsumers != counts[x] { return false; }
    }
    ok := true;
  }

  method EverythingIsKnown(m: Model, known: array<bool>) returns (ok: bool)
    requires known.Length == |m.operands| && Marks(known, KnownBefore(m, |m.operations|))
    ensures ok <==> AllWritten(m)
  {
    assert m.operations[..|m.operations|] == m.operations;
    hide OutputsOf, KnownSet;
    for x := 0 to known.Length
      invariant forall y :: 0 <= y < x ==> y in KnownSet(m) || y in OutputsOf(m.operations)
    {
      assert known[x] <==> x in KnownSet(m) || x in OutputsOf(m.operations);
      if !known[x] { return false; }
    }
    ok := true;
  }

  // Reads the inputs of an operation and writes its outputs.
  method ValidateOperation(m: Model, i: nat, known: array<bool>, counts: array<nat>) returns (ok: bool)
    requires i < |m.operations| && OperandsInRange(m) && known.Length == counts.Length == |m.operands|
    requires Marks(known, KnownBefore(m, i)) && HasCounts(counts, m, i, []) && Ordered(m.operations[..i], KnownSet(m))
    modifies known, counts
    ensures !ok ==> !Ordered(m.operations, KnownSet(m))
    ensures ok ==> Marks(known, KnownBefore(m, i + 1)) && HasCounts(counts, m, i + 1, [])
    ensures ok ==> Ordered(m.operations[..i + 1], KnownSet(m))
  {
    hide Uses, OutputsOf, Ordered, Occurrences, KnownBefore;
    if Ordered(m.operations, KnownSet(m)) { NextIsOrderly(m, i); }
    ok := ReadInputs(m, i, known, counts);
    if !ok { return; }
    ok := WriteOutputs(m, i, known);
    if !ok { return; }
    OneMoreOperation(m, i);
  }

  /** Accepts exactly the graphs. */
  method ValidateGraph(m: Model) returns (ok: bool)
    requires OperandsInRange(m)
    ensures ok <==> IsGraph(m)
  {
    hide Uses, OutputsOf, Ordered, Occurrences, KnownBefore, CountsConsumers, AllWritten;
    var counts := new nat[|m.operands|](_ => 0);
    var known := new bool[|m.operands|](x requires 0 <= x < |m.operands| => KnownInitially(m.operands[x].lifetime));
    NothingBefore(m);
    assert Marks(known, KnownSet(m));
    for i := 0 to |m.operations|
      invariant Marks(known, KnownBefore(m, i)) && HasCounts(counts, m, i, [])
      invariant Ordered(m.operations[..i], KnownSet(m))
    {
      ok := ValidateOperation(m, i, known, counts);
      if !ok { return; }
    }
    assert m.operations[..|m.operations|] == m.operations;
    ok := AgreesWithCounts(m, counts);
    if !ok { return; }
    ok := EverythingIsKnown(m, known);
  }

  lemma NothingBefore(m: Model)
    ensures KnownBefore(m, 0) == KnownSet(m) && Ordered(m.operations[..0], KnownSet(m))
    ensures forall x :: Uses(m.operations[..0], x) == 0 && Occurrences([], x) == 0
  {
  }

  lemma OneMoreOperation(m: Model, i: nat)
    requires i < |m.operations| && Ordered(m.operations[..i], KnownSet(m))
    requires forall x :: x in m.operations[i].inputs ==> x in KnownBefore(m, i)
    requires Distinct(m.operations[i].outputs) && forall x :: x in m.operations[i].outputs ==> x !in KnownBefore(m, i)
    ensures KnownBefore(m, i + 1) == KnownBefore(m, i) + AsSet(m.operations[i].outputs)
    ensures Ordered(m.operations[..i + 1], KnownSet(m))
    ensures forall x :: Uses(m.operations[..i + 1], x) + Occurrences([], x) == Uses(m.operations[..i], x) + Occurrences(m.operations[i].inputs, x)
  {
    hide Uses, Occurrences, Ordered;
    var op := m.operations[i];
    assert m.operations[..i + 1] == m.operations[..i] + [op];
    OutputsOfConcatenation(m.operations[..i], [op]);
    assert OutputsOf([op][1..]) == {};
    OrderedAppend(m.operations[..i], op, KnownSet(m));
    forall x: nat
      ensures Uses(m.operations[..i + 1], x) + Occurrences([], x) == Uses(m.operations[..i], x) + Occurrences(op.inputs, x)
    {
      UsesAppend(m.operations[..i], op, x);
      NoOccurrences();
    }
  }

  lemma NoOccurrences()
    ensures forall x :: Occurrences([], x) == 0
  {
  }

  // ----- inputs and outputs of a model -----

  ghost predicate Sorted(s: seq<nat>) {
    forall i, j :: 0 <= i < j < |s| ==> s[i] <= s[j]
  }

  method InsertSorted(s: seq<nat>, x: nat) returns (r: seq<nat>)
    requires Sorted(s)
    ensures Sorted(r) && multiset(r) == multiset(s) + multiset{x}
  {
    var i := 0;
    while i < |s| && s[i] < x
      invariant 0 <= i <= |s| && forall j :: 0 <= j < i ==> s[j] < x
    {
      i := i + 1;
    }
    r := s[..i] + [x] + s[i..];
    Inserted(s, i, x);
  }

  lemma Inserted(s: seq<nat>, i: nat, x: nat)
    requires i <= |s|
    ensures multiset(s[..i] + [x] + s[i..]) == multiset(s) + multiset{x}
  {
    assert s == s[..i] + s[i..];
    assert multiset(s) == multiset(s[..i]) + multiset(s[i..]);
  }

  method Sort(s: seq<nat>) returns (r: seq<nat>)
    ensures Sorted(r) && multiset(r) == multiset(s)
  {
    r := [];
    for i := 0 to |s|
      invariant Sorted(r) && multiset(r) == multiset(s[..i])
    {
      assert s[..i + 1] == s[..i] + [s[i]];
      r := InsertSorted(r, s[i]);
    }
    assert s[..|s|] == s;
  }

  method BinarySearch(s: seq<nat>, x: nat) returns (found: bool)
    requires Sorted(s)
    ensures found <==> x in s
  {
    var low, high := 0, |s|;
    while low < high
      invariant 0 <= low <= high <= |s|
      invariant forall i :: 0 <= i < low ==> s[i] < x
      invariant forall i :: high <= i < |s| ==> s[i] > x
    {
      var middle := (low + high) / 2;
      if s[middle] < x { low := middle + 1; } else if s[middle] > x { high := middle; } else { return true; }
    }
    found := false;
  }

  lemma SameMembers(s: seq<nat>, r: seq<nat>)
    requires multiset(r) == multiset(s)
    ensures forall x :: x in r <==> x in s
  {
    forall x ensures x in r <==> x in s {
      assert x in multiset(r) <==> x in multiset(s);
    }
  }

  lemma {:induction false} DistinctMeansOnce(s: seq<nat>)
    ensures Distinct(s) <==> forall x :: x in multiset(s) ==> multiset(s)[x] == 1
  {
    if s != [] {
      var front, last := s[..|s| - 1], s[|s| - 1];
      assert s == front + [last];
      assert multiset(s) == multiset(front) + multiset{last};
      DistinctMeansOnce(front);
      if Distinct(s) {
        assert last !in front;
        assert last !in multiset(front);
      } else if Distinct(front) {
        assert last in front;
        assert multiset(s)[last] >= 2;
      } else {
        var x :| x in multiset(front) && multiset(front)[x] != 1;
        assert multiset(s)[x] != 1;
      }
    }
  }

  // Two neighbours that are equal.
  method AdjacentFind(s: seq<nat>) returns (found: bool)
    requires Sorted(s)
    ensures found <==> !Distinct(s)
  {
    for i := 0 to |s|
      invariant forall j, k :: 0 <= j < k < i ==> s[j] < s[k]
    {
      if i > 0 && s[i - 1] == s[i] { return true; }
    }
    found := false;
  }

  lemma AllHaveLifetime(indexes: seq<nat>, operands: seq<Operand>, lifetime: Lifetime)
    requires forall j :: 0 <= j < |indexes| ==> indexes[j] < |operands| && operands[indexes[j]].lifetime == lifetime
    ensures forall x :: x in indexes ==> x < |operands| && operands[x].lifetime == lifetime
  {
  }

  /** Accepts exactly the lists of all operands with a lifetime, each once. */
  method ValidateModelInputOutputs(indexes: seq<nat>, operands: seq<Operand>, lifetime: Lifetime) returns (ok: bool)
    ensures ok <==> ListsLifetime(indexes, operands, lifetime)
  {
    for i := 0 to |indexes|
      invariant forall j :: 0 <= j < i ==> indexes[j] < |operands| && operands[indexes[j]].lifetime == lifetime
    {
      if indexes[i] >= |operands| || operands[indexes[i]].lifetime != lifetime {
        assert indexes[i] in indexes;
        return false;
      }
    }
    hide Distinct;
    AllHaveLifetime(indexes, operands, lifetime);
    var sorted := Sort(indexes);
    SameMembers(indexes, sorted);
    var repeated := AdjacentFind(sorted);
    DistinctMeansOnce(indexes);
    DistinctMeansOnce(sorted);
    if repeated { return false; }
    for i := 0 to |operands|
      invariant forall j: nat :: j < i && operands[j].lifetime == lifetime ==> j in indexes
    {
      if operands[i].lifetime == lifetime {
        var listed := BinarySearch(sorted, i);
        if !listed { return false; }
      }
    }
    ok := true;
  }
}
