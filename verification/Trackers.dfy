/** Which operations are ready to run while a model is partitioned: counts of inputs
    whose values are not known yet. */
module Trackers {
  import opened Models

  /** The number of input positions with an operand that is not known. */
  function Unknown(inputs: seq<nat>, known: set<nat>): nat {
    if inputs == [] then 0 else (if inputs[0] in known then 0 else 1) + Unknown(inputs[1..], known)
  }

  /** The number of positions of an operand. */
  function Occurrences(inputs: seq<nat>, x: nat): nat {
    if inputs == [] then 0 else (if inputs[0] == x then 1 else 0) + Occurrences(inputs[1..], x)
  }

  lemma {:induction false} UnknownAfter(inputs: seq<nat>, known: set<nat>, x: nat)
    requires x !in known
    ensures Unknown(inputs, known) == Unknown(inputs, known + {x}) + Occurrences(inputs, x)
  {
    if inputs != [] { UnknownAfter(inputs[1..], known, x); }
  }

  lemma {:induction false} UnknownIsNone(inputs: seq<nat>, known: set<nat>)
    ensures Unknown(inputs, known) == 0 <==> forall x :: x in inputs ==> x in known
  {
    if inputs != [] {
      UnknownIsNone(inputs[1..], known);
      assert forall x :: x in inputs <==> x == inputs[0] || x in inputs[1..];
    }
  }

  lemma {:induction false} UnknownAppend(inputs: seq<nat>, known: set<nat>, x: nat)
    ensures Unknown(inputs + [x], known) == Unknown(inputs, known) + if x in known then 0 else 1
  {
    if inputs == [] {
      assert inputs + [x] == [x] && [x][1..] == [];
    } else {
      assert (inputs + [x])[1..] == inputs[1..] + [x];
      UnknownAppend(inputs[1..], known, x);
    }
  }

  lemma {:induction false} OccursHere(inputs: seq<nat>, x: nat)
    ensures Occurrences(inputs, x) > 0 <==> x in inputs
  {
    if inputs != [] { OccursHere(inputs[1..], x); }
  }

  lemma {:induction false} OccurrencesAppend(inputs: seq<nat>, x: nat, y: nat)
    ensures Occurrences(inputs + [y], x) == Occurrences(inputs, x) + if x == y then 1 else 0
  {
    if inputs == [] {
      assert inputs + [y] == [y] && [y][1..] == [];
    } else {
      assert (inputs + [y])[1..] == inputs[1..] + [y];
      OccurrencesAppend(inputs[1..], x, y);
    }
  }

  function At(m: map<nat, seq<nat>>, x: nat): seq<nat> {
    if x in m then m[x] else []
  }

  function Repeat(i: nat, n: nat): (r: seq<nat>)
    ensures |r| == n && forall j :: 0 <= j < n ==> r[j] == i
  {
    seq(n, _ => i)
  }

  /** The readers of operand `x` among the first operations, in order, each as often as
      it reads it. */
  function Readers(m: Model, n: nat, x: nat): seq<nat>
    requires n <= |m.operations|
  {
    if n == 0 then [] else Readers(m, n - 1, x) + Repeat(n - 1, Occurrences(m.operations[n - 1].inputs, x))
  }

  ghost predicate AllReady(m: Model, ready: seq<nat>, n: nat, counts: seq<nat>)
    requires n <= |counts|
  {
    Distinct(ready) && (forall i: nat :: i in ready <==> i < n && counts[i] == 0)
  }

  lemma ReadyAppend(m: Model, ready: seq<nat>, counts: seq<nat>, c: nat)
    requires AllReady(m, ready, |counts|, counts)
    ensures AllReady(m, if c == 0 then ready + [|counts|] else ready, |counts| + 1, counts + [c])
  {
    var ready' := if c == 0 then ready + [|counts|] else ready;
    assert |counts| !in ready;
    assert Distinct(ready') by {
      forall i, j | 0 <= i < j < |ready'| ensures ready'[i] != ready'[j] {
        if j == |ready| { assert ready[i] in ready; }
      }
    }
    forall i: nat ensures i in ready' <==> i < |counts| + 1 && (counts + [c])[i] == 0 {
      if i < |counts| {
        assert (counts + [c])[i] == counts[i];
        assert i in ready' <==> i in ready;
      }
    }
  }

  class OperandTracker {
    const model: Model
    var operandToOperations: map<nat, seq<nat>>
    var unknownInputCount: seq<nat>

    /** The counts are right when the operands in `known` are known. */
    ghost predicate Counts(known: set<nat>)
      reads this
    {
      && |unknownInputCount| == |model.operations|
      && (forall i :: 0 <= i < |model.operations| ==> unknownInputCount[i] == Unknown(model.operations[i].inputs, known))
    }

    /** The readers of everything that is not known from the start are listed, as far
        as the first `n` operations. */
    ghost predicate ListsReaders(n: nat)
      requires n <= |model.operations|
      reads this
    {
      forall x :: x !in KnownSet(model) ==> At(operandToOperations, x) == Readers(model, n, x)
    }

    constructor (model: Model)
      ensures this.model == model
    {
      this.model := model;
      operandToOperations, unknownInputCount := map[], [];
    }

    // Finds out which operations can be executed right away.
    method Init() returns (ready: seq<nat>)
      requires forall i :: 0 <= i < |model.operations| ==> InRange(model.operations[i].inputs, |model.operands|)
      modifies this
      ensures Counts(KnownSet(model)) && ListsReaders(|model.operations|)
      ensures AllReady(model, ready, |model.operations|, unknownInputCount)
    {
      hide AllReady, Unknown, Readers;
      operandToOperations, unknownInputCount := map[], [];
      ready := [];
      NoneReady(model);
      assert ListsReaders(0) by { forall x { NoneRead(model, x); } }
      var i := 0;
      while i < |model.operations|
        invariant 0 <= i <= |model.operations| && |unknownInputCount| == i
        invariant forall l :: 0 <= l < i ==> unknownInputCount[l] == Unknown(model.operations[l].inputs, KnownSet(model))
        invariant ListsReaders(i)
        invariant AllReady(model, ready, i, unknownInputCount)
      {
        var count := AddReaders(i);
        ReadyAppend(model, ready, unknownInputCount, count);
        if count == 0 { ready := ready + [i]; }
        unknownInputCount := unknownInputCount + [count];
        i := i + 1;
      }
    }

    /** As ListsReaders, where operation `i` has been listed for some of its inputs. */
    ghost predicate ListsSoFar(i: nat, inputs: seq<nat>)
      requires i <= |model.operations|
      reads this
    {
      forall x :: x !in KnownSet(model) ==> At(operandToOperations, x) == ReadersSoFar(model, i, inputs, x)
    }

    // Lists the operation as a reader of its unknown inputs, and counts them.
    method AddReaders(i: nat) returns (count: nat)
      requires i < |model.operations| && InRange(model.operations[i].inputs, |model.operands|)
      requires ListsReaders(i)
      modifies this`operandToOperations
      ensures count == Unknown(model.operations[i].inputs, KnownSet(model))
      ensures ListsReaders(i + 1)
    {
      hide Readers, ReadersSoFar, Unknown, Occurrences;
      var inputs := model.operations[i].inputs;
      count := 0;
      forall x { NoReaders(model, i, x); }
      assert ListsSoFar(i, inputs[..0]);
      assert Unknown(inputs[..0], KnownSet(model)) == 0 by { NothingUnknown(KnownSet(model)); }
      for j := 0 to |inputs|
        invariant count == Unknown(inputs[..j], KnownSet(model))
        invariant ListsSoFar(i, inputs[..j])
      {
        assert inputs[j] in inputs && inputs[..j + 1] == inputs[..j] + [inputs[j]];
        UnknownAppend(inputs[..j], KnownSet(model), inputs[j]);
        count := AddReader(i, inputs[..j], inputs[j], count);
      }
      assert inputs[..|inputs|] == inputs;
      forall x { AllReaders(model, i, x); }
    }

    lemma NothingUnknown(known: set<nat>)
      ensures Unknown([], known) == 0
    {
    }

    method AddReader(i: nat, ghost inputs: seq<nat>, x: nat, count0: nat) returns (count: nat)
      requires i < |model.operations| && x < |model.operands| && ListsSoFar(i, inputs)
      modifies this`operandToOperations
      ensures count == count0 + if x in KnownSet(model) then 0 else 1
      ensures ListsSoFar(i, inputs + [x])
    {
      hide ReadersSoFar;
      forall y { OneMoreReader(model, i, inputs, x, y); }
      count := count0;
      if !KnownInitially(model.operands[x].lifetime) {
        count := count + 1;
        operandToOperations := operandToOperations[x := At(operandToOperations, x) + [i]];
      }
    }

    // Its outputs being known, finds out which operations can be executed now.
    method MarkProcessed(o: nat, ghost known: set<nat>) returns (ready: seq<nat>)
      requires Counts(known) && ListsReaders(|model.operations|) && KnownSet(model) <= known
      requires o < |model.operations| && Distinct(model.operations[o].outputs)
      requires forall x :: x in model.operations[o].outputs ==> x !in known
      modifies this`unknownInputCount
      ensures Counts(known + AsSet(model.operations[o].outputs))
      ensures NewlyReady(ready, old(unknownInputCount), unknownInputCount)
    {
      hide NewlyReady, Unknown, Readers, Distinct;
      var outputs := model.operations[o].outputs;
      ready := [];
      NoneNewlyReady(unknownInputCount);
      assert known + AsSet(outputs[..0]) == known;
      for j := 0 to |outputs|
        invariant Counts(known + AsSet(outputs[..j]))
        invariant NewlyReady(ready, old(unknownInputCount), unknownInputCount)
      {
        var x := outputs[j];
        OneMoreKnown(known, outputs, j);
        ready := CountDown(x, known + AsSet(outputs[..j]), old(unknownInputCount), ready);
      }
      assert outputs[..|outputs|] == outputs;
    }

    lemma OneMoreKnown(known: set<nat>, outputs: seq<nat>, j: nat)
      requires j < |outputs| && Distinct(outputs) && (forall x :: x in outputs ==> x !in known) && KnownSet(model) <= known
      ensures known + AsSet(outputs[..j + 1]) == known + AsSet(outputs[..j]) + {outputs[j]}
      ensures outputs[j] !in known + AsSet(outputs[..j]) && outputs[j] !in KnownSet(model)
    {
      assert outputs[..j + 1] == outputs[..j] + [outputs[j]];
      assert outputs[j] in outputs && outputs[j] !in outputs[..j];
    }

    // Operand `x` becomes known.
    method CountDown(x: nat, ghost known: set<nat>, ghost before: seq<nat>, ready0: seq<nat>) returns (ready: seq<nat>)
      requires Counts(known) && ListsReaders(|model.operations|) && x !in known && x !in KnownSet(model)
      requires NewlyReady(ready0, before, unknownInputCount)
      modifies this`unknownInputCount
      ensures Counts(known + {x})
      ensures NewlyReady(ready, before, unknownInputCount)
    {
      hide NewlyReady, Readers, Unknown, Occurrences;
      var readers := At(operandToOperations, x);
      ready := ready0;
      ReadersAreOperations(model, |model.operations|, x);
      for l := 0 to |readers|
        invariant |unknownInputCount| == |model.operations|
        invariant forall i :: 0 <= i < |model.operations| ==>
                    unknownInputCount[i] == Unknown(model.operations[i].inputs, known) - multiset(readers[..l])[i]
        invariant NewlyReady(ready, before, unknownInputCount)
      {
        var r := readers[l];
        CountPrefix(readers, l);
        assert r in readers;
        UnknownAfter(model.operations[r].inputs, known, x);
        NewlyReadyAfter(ready, before, unknownInputCount, r);
        unknownInputCount := unknownInputCount[r := unknownInputCount[r] - 1];
        if unknownInputCount[r] == 0 { ready := ready + [r]; }
      }
      assert readers[..|readers|] == readers;
      forall i | 0 <= i < |model.operations| ensures unknownInputCount[i] == Unknown(model.operations[i].inputs, known + {x}) {
        UnknownAfter(model.operations[i].inputs, known, x);
      }
    }
  }

  lemma CountPrefix(readers: seq<nat>, l: nat)
    requires l < |readers|
    ensures multiset(readers[..l + 1]) == multiset(readers[..l]) + multiset{readers[l]}
    ensures multiset(readers[..l])[readers[l]] < multiset(readers)[readers[l]]
  {
    assert readers[..l + 1] == readers[..l] + [readers[l]];
    assert readers == readers[..l + 1] + readers[l + 1..];
    assert multiset(readers) == multiset(readers[..l + 1]) + multiset(readers[l + 1..]);
  }

  /** The operations whose last unknown input has become known. */
  ghost predicate NewlyReady(ready: seq<nat>, before: seq<nat>, after: seq<nat>) {
    && |before| == |after| && Distinct(ready)
    && (forall i :: 0 <= i < |after| ==> after[i] <= before[i])
    && forall i: nat :: i in ready <==> i < |after| && after[i] == 0 && before[i] > 0
  }

  lemma NoneNewlyReady(counts: seq<nat>)
    ensures NewlyReady([], counts, counts)
  {
  }

  lemma NewlyReadyAfter(ready: seq<nat>, before: seq<nat>, counts: seq<nat>, r: nat)
    requires NewlyReady(ready, before, counts) && r < |counts| && counts[r] > 0
    ensures var after := counts[r := counts[r] - 1];
            NewlyReady(if after[r] == 0 then ready + [r] else ready, before, after)
  {
    assert r !in ready;
    var after := counts[r := counts[r] - 1];
    var ready' := if after[r] == 0 then ready + [r] else ready;
    assert Distinct(ready') by {
      forall i, j | 0 <= i < j < |ready'| ensures ready'[i] != ready'[j] {
        if j == |ready| { assert ready[i] in ready; }
      }
    }
    forall i: nat ensures i in ready' <==> i < |after| && after[i] == 0 && before[i] > 0 {
      assert i in ready' <==> i in ready || (i == r && after[r] == 0);
    }
  }

  lemma {:induction false} ReadersAreBelow(m: Model, n: nat, x: nat)
    requires n <= |m.operations|
    ensures forall r :: r in Readers(m, n, x) ==> r < n
  {
    if n > 0 { ReadersAreBelow(m, n - 1, x); }
  }

  lemma CountsAdd(a: seq<nat>, b: seq<nat>, i: nat)
    ensures multiset(a + b)[i] == multiset(a)[i] + multiset(b)[i]
  {
  }

  lemma NotCounted(s: seq<nat>, i: nat)
    requires i !in s
    ensures multiset(s)[i] == 0
  {
  }

  lemma {:induction false} ReaderCount(m: Model, n: nat, x: nat, i: nat)
    requires i < n <= |m.operations|
    ensures multiset(Readers(m, n, x))[i] == Occurrences(m.operations[i].inputs, x)
    decreases n
  {
    var c := Occurrences(m.operations[n - 1].inputs, x);
    var earlier, last := Readers(m, n - 1, x), Repeat(n - 1, c);
    assert Readers(m, n, x) == earlier + last;
    hide *;
    CountsAdd(earlier, last, i);
    RepeatCounts(n - 1, c, i);
    if i < n - 1 {
      ReaderCount(m, n - 1, x, i);
    } else {
      ReadersAreBelow(m, n - 1, x);
      NotCounted(earlier, i);
    }
  }

  lemma ReadersAreOperations(m: Model, n: nat, x: nat)
    requires n <= |m.operations|
    ensures forall r :: r in Readers(m, n, x) ==> r < n
    ensures forall i :: 0 <= i < n ==> multiset(Readers(m, n, x))[i] == Occurrences(m.operations[i].inputs, x)
  {
    hide Occurrences, Readers;
    ReadersAreBelow(m, n, x);
    forall i | 0 <= i < n ensures multiset(Readers(m, n, x))[i] == Occurrences(m.operations[i].inputs, x) {
      ReaderCount(m, n, x, i);
    }
  }

  lemma {:induction false} RepeatCounts(i: nat, n: nat, j: nat)
    ensures multiset(Repeat(i, n))[j] == if j == i then n else 0
  {
    if n > 0 {
      RepeatCounts(i, n - 1, j);
      assert Repeat(i, n) == Repeat(i, n - 1) + [i];
      CountsAdd(Repeat(i, n - 1), [i], j);
    }
  }

  function ReadersSoFar(m: Model, i: nat, inputs: seq<nat>, x: nat): seq<nat>
    requires i <= |m.operations|
  {
    Readers(m, i, x) + Repeat(i, Occurrences(inputs, x))
  }

  lemma NoReaders(m: Model, i: nat, x: nat)
    requires i <= |m.operations|
    ensures ReadersSoFar(m, i, [], x) == Readers(m, i, x)
  {
  }

  lemma OneMoreReader(m: Model, i: nat, inputs: seq<nat>, x: nat, y: nat)
    requires i <= |m.operations|
    ensures ReadersSoFar(m, i, inputs + [x], y) == ReadersSoFar(m, i, inputs, y) + if x == y then [i] else []
  {
    OccurrencesAppend(inputs, y, x);
  }

  lemma AllReaders(m: Model, i: nat, x: nat)
    requires i < |m.operations|
    ensures ReadersSoFar(m, i, m.operations[i].inputs, x) == Readers(m, i + 1, x)
  {
  }

  lemma NoneRead(m: Model, x: nat)
    ensures Readers(m, 0, x) == []
  {
  }

  lemma NoneReady(m: Model)
    ensures AllReady(m, [], 0, [])
  {
  }
}
