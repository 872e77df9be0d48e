/** What a slice computes: what its operations compute in the original model. */
module SliceMeanings {
  import opened Models
  import opened Semantics
  import opened Scheduling
  import opened ExecutionSteps
  import opened Slices
  import opened Meanings

  /** Constants and omitted operands are copied with everything but their consumers. */
  lemma ConstantsAreCopied(m: Model, nc: set<nat>, s: Slice, x: nat)
    requires IsSlice(m, nc, s) && x in s.index && x < |m.operands|
    requires m.operands[x].lifetime in {ConstantCopy, ConstantReference, NoValue}
    ensures s.index[x] < |s.operands|
    ensures var o, o' := m.operands[x], s.operands[s.index[x]];
            o'.ty == o.ty && o'.lifetime == o.lifetime && o'.value == o.value
  {
    hide IsWellFormed, AreRenumbered, CompliantBelow, Initially, Produced, Foreign, Consumed;
  }

  /** The arguments of the slice are the values that the original gives the operands which
      became its inputs. Operands that share an input have one value. */
  ghost predicate ArgumentsAgree(s: Slice, sargs: seq<Bytes>, e: Env) {
    && |sargs| == |s.inputIndexes|
    && forall x, j :: x in s.index && 0 <= j < |sargs| && s.index[x] == s.inputIndexes[j] ==> x in e && e[x] == sargs[j]
  }

  /** Where arguments agree, running the slice gives every operand that it has the value that
      the original gives it. */
  lemma SliceComputes(k: Kernels, fuel: nat, m: Model, nc: set<nat>, s: Slice, args: seq<Bytes>, e: Env, sargs: seq<Bytes>) returns (local: Env)
    requires IsOriginal(m) && IsSlice(m, nc, s) && |args| == |m.inputIndexes|
    requires RunOperations(k, fuel, m.operations, Bind(Constants(m), m.inputIndexes, args)) == Done(e)
    requires ArgumentsAgree(s, sargs, e)
    ensures RunOperations(k, fuel, s.operations, Bind(Constants(AsModel(s)), s.inputIndexes, sargs)) == Done(local)
    ensures forall x :: x in s.index ==> s.index[x] in local && x in e && local[s.index[x]] == e[x]
  {
    hide *;
    SliceIsOrderly(m, nc, s);
    AsManyArguments(s, sargs, e);
    var env, start := Bind(Constants(m), m.inputIndexes, args), Bind(Constants(AsModel(s)), s.inputIndexes, sargs);
    OriginalRuns(k, fuel, m, args, env, e);
    IndexedAreKnown(m, nc, s, e);
    InitialKeys(AsModel(s), sargs);
    local := LocalValues(m, nc, s, e, sargs);
    StartIsExtended(m, nc, s, e, sargs, start, local);
    forall op' | op' in s.operations ensures Explains(k, fuel, op', local) {
      var j :| 0 <= j < |s.operations| && s.operations[j] == op';
      OperationExplains(k, fuel, m, nc, s, e, local, j);
    }
    SliceIsConsistent(k, fuel, m, nc, s, start, local);
    ConsistentIsReached(k, fuel, s.operations, start, local);
  }

  lemma OriginalRuns(k: Kernels, fuel: nat, m: Model, args: seq<Bytes>, env: Env, e: Env)
    requires IsOriginal(m) && |args| == |m.inputIndexes| && env == Bind(Constants(m), m.inputIndexes, args)
    requires RunOperations(k, fuel, m.operations, env) == Done(e)
    ensures e.Keys == KnownSet(m) + OutputsOf(m.operations)
    ensures forall i :: 0 <= i < |m.operations| ==> Explains(k, fuel, m.operations[i], e)
    ensures forall x: nat :: x < |m.operands| && m.operands[x].lifetime !in {TemporaryVariable, SubgraphInput, SubgraphOutput} ==>
              x in e && e[x] == m.operands[x].value
  {
    InitialKeys(m, args);
    ValuesOfStart(m, args, env);
    RunEndsConsistent(k, fuel, m.operations, env, e);
    hide RunOperations, Bind, Constants, Explains, OutputsOf, Ordered, KnownSet, ListsLifetime;
  }

  lemma IndexedAreKnown(m: Model, nc: set<nat>, s: Slice, e: Env)
    requires IsOriginal(m) && IsSlice(m, nc, s) && e.Keys == KnownSet(m) + OutputsOf(m.operations)
    ensures forall x :: x in s.index ==> x in e
  {
    hide *;
    InputsAreListed(m);
    forall x | x in s.index ensures x in e {
      IsInitialOrProduced(m, nc, s, x);
      InitialAreKnown(m, x);
      ProducedAreWritten(m, nc, x);
    }
  }

  lemma InitialAreKnown(m: Model, x: nat)
    requires ListsLifetime(m.inputIndexes, m.operands, SubgraphInput)
    ensures x in m.inputIndexes || (x < |m.operands| && IsCopied(m.operands[x].lifetime)) ==> x in KnownSet(m)
  {
  }

  lemma ProducedAreWritten(m: Model, nc: set<nat>, x: nat)
    ensures x in Produced(m, nc, |m.operations|) ==> x in OutputsOf(m.operations)
  {
    ProducedAreOutputs(m, nc, |m.operations|);
    OutputsOfMembers(m.operations);
    hide Produced, OutputsOf;
  }

  lemma InputsAreListed(m: Model)
    requires IsOriginal(m)
    ensures ListsLifetime(m.inputIndexes, m.operands, SubgraphInput)
  {
  }

  lemma IsInitialOrProduced(m: Model, nc: set<nat>, s: Slice, x: nat)
    requires IsSlice(m, nc, s) && x in s.index
    ensures x in Produced(m, nc, |m.operations|) || x in m.inputIndexes || (x < |m.operands| && IsCopied(m.operands[x].lifetime))
  {
    hide IsWellFormed, Maps, AreRenumbered, CompliantBelow, Consumed, Produced;
    assert x in Initially(m, nc) + Produced(m, nc, |m.operations|);
  }

  lemma AsManyArguments(s: Slice, sargs: seq<Bytes>, e: Env)
    requires ArgumentsAgree(s, sargs, e)
    ensures |sargs| == |s.inputIndexes|
  {
  }

  lemma SliceIsOrderly(m: Model, nc: set<nat>, s: Slice)
    requires IsSlice(m, nc, s)
    ensures ListsLifetime(s.inputIndexes, s.operands, SubgraphInput) && AsModel(s) == Model(s.operands, s.operations, s.inputIndexes, s.outputIndexes)
    ensures Ordered(s.operations, KnownSet(AsModel(s)))
    ensures forall j: nat :: j in KnownSet(AsModel(s)) + OutputsOf(s.operations) <==> j < |s.operands|
  {
    OutputsOfMembers(s.operations);
    hide Maps, AreRenumbered, CompliantBelow, Initially, Produced, OutputsOf, Ordered, ListsLifetime;
  }

  // The value of each operand of the slice: that of an operand it comes from.
  lemma LocalValues(m: Model, nc: set<nat>, s: Slice, e: Env, sargs: seq<Bytes>) returns (local: Env)
    requires IsSlice(m, nc, s) && ArgumentsAgree(s, sargs, e) && (forall x :: x in s.index ==> x in e)
    requires ListsLifetime(s.inputIndexes, s.operands, SubgraphInput)
    ensures forall j: nat :: j in local <==> j < |s.operands|
    ensures forall x :: x in s.index ==> s.index[x] in local && local[s.index[x]] == e[x]
  {
    local := map j: nat | j < |s.operands| :: e[OriginOf(m, nc, s, j)];
    forall x | x in s.index ensures s.index[x] in local && local[s.index[x]] == e[x] {
      SameValue(m, nc, s, e, sargs, x, OriginOf(m, nc, s, s.index[x]));
    }
  }

  lemma InRangeOfSlice(m: Model, nc: set<nat>, s: Slice, x: nat)
    requires IsSlice(m, nc, s) && x in s.index
    ensures x < |m.operands| && s.index[x] < |s.operands|
    ensures s.operands[s.index[x]].lifetime == LifetimeOf(m, nc, x) && s.operands[s.index[x]].value == ValueOf(m, nc, x)
  {
    hide IsWellFormed, AreRenumbered, CompliantBelow, Initially, Produced;
  }

  lemma OriginExists(m: Model, nc: set<nat>, s: Slice, j: nat)
    requires IsSlice(m, nc, s) && j < |s.operands|
    ensures HasOrigin(s.index, j)
  {
    hide IsWellFormed, AreRenumbered, CompliantBelow, Initially, Produced, LifetimeOf, ValueOf;
  }

  ghost function OriginOf(m: Model, nc: set<nat>, s: Slice, j: nat): (x: nat)
    requires IsSlice(m, nc, s) && j < |s.operands|
    ensures x in s.index && s.index[x] == j
  {
    OriginExists(m, nc, s, j);
    var x :| x in s.index && s.index[x] == j;
    x
  }

  lemma SameValue(m: Model, nc: set<nat>, s: Slice, e: Env, sargs: seq<Bytes>, x: nat, y: nat)
    requires IsSlice(m, nc, s) && ArgumentsAgree(s, sargs, e) && x in s.index && y in s.index && s.index[x] == s.index[y]
    requires ListsLifetime(s.inputIndexes, s.operands, SubgraphInput) && x in e && y in e
    ensures e[x] == e[y]
  {
    hide *;
    if x != y {
      SharedOperands(m, nc, s, x, y);
      InputIsListed(s, s.index[x]);
      AgreeAt(s, sargs, e, x, y);
    }
  }

  lemma InputIsListed(s: Slice, j: nat)
    requires ListsLifetime(s.inputIndexes, s.operands, SubgraphInput) && j < |s.operands|
    ensures s.operands[j].lifetime == SubgraphInput ==> j in s.inputIndexes
  {
  }

  lemma AgreeAt(s: Slice, sargs: seq<Bytes>, e: Env, x: nat, y: nat)
    requires ArgumentsAgree(s, sargs, e) && x in s.index && y in s.index && s.index[x] == s.index[y] && s.index[x] in s.inputIndexes
    ensures x in e && y in e && e[x] == e[y]
  {
    var p :| 0 <= p < |s.inputIndexes| && s.inputIndexes[p] == s.index[x];
  }

  lemma StartIsExtended(m: Model, nc: set<nat>, s: Slice, e: Env, sargs: seq<Bytes>, start: Env, local: Env)
    requires IsSlice(m, nc, s) && ArgumentsAgree(s, sargs, e) && ListsLifetime(s.inputIndexes, s.operands, SubgraphInput)
    requires start == Bind(Constants(AsModel(s)), s.inputIndexes, sargs) && start.Keys == KnownSet(AsModel(s))
    requires forall j: nat :: j in local <==> j < |s.operands|
    requires forall x :: x in s.index ==> x in e && s.index[x] in local && local[s.index[x]] == e[x]
    requires forall x: nat :: x < |m.operands| && m.operands[x].lifetime !in {TemporaryVariable, SubgraphInput, SubgraphOutput} ==>
               x in e && e[x] == m.operands[x].value
    ensures Extends(start, local)
  {
    ValuesOfStart(AsModel(s), sargs, start);
    hide Bind, Constants, IsSlice, Foreign, Consumed;
    forall j | j in start ensures j in local && local[j] == start[j] {
      var x := OriginOf(m, nc, s, j);
      InRangeOfSlice(m, nc, s, x);
      if s.operands[j].lifetime == SubgraphInput {
        assert j in s.inputIndexes;
        var p :| 0 <= p < |s.inputIndexes| && s.inputIndexes[p] == j;
        assert start[s.inputIndexes[p]] == sargs[p];
      }
    }
  }

  lemma OperationExplains(k: Kernels, fuel: nat, m: Model, nc: set<nat>, s: Slice, e: Env, local: Env, j: nat)
    requires IsSlice(m, nc, s) && j < |s.operations|
    requires forall i :: 0 <= i < |m.operations| ==> Explains(k, fuel, m.operations[i], e)
    requires forall x :: x in s.index ==> x in e && s.index[x] in local && local[s.index[x]] == e[x]
    ensures Explains(k, fuel, s.operations[j], local)
  {
    TranslationAt(m, nc, s, j);
    var op, op' := m.operations[s.origins[j]], s.operations[j];
    hide IsSlice, Compute;
    SameGet(s.index, e, local, op);
    ComputeIgnoresNumbers(k, fuel, op, op', Get(e, op.inputs));
  }

  lemma SameGet(f: map<nat, nat>, e: Env, local: Env, op: Operation)
    requires CoversOperation(f, op) && Knows(e, op.inputs) && Knows(e, op.outputs)
    requires forall x :: x in f ==> x in e && f[x] in local && local[f[x]] == e[x]
    ensures Knows(local, Renumbered(f, op.inputs)) && Knows(local, Renumbered(f, op.outputs))
    ensures Get(local, Renumbered(f, op.inputs)) == Get(e, op.inputs) && Get(local, Renumbered(f, op.outputs)) == Get(e, op.outputs)
  {
    forall xs | xs == op.inputs || xs == op.outputs
      ensures Knows(local, Renumbered(f, xs)) && Get(local, Renumbered(f, xs)) == Get(e, xs)
    {
      SameGetOf(f, e, local, xs);
    }
  }

  lemma SameGetOf(f: map<nat, nat>, e: Env, local: Env, xs: seq<nat>)
    requires (forall x :: x in xs ==> x in f) && Knows(e, xs)
    requires forall x :: x in f ==> x in e && f[x] in local && local[f[x]] == e[x]
    ensures Knows(local, Renumbered(f, xs)) && Get(local, Renumbered(f, xs)) == Get(e, xs)
  {
    var ys := Renumbered(f, xs);
    forall y | y in ys ensures y in local {
      var i :| 0 <= i < |ys| && ys[i] == y;
      assert xs[i] in xs;
    }
    forall i | 0 <= i < |xs| ensures Get(local, ys)[i] == Get(e, xs)[i] {
      assert xs[i] in xs;
    }
  }

  lemma SliceIsConsistent(k: Kernels, fuel: nat, m: Model, nc: set<nat>, s: Slice, start: Env, local: Env)
    requires start.Keys == KnownSet(AsModel(s)) && Extends(start, local)
    requires forall j: nat :: j in KnownSet(AsModel(s)) + OutputsOf(s.operations) <==> j < |s.operands|
    requires forall j: nat :: j in local <==> j < |s.operands|
    requires forall op :: op in s.operations ==> Explains(k, fuel, op, local)
    ensures Consistent(k, fuel, s.operations, start, local)
  {
    hide Explains, OutputsOf, KnownSet, Extends;
  }
}
