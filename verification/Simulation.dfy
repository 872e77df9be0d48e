/** Progress through the groups of one source model: what is true between two
    groups, and why one group leaves it true. */
module Simulation {
  import opened Options
  import opened Models
  import opened Semantics
  import opened Scheduling
  import opened FlatPlans
  import opened Machine
  import opened Invariants
  import opened Partitions

  /** Places that belong to the site: the slots of the source models added for it
      and those of its own operands, except for its outputs, whose place the
      referring operation chose. */
  ghost predicate Mine(site: Site, l: Location) {
    l.Slot? &&
    (site.next <= l.key.0 < site.Top() || (l.key.0 == site.mi && l.key.1 !in site.m.outputIndexes))
  }

  /** The inputs and outputs of the site are in places of the referring operation,
      and nothing that will be written is in the same place as anything else. */
  ghost predicate Placed(site: Site, s: State) {
    && (forall x :: x in site.m.inputIndexes ==>
          (site.mi, x) in s.locations && !Mine(site, s.locations[(site.mi, x)]))
    && (forall x :: x in site.m.outputIndexes ==>
          (site.mi, x) in s.locations && !Mine(site, s.locations[(site.mi, x)]) && Writable(s.locations[(site.mi, x)]))
    && (forall x, y :: x in site.m.outputIndexes && (y in site.m.outputIndexes || y in site.m.inputIndexes) && x != y ==>
          s.locations[(site.mi, x)] != s.locations[(site.mi, y)])
    && NothingOmitted(site.m, site.mi, s)
  }

  /** The operand has a place while the site runs. */
  ghost predicate Shared(site: Site, x: nat) {
    && x < |site.m.operands|
    && (site.m.operands[x].lifetime == SubgraphInput || site.m.operands[x].lifetime == SubgraphOutput
        || (IsTemp(site.m, x) && x in site.Boundary()))
  }

  ghost predicate Holds(site: Site, s: State, x: nat, v: Bytes) {
    && Read(s, (site.mi, x)) == Some(v)
    && (IsTemp(site.m, x) ==> AtHome((site.mi, x), s))
  }

  ghost predicate Faithful(site: Site, s: State, env: Env) {
    forall x :: x in env && Shared(site, x) ==> Holds(site, s, x, env[x])
  }

  ghost predicate Remaining(site: Site, i: nat, env: Env)
    requires i <= |site.gs|
  {
    && InRange(Order(site.gs[i..]), |site.m.operations|)
    && Ordered(Pick(site.m, Order(site.gs[i..])), env.Keys)
    && (forall x :: x in env ==> x < |site.m.operands|)
    && (forall x :: 0 <= x < |site.m.operands| ==> x in env || x in OutputsOf(Pick(site.m, Order(site.gs[i..]))))
  }

  /** The interpreter is about to run group i, where the values so far are `env`. */
  ghost predicate Ready(site: Site, i: nat, s: State, env: Env) {
    && i <= |site.gs|
    && s.pc == site.BaseAt(i)
    && Rest(site.m, site.gs, site.mi, site.base, site.next, s)
    && Placed(site, s)
    && Extends(Constants(site.m), env)
    && Remaining(site, i, env)
    && Faithful(site, s, env)
  }

  /** The places of the operands that a group writes. */
  ghost function WrittenBy(site: Site, i: nat, s: State): set<Location>
    requires i < |site.gs|
  {
    set x | x in HousedBy(site.m, site.Boundary(), site.gs[i]) && (site.mi, x) in s.locations :: s.locations[(site.mi, x)]
  }

  ghost predicate GroupChanges(site: Site, i: nat, s: State, s': State)
    requires i < |site.gs|
  {
    Changes(site.NextAt(i), site.NextAt(i) + GroupModels(site.gs[i]),
            site.BaseAt(i), site.BaseAt(i) + GroupSize(site.gs[i]), WrittenBy(site, i, s), s, s')
  }

  /** Group i has run and produced what `env'` adds to `env`. */
  ghost predicate GroupDone(site: Site, i: nat, s: State, s': State, env: Env, env': Env) {
    && i < |site.gs|
    && InRange(OpsOf(site.gs[i]), |site.m.operations|)
    && s'.pc == site.BaseAt(i) + GroupSize(site.gs[i])
    && GroupChanges(site, i, s, s')
    && RestGroup(site.m, site.Boundary(), site.gs[i], site.mi, site.BaseAt(i), site.NextAt(i), s')
    && env'.Keys == env.Keys + OutputsOf(Pick(site.m, OpsOf(site.gs[i])))
    && Extends(env, env')
    && forall x :: x in HousedBy(site.m, site.Boundary(), site.gs[i]) && x in env' ==> Read(s', (site.mi, x)) == Some(env'[x])
  }

  lemma OrderSplits(site: Site, i: nat)
    requires i < |site.gs|
    requires InRange(Order(site.gs[i..]), |site.m.operations|)
    ensures InRange(OpsOf(site.gs[i]), |site.m.operations|)
    ensures InRange(Order(site.gs[i + 1..]), |site.m.operations|)
    ensures Pick(site.m, Order(site.gs[i..])) == Pick(site.m, OpsOf(site.gs[i])) + Pick(site.m, Order(site.gs[i + 1..]))
  {
    assert site.gs[i..][0] == site.gs[i] && site.gs[i..][1..] == site.gs[i + 1..];
    forall x | x in OpsOf(site.gs[i]) || x in Order(site.gs[i + 1..]) ensures x < |site.m.operations| {
      assert x in Order(site.gs[i..]);
    }
  }

  /** What is shared and what is written by the next group are in different places. */
  lemma PlacesDiffer(site: Site, i: nat, s: State, x: nat, y: nat)
    requires site.Valid()
    requires i < |site.gs|
    requires Placed(site, s)
    requires Housed(site.m, site.Boundary(), site.gs[i], site.mi, s)
    requires Shared(site, x) && (site.mi, x) in s.locations && (IsTemp(site.m, x) ==> AtHome((site.mi, x), s))
    requires y < |site.m.operands| && !KnownInitially(site.m.operands[y].lifetime)
    requires y in HousedBy(site.m, site.Boundary(), site.gs[i]) && (site.mi, y) in s.locations
    requires x != y
    ensures s.locations[(site.mi, x)] != s.locations[(site.mi, y)]
  {
    assert ShallowValid(site.m);
    if IsTemp(site.m, y) {
      assert AtHome((site.mi, y), s);
      assert y !in site.m.outputIndexes;
    } else {
      assert y in site.m.outputIndexes;
    }
  }

  lemma SharedIsOutside(site: Site, i: nat, s: State, x: nat)
    requires site.Valid() && i < |site.gs|
    requires Placed(site, s)
    requires Shared(site, x) && (site.mi, x) in s.locations && (IsTemp(site.m, x) ==> AtHome((site.mi, x), s))
    ensures var l := s.locations[(site.mi, x)];
            !(l.Slot? && site.NextAt(i) <= l.key.0 < site.NextAt(i) + GroupModels(site.gs[i]))
  {
    assert ShallowValid(site.m);
    SizesSplit(site.gs, i);
  }

  /** The outputs of the operations of a group have a lifetime of something written. */
  lemma OutputsAreWritten(m: Model, order: seq<nat>)
    requires ShallowValid(m) && InRange(order, |m.operations|)
    ensures forall x :: x in OutputsOf(Pick(m, order)) ==> x < |m.operands| && !KnownInitially(m.operands[x].lifetime)
  {
    var ops := Pick(m, order);
    OutputsOfMembers(ops);
    forall x | x in OutputsOf(ops) ensures x < |m.operands| && !KnownInitially(m.operands[x].lifetime) {
      var j :| 0 <= j < |ops| && x in ops[j].outputs;
      assert OperationFits(m.operations[order[j]], m.operands);
    }
  }

  lemma HousedAreOutputs(site: Site, i: nat, known: set<nat>)
    requires site.Valid() && i < |site.gs|
    requires InRange(OpsOf(site.gs[i]), |site.m.operations|)
    requires Ordered(Pick(site.m, OpsOf(site.gs[i])), known)
    ensures forall x :: x in HousedBy(site.m, site.Boundary(), site.gs[i]) ==> x in OutputsOf(Pick(site.m, OpsOf(site.gs[i])))
    ensures forall x :: x in OutputsOf(Pick(site.m, OpsOf(site.gs[i]))) && Shared(site, x) ==>
              x in HousedBy(site.m, site.Boundary(), site.gs[i])
  {
    var g := site.gs[i];
    var ops := Pick(site.m, OpsOf(g));
    assert GroupFits(g, site.m);
    assert ShallowValid(site.m);
    OutputsAreWritten(site.m, OpsOf(g));
    if g.Partition? {
      StepOutputsAreDistinct(site.m, ops, site.Boundary(), known);
    } else {
      assert ops == [site.m.operations[g.op]];
      assert OutputsOf(ops[1..]) == {};
    }
  }

  lemma RemainingAfter(site: Site, i: nat, s: State, s': State, env: Env, env': Env)
    requires site.Valid()
    requires Ready(site, i, s, env)
    requires GroupDone(site, i, s, s', env, env')
    ensures Ordered(Pick(site.m, OpsOf(site.gs[i])), env.Keys)
    ensures Remaining(site, i + 1, env')
  {
    hide Rest, RestGroup, GroupFits, Models.Valid, IsPermutation, HousedBy, OpsOf, GroupChanges, Placed, Faithful;
    OrderSplits(site, i);
    var ops := Pick(site.m, OpsOf(site.gs[i]));
    var rest := Pick(site.m, Order(site.gs[i + 1..]));
    OrderedConcatenation(ops, rest, env.Keys);
    OutputsOfConcatenation(ops, rest);
    ValidIsShallow(site.m);
    OutputsAreWritten(site.m, OpsOf(site.gs[i]));
  }

  /** Running a group leaves the interpreter ready for the next one. */
  lemma {:induction false} GroupLeavesReady(site: Site, i: nat, s: State, s': State, env: Env, env': Env)
    requires site.Valid()
    requires Ready(site, i, s, env)
    requires GroupDone(site, i, s, s', env, env')
    ensures Ready(site, i + 1, s', env')
  {
    hide Rest, RestGroup, GroupFits, Models.Valid, IsPermutation, HousedBy, OpsOf, GroupChanges, Placed, Ordered, Shared, Holds, Remaining;
    SizesSplit(site.gs, i);
    RemainingAfter(site, i, s, s', env, env');
    OwnLocationsStay(site, i, s, s');
    OthersStayAtRest(site, i, s, s', env);
    HousedAreOutputs(site, i, env.Keys);
    assert RestGroup(site.m, site.Boundary(), site.gs[i], site.mi, site.BaseAt(i), site.NextAt(i), s) by {
      RestHasGroup(site, i, s);
    }
    forall x | x in env' && Shared(site, x) ensures Holds(site, s', x, env'[x]) {
      if x in env {
        assert Holds(site, s, x, env[x]);
        OldValueStays(site, i, s, s', env, x);
      } else {
        assert x in HousedBy(site.m, site.Boundary(), site.gs[i]);
        assert Holds(site, s', x, env'[x]) by {
          NewValueHolds(site, i, s', x, env'[x]);
        }
      }
    }
  }

  lemma NewValueHolds(site: Site, i: nat, s: State, x: nat, v: Bytes)
    requires i < |site.gs|
    requires RestGroup(site.m, site.Boundary(), site.gs[i], site.mi, site.BaseAt(i), site.NextAt(i), s)
    requires x in HousedBy(site.m, site.Boundary(), site.gs[i])
    requires Read(s, (site.mi, x)) == Some(v)
    ensures Holds(site, s, x, v)
  {
  }

  lemma RestHasGroup(site: Site, i: nat, s: State)
    requires i < |site.gs|
    requires Rest(site.m, site.gs, site.mi, site.base, site.next, s)
    ensures RestGroup(site.m, site.Boundary(), site.gs[i], site.mi, site.BaseAt(i), site.NextAt(i), s)
  {
    hide RestGroup, BoundaryReads, CodeSize, ModelCount;
  }

  lemma OwnKeysStay(site: Site, i: nat, s: State, s': State)
    requires site.Valid() && i < |site.gs|
    requires GroupChanges(site, i, s, s')
    ensures forall x: nat :: SameAt(s.locations, s'.locations, (site.mi, x))
  {
    SizesSplit(site.gs, i);
    forall x: nat ensures SameAt(s.locations, s'.locations, (site.mi, x)) {
    }
  }

  lemma OwnLocationsStay(site: Site, i: nat, s: State, s': State)
    requires site.Valid() && i < |site.gs|
    requires GroupChanges(site, i, s, s')
    ensures forall x: nat :: SameAt(s.locations, s'.locations, (site.mi, x))
    ensures Placed(site, s) ==> Placed(site, s')
  {
    hide GroupChanges, Models.Valid, Schedules, SameAt, Placed;
    OwnKeysStay(site, i, s, s');
    PlacedStays(site, s, s');
  }

  lemma PlacedStays(site: Site, s: State, s': State)
    requires forall x: nat :: SameAt(s.locations, s'.locations, (site.mi, x))
    ensures Placed(site, s) ==> Placed(site, s')
  {
    if Placed(site, s) {
      assert forall x :: x in site.m.inputIndexes || x in site.m.outputIndexes ==> SameAt(s.locations, s'.locations, (site.mi, x));
    }
  }

  lemma OldValueStays(site: Site, i: nat, s: State, s': State, env: Env, x: nat)
    requires site.Valid() && i < |site.gs|
    requires Placed(site, s)
    requires RestGroup(site.m, site.Boundary(), site.gs[i], site.mi, site.BaseAt(i), site.NextAt(i), s)
    requires InRange(OpsOf(site.gs[i]), |site.m.operations|)
    requires Ordered(Pick(site.m, OpsOf(site.gs[i])), env.Keys)
    requires GroupChanges(site, i, s, s')
    requires x in env && Shared(site, x) && Holds(site, s, x, env[x])
    ensures Holds(site, s', x, env[x])
  {
    hide GroupFits, Models.Valid, IsPermutation, BoundaryReads, HousedBy, OpsOf, Rest;
    assert ShallowValid(site.m) by { ValidIsShallow(site.m); }
    SizesSplit(site.gs, i);
    OwnLocationsStay(site, i, s, s');
    assert SameAt(s.locations, s'.locations, (site.mi, x));
    HousedAreOutputs(site, i, env.Keys);
    OutputsAreWritten(site.m, OpsOf(site.gs[i]));
    OutputsAreNew(Pick(site.m, OpsOf(site.gs[i])), env.Keys);
    var l := s.locations[(site.mi, x)];
    SharedIsOutside(site, i, s, x);
    assert l !in WrittenBy(site, i, s) by {
      if l in WrittenBy(site, i, s) {
        var y :| y in HousedBy(site.m, site.Boundary(), site.gs[i]) && (site.mi, y) in s.locations && s.locations[(site.mi, y)] == l;
        PlacesDiffer(site, i, s, x, y);
      }
    }
    assert SameAt(s.store, s'.store, l);
  }

  lemma OutputsAreNew(ops: seq<Operation>, known: set<nat>)
    requires Ordered(ops, known)
    ensures forall x :: x in OutputsOf(ops) ==> x !in known
  {
    WrittenAreDistinct(ops, known);
    WrittenAreOutputs(ops);
  }

  lemma {:induction false} OthersStayAtRest(site: Site, i: nat, s: State, s': State, env: Env)
    requires site.Valid() && i < |site.gs|
    requires Rest(site.m, site.gs, site.mi, site.base, site.next, s)
    requires Placed(site, s)
    requires InRange(OpsOf(site.gs[i]), |site.m.operations|)
    requires Ordered(Pick(site.m, OpsOf(site.gs[i])), env.Keys)
    requires GroupChanges(site, i, s, s')
    requires RestGroup(site.m, site.Boundary(), site.gs[i], site.mi, site.BaseAt(i), site.NextAt(i), s')
    ensures Rest(site.m, site.gs, site.mi, site.base, site.next, s')
  {
    hide RestGroup, GroupFits, Models.Valid, IsPermutation, BoundaryReads, HousedBy, OpsOf, Ordered, Placed;
    OwnLocationsStay(site, i, s, s');
    WritesSpareConstants(site, i, s, env);
    forall j | 0 <= j < |site.gs|
      ensures RestGroup(site.m, site.Boundary(), site.gs[j], site.mi, site.BaseAt(j), site.NextAt(j), s')
    {
      if j != i {
        if j < i { SizesOrdered(site.gs, j, i); } else { SizesOrdered(site.gs, i, j); }
        assert GroupFits(site.gs[j], site.m);
        forall l: Location | l.Constant? ensures SameAt(s.store, s'.store, l) {
          assert l !in WrittenBy(site, i, s);
        }
        RestGroupIsKept(site.m, site.Boundary(), site.gs[j], site.mi, site.BaseAt(j), site.NextAt(j), s, s');
      }
    }
  }

  lemma WritesSpareConstants(site: Site, i: nat, s: State, env: Env)
    requires site.Valid() && i < |site.gs|
    requires Rest(site.m, site.gs, site.mi, site.base, site.next, s)
    requires Placed(site, s)
    requires InRange(OpsOf(site.gs[i]), |site.m.operations|)
    requires Ordered(Pick(site.m, OpsOf(site.gs[i])), env.Keys)
    ensures forall l :: l in WrittenBy(site, i, s) ==> !l.Constant?
  {
    hide GroupFits, Models.Valid, IsPermutation, BoundaryReads, HousedBy, OpsOf, Ordered;
    assert ShallowValid(site.m) by { ValidIsShallow(site.m); }
    HousedAreOutputs(site, i, env.Keys);
    OutputsAreWritten(site.m, OpsOf(site.gs[i]));
    assert RestGroup(site.m, site.Boundary(), site.gs[i], site.mi, site.BaseAt(i), site.NextAt(i), s);
    forall l | l in WrittenBy(site, i, s) ensures !l.Constant? {
      var y :| y in HousedBy(site.m, site.Boundary(), site.gs[i]) && (site.mi, y) in s.locations && s.locations[(site.mi, y)] == l;
      if IsTemp(site.m, y) {
        assert AtHome((site.mi, y), s);
      } else {
        assert y in site.m.outputIndexes;
      }
    }
  }
}
