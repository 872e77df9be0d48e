/** One execution step of the interpreter against one partition of the schedule. */
module PartitionSteps {
  import opened Options
  import opened Models
  import opened Semantics
  import opened Scheduling
  import opened FlatPlans
  import opened Machine
  import opened Invariants
  import opened Partitions
  import opened Simulation

  ghost predicate Installed(code: seq<LogicalStep>, site: Site)
    ensures Installed(code, site) ==> site.Valid()
  {
    site.Valid() && CodeAt(code, site.base, Emit(site.m, site.gs, site.mi, site.base, site.next))
  }

  lemma GroupInstalled(code: seq<LogicalStep>, site: Site, i: nat)
    requires Installed(code, site) && i < |site.gs|
    ensures GroupFits(site.gs[i], site.m)
    ensures CodeAt(code, site.BaseAt(i),
                   EmitGroup(site.m, site.Boundary(), site.gs[i], site.mi, site.BaseAt(i), site.NextAt(i)))
  {
    hide EmitGroup, EmitGroups, GroupFits, Models.Valid, Ordered, IsPermutation, BoundaryReads;
    GroupCodeAt(code, site.m, site.Boundary(), site.gs, site.mi, site.base, site.next, i);
  }

  /** The next group's operations are in order after the operands known so far. */
  lemma NextIsOrdered(site: Site, i: nat, s: State, env: Env)
    requires site.Valid() && i < |site.gs| && Ready(site, i, s, env)
    ensures InRange(OpsOf(site.gs[i]), |site.m.operations|)
    ensures Ordered(Pick(site.m, OpsOf(site.gs[i])), env.Keys)
    ensures ShallowValid(site.m)
    ensures Housed(site.m, site.Boundary(), site.gs[i], site.mi, s)
  {
    hide Rest, RestGroup, GroupFits, Models.Valid, IsPermutation, HousedBy, OpsOf, Placed, Faithful;
    OrderSplits(site, i);
    OrderedConcatenation(Pick(site.m, OpsOf(site.gs[i])), Pick(site.m, Order(site.gs[i + 1..])), env.Keys);
    ValidIsShallow(site.m);
    RestHasGroup(site, i, s);
    HousedByGroup(site, i, s);
  }

  lemma HousedByGroup(site: Site, i: nat, s: State)
    requires i < |site.gs|
    requires RestGroup(site.m, site.Boundary(), site.gs[i], site.mi, site.BaseAt(i), site.NextAt(i), s)
    ensures Housed(site.m, site.Boundary(), site.gs[i], site.mi, s)
  {
  }

  /** Everything that a step reads has a place and the right value there. */
  lemma InputsAreReadable(site: Site, i: nat, s: State, env: Env)
    requires site.Valid() && i < |site.gs| && Ready(site, i, s, env)
    requires site.gs[i].Partition? && InRange(site.gs[i].ops, |site.m.operations|)
    requires Ordered(Pick(site.m, site.gs[i].ops), env.Keys)
    ensures var ins := StepInputs(site.m, Pick(site.m, site.gs[i].ops));
            && Knows(env, ins)
            && Readable(s, Keys(site.mi, ins))
            && ReadAll(s, Keys(site.mi, ins)) == Get(env, ins)
  {
    hide Rest, GroupFits, Models.Valid, IsPermutation, Placed, Remaining, StepInputs;
    var ops := Pick(site.m, site.gs[i].ops);
    var ins := StepInputs(site.m, ops);
    StepInputsAreDistinct(site.m, ops);
    ExternalsAreKnown(ops, {}, env.Keys);
    BoundaryHas(site.m, site.gs, i);
    assert forall x :: x in site.gs[i].ops ==> x < |site.m.operations|;
    forall x | x in ins ensures x in env && Read(s, (site.mi, x)) == Some(env[x]) {
      assert x in GroupReads(site.m, site.gs[i]);
      assert Shared(site, x);
    }
    var ks := Keys(site.mi, ins);
    forall key | key in ks ensures key in s.locations && s.locations[key] in s.store {
      assert Read(s, (site.mi, key.1)) == Some(env[key.1]);
    }
    forall j | 0 <= j < |ins| ensures ReadAll(s, ks)[j] == Get(env, ins)[j] {
      assert ins[j] in ins && Read(s, (site.mi, ins[j])) == Some(env[ins[j]]);
    }
  }

  /** Every operand that a step writes has a place to be written to. */
  lemma OutputsAreWritable(site: Site, i: nat, s: State, env: Env)
    requires site.Valid() && i < |site.gs|
    requires Placed(site, s)
    requires InRange(OpsOf(site.gs[i]), |site.m.operations|)
    requires Ordered(Pick(site.m, OpsOf(site.gs[i])), env.Keys)
    requires Housed(site.m, site.Boundary(), site.gs[i], site.mi, s)
    ensures forall x :: x in HousedBy(site.m, site.Boundary(), site.gs[i]) ==>
              (site.mi, x) in s.locations && Writable(s.locations[(site.mi, x)])
  {
    hide GroupFits, Models.Valid, IsPermutation, HousedBy, BoundaryReads;
    ValidIsShallow(site.m);
    HousedAreOutputs(site, i, env.Keys);
    OutputsAreWritten(site.m, OpsOf(site.gs[i]));
    forall x | x in HousedBy(site.m, site.Boundary(), site.gs[i])
      ensures (site.mi, x) in s.locations && Writable(s.locations[(site.mi, x)])
    {
      if IsTemp(site.m, x) {
        assert AtHome((site.mi, x), s);
      } else {
        assert x in site.m.outputIndexes;
      }
    }
  }

  /** What an execution step does when its boundary is in place. */
  lemma ExecuteDoes(k: Kernels, code: seq<LogicalStep>, s: State, step: LogicalStep)
    requires step.ExecutionStep? && s.pc < |code| && code[s.pc] == step
    requires Readable(s, Keys(step.sourceModelIndex, step.stepInputs))
    requires AllWritable(s.locations, Keys(step.sourceModelIndex, step.stepOutputs))
    ensures var vals := ReadAll(s, Keys(step.sourceModelIndex, step.stepInputs));
            match RunOperations(k, 0, step.operations, Bind(Constants(step.model), step.stepInputs, vals))
            case Done(env) =>
              Knows(env, step.stepOutputs) ==> MicroStep(k, code, s) == To(AfterStep(s, step, env))
            case Failed => MicroStep(k, code, s) == Crashed
            case OutOfFuel => MicroStep(k, code, s) == Crashed
  {
    hide Bind, Constants, RunOperations, Keys, Locate;
  }

  ghost function AfterStep(s: State, step: LogicalStep, env: Env): State
    requires step.ExecutionStep? && Knows(env, step.stepOutputs)
    requires AllWritable(s.locations, Keys(step.sourceModelIndex, step.stepOutputs))
  {
    s.(pc := s.pc + 1,
       store := Bind(s.store, Locate(s.locations, Keys(step.sourceModelIndex, step.stepOutputs)), Get(env, step.stepOutputs)))
  }

  ghost function StepOf(site: Site, i: nat): LogicalStep
    requires i < |site.gs| && InRange(OpsOf(site.gs[i]), |site.m.operations|)
  {
    var ops := Pick(site.m, OpsOf(site.gs[i]));
    ExecutionStep(site.mi, site.m, ops, StepInputs(site.m, ops), StepOutputs(site.m, ops, site.Boundary()))
  }

  lemma StepIsInstalled(code: seq<LogicalStep>, site: Site, i: nat)
    requires Installed(code, site) && i < |site.gs| && site.gs[i].Partition?
    ensures InRange(OpsOf(site.gs[i]), |site.m.operations|)
    ensures site.BaseAt(i) < |code| && code[site.BaseAt(i)] == StepOf(site, i)
    ensures OnDevices(Pick(site.m, OpsOf(site.gs[i])))
    ensures HousedBy(site.m, site.Boundary(), site.gs[i]) == AsSet(StepOf(site, i).stepOutputs)
  {
    hide StepInputs, StepOutputs, BoundaryReads, Emit, EmitGroups, Models.Valid, Schedules, Passes;
    GroupInstalled(code, site, i);
    var step := StepOf(site, i);
    assert EmitGroup(site.m, site.Boundary(), site.gs[i], site.mi, site.BaseAt(i), site.NextAt(i)) == [step];
    assert code[site.BaseAt(i)..site.BaseAt(i) + 1][0] == step;
    assert forall x :: x in site.gs[i].ops ==> x < |site.m.operations|;
  }

  /** Running the step model on its own agrees with running the operations in place. */
  lemma LocalRun(k: Kernels, fuel: nat, site: Site, i: nat, s: State, env: Env)
    requires site.Valid() && i < |site.gs| && site.gs[i].Partition?
    requires Ready(site, i, s, env)
    requires InRange(OpsOf(site.gs[i]), |site.m.operations|)
    requires OnDevices(Pick(site.m, OpsOf(site.gs[i])))
    ensures var step := StepOf(site, i);
            && Readable(s, Keys(site.mi, step.stepInputs))
            && var local := RunOperations(k, 0, step.operations,
                                          Bind(Constants(site.m), step.stepInputs, ReadAll(s, Keys(site.mi, step.stepInputs))));
            match RunGroup(k, fuel, site.m, site.gs[i], env)
            case Done(env') =>
              && local.Done? && Extends(local.value, env') && Extends(env, env')
              && env'.Keys == env.Keys + OutputsOf(step.operations)
              && forall x :: x in OutputsOf(step.operations) ==> x in local.value
            case Failed => local == Failed
            case OutOfFuel => false
  {
    hide Rest, Models.Valid, IsPermutation, Placed, StepInputs, StepOutputs, Faithful, Ordered, BoundaryReads, Bind, RunOperations, Schedules, Passes;
    NextIsOrdered(site, i, s, env);
    KeysInRange(site, i, s, env);
    InputsAreReadable(site, i, s, env);
    var step := StepOf(site, i);
    var vals := ReadAll(s, Keys(site.mi, step.stepInputs));
    assert Extends(Constants(site.m), env);
    LocalEnvironment(site.m, step.operations, env, vals);
    RunFromPart(k, 0, fuel, step.operations, Bind(Constants(site.m), step.stepInputs, vals), env);
    assert forall x :: x in site.gs[i].ops ==> x < |site.m.operations|;
  }

  lemma {:induction false} PartitionRuns(k: Kernels, fuel: nat, code: seq<LogicalStep>, site: Site, i: nat, s: State, env: Env)
    returns (s': State)
    requires Installed(code, site) && i < |site.gs| && site.gs[i].Partition?
    requires Ready(site, i, s, env)
    ensures match RunGroup(k, fuel, site.m, site.gs[i], env)
            case Done(env') => MicroStep(k, code, s) == To(s') && GroupDone(site, i, s, s', env, env')
            case Failed => MicroStep(k, code, s) == Crashed
            case OutOfFuel => false
  {
    hide Rest, RestGroup, Models.Valid, Placed, Remaining, StepInputs, StepOutputs, Faithful, Ordered, BoundaryReads, Emit, MicroStep, RunGroup, RunOperations, Bind, GroupChanges, HousedBy, Schedules, Passes, GroupFits, OutputsOf;
    StepIsInstalled(code, site, i);
    NextIsOrdered(site, i, s, env);
    LocalRun(k, fuel, site, i, s, env);
    OutputsAreWritable(site, i, s, env);
    var step := StepOf(site, i);
    var outs := step.stepOutputs;
    StepOutputsAreDistinct(site.m, step.operations, site.Boundary(), env.Keys);
    ExecuteDoes(k, code, s, step);
    s' := s;
    var r := RunGroup(k, fuel, site.m, site.gs[i], env);
    if r.Done? {
      var vals := ReadAll(s, Keys(site.mi, step.stepInputs));
      var local := RunOperations(k, 0, step.operations, Bind(Constants(site.m), step.stepInputs, vals)).value;
      s' := AfterStep(s, step, local);
      StepEffect(site, i, s, s', env, outs, Get(local, outs));
      forall x | x in HousedBy(site.m, site.Boundary(), site.gs[i]) && x in r.value
        ensures Read(s', (site.mi, x)) == Some(r.value[x])
      {
        var j :| 0 <= j < |outs| && outs[j] == x;
        assert Read(s', Keys(site.mi, outs)[j]) == Some(Get(local, outs)[j]);
        assert Get(local, outs)[j] == local[x] == r.value[x];
      }
      RestAfterStep(site, i, s, s', env);
    }
  }

  lemma KeysInRange(site: Site, i: nat, s: State, env: Env)
    requires i <= |site.gs| && Ready(site, i, s, env)
    ensures Remaining(site, i, env) && forall x :: x in env ==> x < |site.m.operands|
  {
  }

  /** Writing values for operands of the group puts them in their places and changes
      nothing else. */
  lemma StepEffect(site: Site, i: nat, s: State, s': State, env: Env, outs: seq<nat>, vals: seq<Bytes>)
    requires site.Valid() && i < |site.gs| && Placed(site, s)
    requires InRange(OpsOf(site.gs[i]), |site.m.operations|)
    requires Ordered(Pick(site.m, OpsOf(site.gs[i])), env.Keys)
    requires Housed(site.m, site.Boundary(), site.gs[i], site.mi, s)
    requires Distinct(outs) && |vals| == |outs|
    requires forall x :: x in outs ==> x in HousedBy(site.m, site.Boundary(), site.gs[i]) && (site.mi, x) in s.locations
    requires s'.locations == s.locations && s'.locations2 == s.locations2 && s'.loops == s.loops
    requires s'.store == Bind(s.store, Locate(s.locations, Keys(site.mi, outs)), vals)
    ensures GroupChanges(site, i, s, s')
    ensures forall j :: 0 <= j < |outs| ==> Read(s', Keys(site.mi, outs)[j]) == Some(vals[j])
  {
    hide *;
    var keys := Keys(site.mi, outs);
    PlacesAreWritten(site, i, s, outs);
    PlacesAreDistinct(site, i, s, env, outs);
    WriteEffect(site, i, s, s', keys, vals);
  }

  lemma PlacesAreWritten(site: Site, i: nat, s: State, outs: seq<nat>)
    requires i < |site.gs|
    requires forall x :: x in outs ==> x in HousedBy(site.m, site.Boundary(), site.gs[i]) && (site.mi, x) in s.locations
    ensures forall key :: key in Keys(site.mi, outs) ==> key in s.locations
    ensures forall l :: l in Locate(s.locations, Keys(site.mi, outs)) ==> l in WrittenBy(site, i, s)
  {
    hide HousedBy, BoundaryReads, WrittenBy, Keys, Locate;
    var keys := Keys(site.mi, outs);
    forall key | key in keys ensures key in s.locations {
      assert key == (site.mi, key.1) && key.1 in outs;
    }
    forall l | l in Locate(s.locations, keys) ensures l in WrittenBy(site, i, s) {
      var j :| 0 <= j < |keys| && Locate(s.locations, keys)[j] == l;
      assert outs[j] in outs;
      WrittenByHas(site, i, s, outs[j]);
    }
  }

  lemma PlacesAreDistinct(site: Site, i: nat, s: State, env: Env, outs: seq<nat>)
    requires site.Valid() && i < |site.gs| && Placed(site, s)
    requires InRange(OpsOf(site.gs[i]), |site.m.operations|)
    requires Ordered(Pick(site.m, OpsOf(site.gs[i])), env.Keys)
    requires Housed(site.m, site.Boundary(), site.gs[i], site.mi, s)
    requires Distinct(outs)
    requires forall x :: x in outs ==> x in HousedBy(site.m, site.Boundary(), site.gs[i]) && (site.mi, x) in s.locations
    ensures Distinct(Locate(s.locations, Keys(site.mi, outs)))
  {
    hide Models.Valid, Schedules, Passes, ShallowValid, Placed, Housed, HousedBy, BoundaryReads, Ordered, OpsOf, Pick, InRange;
    ValidIsShallow(site.m);
    HousedAreOutputs(site, i, env.Keys);
    OutputsAreWritten(site.m, OpsOf(site.gs[i]));
    forall a, b | 0 <= a < b < |outs|
      ensures Locate(s.locations, Keys(site.mi, outs))[a] != Locate(s.locations, Keys(site.mi, outs))[b]
    {
      assert outs[a] in outs && outs[b] in outs;
      WrittenPlacesDiffer(site, i, s, outs[a], outs[b]);
    }
  }

  lemma WrittenByHas(site: Site, i: nat, s: State, x: nat)
    requires i < |site.gs|
    requires x in HousedBy(site.m, site.Boundary(), site.gs[i]) && (site.mi, x) in s.locations
    ensures s.locations[(site.mi, x)] in WrittenBy(site, i, s)
  {
    hide HousedBy, BoundaryReads;
  }

  lemma WriteEffect(site: Site, i: nat, s: State, s': State, keys: seq<Key>, vals: seq<Bytes>)
    requires i < |site.gs|
    requires |vals| == |keys|
    requires forall key :: key in keys ==> key in s.locations
    requires Distinct(Locate(s.locations, keys))
    requires forall l :: l in Locate(s.locations, keys) ==> l in WrittenBy(site, i, s)
    requires s'.locations == s.locations && s'.locations2 == s.locations2 && s'.loops == s.loops
    requires s'.store == Bind(s.store, Locate(s.locations, keys), vals)
    ensures GroupChanges(site, i, s, s')
    ensures forall j :: 0 <= j < |keys| ==> Read(s', keys[j]) == Some(vals[j])
  {
    hide Bind, Locate, WrittenBy, CodeSize, ModelCount, GroupModels, GroupSize;
    var ls := Locate(s.locations, keys);
    forall l: Location | l !in WrittenBy(site, i, s) ensures SameAt(s.store, s'.store, l) {
      assert l !in ls;
    }
    forall j | 0 <= j < |keys| ensures Read(s', keys[j]) == Some(vals[j]) {
      assert s'.store[ls[j]] == vals[j];
    }
  }

  lemma WrittenPlacesDiffer(site: Site, i: nat, s: State, x: nat, y: nat)
    requires ShallowValid(site.m) && i < |site.gs| && Placed(site, s)
    requires Housed(site.m, site.Boundary(), site.gs[i], site.mi, s)
    requires x in HousedBy(site.m, site.Boundary(), site.gs[i]) && (site.mi, x) in s.locations
    requires y in HousedBy(site.m, site.Boundary(), site.gs[i]) && (site.mi, y) in s.locations
    requires x < |site.m.operands| && !KnownInitially(site.m.operands[x].lifetime)
    requires y < |site.m.operands| && !KnownInitially(site.m.operands[y].lifetime)
    requires x != y
    ensures s.locations[(site.mi, x)] != s.locations[(site.mi, y)]
  {
    hide HousedBy, BoundaryReads;
    if IsTemp(site.m, x) { assert AtHome((site.mi, x), s); } else { assert x in site.m.outputIndexes; }
    if IsTemp(site.m, y) { assert AtHome((site.mi, y), s); } else { assert y in site.m.outputIndexes; }
  }

  lemma RestAfterStep(site: Site, i: nat, s: State, s': State, env: Env)
    requires site.Valid() && i < |site.gs| && site.gs[i].Partition?
    requires Ready(site, i, s, env)
    requires s'.locations == s.locations
    ensures RestGroup(site.m, site.Boundary(), site.gs[i], site.mi, site.BaseAt(i), site.NextAt(i), s')
  {
    hide GroupFits, Models.Valid, IsPermutation, Placed, Remaining, BoundaryReads, Faithful, HousedBy;
    RestHasGroup(site, i, s);
  }
}
