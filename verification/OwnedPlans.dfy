/** In every plan of the partitioner, operands that steps write are not operands that steps
    give the place of an input, and at the start they are where they can be written. */
module OwnedPlans {
  import opened Models
  import opened Scheduling
  import opened FlatPlans
  import opened Machine
  import opened Invariants
  import opened PartitionSteps
  import opened Passing
  import opened Branches
  import opened Loops
  import opened Runs
  import opened ControllerStarts
  import opened Ownership

  ghost predicate SoundKeys(step: LogicalStep, sources: seq<Model>) {
    && (forall k :: k in OutKeys(step) ==> IsWritten(sources, k))
    && (forall k :: k in InKeys(step) ==> HasLifetime(sources, k, SubgraphInput))
  }

  /** The inputs and outputs of a source model have these lifetimes. */
  lemma ListedKeys(sources: seq<Model>, site: Site)
    requires Sourced(sources, site)
    ensures forall k :: k in Keys(site.mi, site.m.inputIndexes) ==> HasLifetime(sources, k, SubgraphInput)
    ensures forall k :: k in Keys(site.mi, site.m.outputIndexes) ==> IsWritten(sources, k)
  {
    ValidIsShallow(site.m);
    hide Models.Valid, Schedules, AddedModels, Ordered;
  }

  lemma PartitionKeys(code: seq<LogicalStep>, sources: seq<Model>, site: Site, i: nat)
    requires Installed(code, site) && Sourced(sources, site) && i < |site.gs| && site.gs[i].Partition?
    ensures site.BaseAt(i) < |code| && SoundKeys(code[site.BaseAt(i)], sources)
  {
    hide Models.Valid, Schedules, Installed, Sourced, CodeSize, ModelCount, IsWritten, Keys, BoundaryReads, StepOutputs, StepInputs;
    StepIsInstalled(code, site, i);
    PartitionOuts(site, i);
    OutsAreSound(sources, site, StepOf(site, i).stepOutputs);
  }

  lemma BranchKeys(code: seq<LogicalStep>, sources: seq<Model>, site: Site, i: nat)
    requires Installed(code, site) && Sourced(sources, site) && IsBranch(site, i)
    ensures site.BaseAt(i) < |code| && SoundKeys(code[site.BaseAt(i)], sources)
  {
    hide Models.Valid, Schedules, Installed, Sourced, CodeSize, ModelCount, IsWritten, Keys, BoundaryReads, ShallowValid, OperationFits, Within;
    BranchLies(code, site, i, true);
    BranchLies(code, site, i, false);
    BranchSourced(sources, site, i, true);
    BranchSourced(sources, site, i, false);
    ListedKeys(sources, BranchSite(site, i, true));
    ListedKeys(sources, BranchSite(site, i, false));
    GroupInstalled(code, site, i);
    OperationOuts(site, i);
    OutsAreSound(sources, site, OperationAt(site, i).outputs);
  }

  lemma LoopKeys(code: seq<LogicalStep>, sources: seq<Model>, site: Site, i: nat)
    requires Installed(code, site) && Sourced(sources, site) && IsLoop(site, i)
    ensures site.BaseAt(i) < |code| && SoundKeys(code[site.BaseAt(i)], sources)
  {
    hide Models.Valid, Schedules, Installed, Sourced, CodeSize, ModelCount, IsWritten, BoundaryReads, ShallowValid, OperationFits, Within, Head, Keys,
         GroupFits, IsLoop, LoopFits, HasLifetime, CondSite, BodySite, OperationAt, CodeAt, EmitGroup;
    LoopLies(code, site, i);
    LoopSourced(sources, site, i);
    HeadTargets(site, i);
    var c := CondSite(site, i);
    ListedKeys(sources, c);
    ListedKeys(sources, BodySite(site, i));
    GroupInstalled(code, site, i);
    OperationOuts(site, i);
    OutsAreSound(sources, site, OperationAt(site, i).outputs);
    FirstKey(c.mi, c.m.outputIndexes);
  }

  lemma FirstKey(mi: nat, xs: seq<nat>)
    ensures xs != [] ==> (mi, xs[0]) in Keys(mi, xs)
  {
    if xs != [] { assert Keys(mi, xs)[0] == (mi, xs[0]); }
  }

  lemma {:induction false} SiteKeys(code: seq<LogicalStep>, sources: seq<Model>, site: Site, p: nat)
    requires Installed(code, site) && Sourced(sources, site)
    requires site.base <= p < site.End()
    ensures p < |code| && SoundKeys(code[p], sources)
    decreases site.gs, 1
  {
    hide Models.Valid, Schedules, Installed, Sourced, CodeSize, ModelCount, SoundKeys, Head, ShallowValid, OperationFits;
    var i := PositionInGroup(site.gs, site.base, p);
    GroupInstalled(code, site, i);
    match site.gs[i] {
      case Partition(_, _) =>
        PartitionKeys(code, sources, site, i);
        assert p == site.BaseAt(i);
      case Branch(_, _, _) =>
        BranchLies(code, site, i, true);
        BranchLies(code, site, i, false);
        BranchSourced(sources, site, i, true);
        BranchSourced(sources, site, i, false);
        var t, e := BranchSite(site, i, true), BranchSite(site, i, false);
        if p == site.BaseAt(i) {
          BranchKeys(code, sources, site, i);
        } else if p == t.End() {
          GotoHasNone(code[p], sources);
        } else if p < t.End() {
          SiteKeys(code, sources, t, p);
        } else {
          SiteKeys(code, sources, e, p);
        }
      case Loop(_, _, _) =>
        LoopLies(code, site, i);
        LoopSourced(sources, site, i);
        var c, b := CondSite(site, i), BodySite(site, i);
        if p == site.BaseAt(i) {
          LoopKeys(code, sources, site, i);
        } else if p == c.End() || p == b.End() {
          GotoHasNone(code[p], sources);
        } else if p < c.End() {
          SiteKeys(code, sources, c, p);
        } else {
          SiteKeys(code, sources, b, p);
        }
    }
  }

  lemma GotoHasNone(step: LogicalStep, sources: seq<Model>)
    requires step.GotoStep?
    ensures SoundKeys(step, sources)
  {
  }

  /** In a plan of the partitioner, what is written is given no place of an input. */
  lemma PlanIsSeparated(m: Model, gs: seq<Group>)
    requires Models.Valid(m) && Schedules(gs, m)
    ensures Separated(Plan(m, gs))
    ensures forall p :: 0 <= p < |Plan(m, gs)| ==> SoundKeys(Plan(m, gs)[p], [m] + AddedModels(m, gs))
  {
    var code, sources := Plan(m, gs), [m] + AddedModels(m, gs);
    hide Models.Valid, Schedules, Plan, AddedModels, OutKeys, InKeys, Installed, Sourced, WellFormed;
    var site := MainSite(m, gs, code, sources);
    forall p: nat | p < |code| ensures SoundKeys(code[p], sources) {
      InSite(site, p);
      SiteKeys(code, sources, site, p);
    }
  }

  lemma InSite(site: Site, p: nat)
    requires site.base == 0 && p < site.End()
    ensures site.base <= p < site.End()
  {
  }

  /** At the start, what is written is where it can be written. */
  lemma StartIsOwned(m: Model, gs: seq<Group>, args: seq<Bytes>)
    requires Models.Valid(m) && Schedules(gs, m) && |args| == |m.inputIndexes|
    ensures Owned(Plan(m, gs), Start(m, gs, args))
  {
    var code, sources := Plan(m, gs), [m] + AddedModels(m, gs);
    PlanIsSeparated(m, gs);
    ValidIsShallow(m);
    var ls := InitialLocations(code, sources, m);
    hide Models.Valid, Schedules, Plan, AddedModels, OutKeys, InKeys;
    forall p, k | 0 <= p < |code| && k in OutKeys(code[p]) && k in ls ensures Writable(ls[k]) {
      assert SoundKeys(code[p], sources);
      WrittenIsWritable(code, sources, m, k);
    }
  }

  lemma WrittenIsWritable(code: seq<LogicalStep>, sources: seq<Model>, m: Model, k: Key)
    requires ShallowValid(m) && |sources| > 0 && sources[0] == m && IsWritten(sources, k) && k in InitialLocations(code, sources, m)
    ensures Writable(InitialLocations(code, sources, m)[k])
  {
    hide HomeKeys, ConstantKeys, Ordered, OperationFits;
    var outs := Keys(0, m.outputIndexes);
    if k in outs {
      OutputIsMain(code, sources, m, k);
    } else {
      assert k !in Keys(0, m.inputIndexes);
      InitialLocation(code, sources, m, k);
      if k in ConstantKeys(code, sources) { ConstantKeysAreConstant(code, sources, k); }
    }
  }

  lemma OutputIsMain(code: seq<LogicalStep>, sources: seq<Model>, m: Model, k: Key)
    requires ShallowValid(m) && k in Keys(0, m.outputIndexes)
    ensures k in InitialLocations(code, sources, m) && InitialLocations(code, sources, m)[k].MainOutput?
  {
    hide HomeKeys, ConstantKeys, Ordered, OperationFits;
    var outs := Keys(0, m.outputIndexes);
    var j :| 0 <= j < |outs| && outs[j] == k;
    assert Distinct(outs);
    assert InitialLocations(code, sources, m)[outs[j]] == MainOutputs(|m.outputIndexes|)[j];
  }
}
