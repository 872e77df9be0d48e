/** The controller that a plan starts with: no check fails while it is made, and it
    stands for the initial state of the machine. */
module ControllerStarts {
  import opened Options
  import opened Arithmetic
  import opened Models
  import opened Semantics
  import opened Scheduling
  import opened FlatPlans
  import opened Machine
  import opened Invariants
  import opened Partitions
  import opened PartitionSteps
  import opened Passing
  import opened Branches
  import opened Loops
  import opened Runs
  import opened Homes
  import opened Layouts
  import opened Places
  import opened Progress
  import opened Controllers

  /** The operands that a step lists as written. */
  function OutsOf(step: LogicalStep): seq<Key> {
    match step
    case ExecutionStep(mi, _, _, _, outs) => Keys(mi, outs)
    case IfStep(_, _, _, _, outs, _, _, _, _) => outs
    case WhileStep(_, _, _, _, outs, _, _, _, _) => outs
    case GotoStep(_) => []
  }

  predicate IsWritten(sources: seq<Model>, k: Key) {
    HasLifetime(sources, k, TemporaryVariable) || HasLifetime(sources, k, SubgraphOutput)
  }

  ghost predicate SoundOuts(step: LogicalStep, sources: seq<Model>) {
    && Distinct(OutsOf(step))
    && (forall k :: k in OutsOf(step) ==> IsWritten(sources, k))
    && (step.WhileStep? ==> step.condOutput !in step.bodyOutputs)
  }

  lemma OutsAreSound(sources: seq<Model>, site: Site, outs: seq<nat>)
    requires Sourced(sources, site) && Distinct(outs)
    requires forall x :: x in outs ==> x < |site.m.operands| && !KnownInitially(site.m.operands[x].lifetime)
    ensures Distinct(Keys(site.mi, outs))
    ensures forall k :: k in Keys(site.mi, outs) ==> IsWritten(sources, k)
  {
    hide AddedModels, Schedules, Models.Valid;
  }

  lemma OperationOuts(site: Site, i: nat)
    requires site.Valid() && i < |site.gs| && GroupFits(site.gs[i], site.m) && !site.gs[i].Partition?
    ensures Distinct(OperationAt(site, i).outputs)
    ensures forall x :: x in OperationAt(site, i).outputs ==> x < |site.m.operands| && !KnownInitially(site.m.operands[x].lifetime)
  {
    hide Models.Valid, Schedules, KnownAt;
    GroupsInRange(site);
    GroupIsOrdered(site, i);
    var op := OperationAt(site, i);
    assert Pick(site.m, OpsOf(site.gs[i])) == [op];
    ValidFits(site.m, site.gs[i].op);
  }

  lemma PartitionOuts(site: Site, i: nat)
    requires site.Valid() && i < |site.gs| && site.gs[i].Partition?
    requires InRange(OpsOf(site.gs[i]), |site.m.operations|)
    ensures var outs := StepOf(site, i).stepOutputs;
            Distinct(outs) && forall x :: x in outs ==> x < |site.m.operands| && !KnownInitially(site.m.operands[x].lifetime)
  {
    hide Models.Valid, Schedules, KnownAt, StepInputs, StepOutputs, BoundaryReads, Ordered;
    GroupsInRange(site);
    GroupIsOrdered(site, i);
    StepOutputsAreDistinct(site.m, Pick(site.m, OpsOf(site.gs[i])), site.Boundary(), KnownAt(site, i));
  }

  lemma HeadOuts(code: seq<LogicalStep>, sources: seq<Model>, site: Site, i: nat)
    requires Installed(code, site) && Sourced(sources, site) && i < |site.gs|
    ensures site.BaseAt(i) < |code| && SoundOuts(code[site.BaseAt(i)], sources)
  {
    hide Models.Valid, Schedules, Installed, Sourced, Distinct, CodeSize, ModelCount, IsWritten, Keys, Head, Within, ShallowValid, OperationFits, BoundaryReads;
    GroupInstalled(code, site, i);
    match site.gs[i] {
      case Partition(_, _) =>
        StepIsInstalled(code, site, i);
        PartitionOuts(site, i);
        OutsAreSound(sources, site, StepOf(site, i).stepOutputs);
      case Branch(_, _, _) =>
        BranchLies(code, site, i, true);
        OperationOuts(site, i);
        OutsAreSound(sources, site, OperationAt(site, i).outputs);
      case Loop(_, _, _) =>
        LoopLies(code, site, i);
        HeadTargets(site, i);
        OperationOuts(site, i);
        OutsAreSound(sources, site, OperationAt(site, i).outputs);
        LoopPlaces(site, i);
    }
  }

  lemma {:induction false} SiteOuts(code: seq<LogicalStep>, sources: seq<Model>, site: Site, p: nat)
    requires Installed(code, site) && Sourced(sources, site)
    requires site.base <= p < site.End()
    ensures p < |code| && SoundOuts(code[p], sources)
    decreases site.gs, 1
  {
    hide Models.Valid, Schedules, Installed, Sourced, CodeSize, ModelCount, SoundOuts, Head, ShallowValid, OperationFits;
    var i := PositionInGroup(site.gs, site.base, p);
    GroupInstalled(code, site, i);
    HeadOuts(code, sources, site, i);
    if p > site.BaseAt(i) {
      match site.gs[i] {
        case Partition(_, _) => assert false;
        case Branch(_, _, _) =>
          BranchLies(code, site, i, true);
          BranchLies(code, site, i, false);
          BranchSourced(sources, site, i, true);
          BranchSourced(sources, site, i, false);
          var t, e := BranchSite(site, i, true), BranchSite(site, i, false);
          if p == t.End() {
            GotoIsSound(code[p], sources);
          } else if p < t.End() {
            SiteOuts(code, sources, t, p);
          } else {
            SiteOuts(code, sources, e, p);
          }
        case Loop(_, _, _) =>
          LoopLies(code, site, i);
          LoopSourced(sources, site, i);
          var c, b := CondSite(site, i), BodySite(site, i);
          if p == c.End() || p == b.End() {
            GotoIsSound(code[p], sources);
          } else if p < c.End() {
            SiteOuts(code, sources, c, p);
          } else {
            SiteOuts(code, sources, b, p);
          }
      }
    }
  }

  lemma GotoIsSound(step: LogicalStep, sources: seq<Model>)
    requires step.GotoStep?
    ensures SoundOuts(step, sources)
  {
  }

  // ----- what is laid out -----

  lemma StepIsLaid(step: LogicalStep, sources: seq<Model>)
    requires SoundOuts(step, sources)
    ensures LaidFor(step, sources) == HomesFor(step, sources)
    ensures step.WhileStep? ==> Mapped(sources, step.bodyOutputs, LoopOutput) == SecondsFor(step) && SecondsFor(step) <= HomesFor(step, sources)
  {
    hide Distinct;
    forall k | k in OutsOf(step) ensures IsSkipped(sources, k, Boundary) <==> !HasLifetime(sources, k, TemporaryVariable) {
      assert IsWritten(sources, k);
    }
  }

  lemma {:induction false} LaidByHas(code: seq<LogicalStep>, sources: seq<Model>)
    requires forall p :: 0 <= p < |code| ==> SoundOuts(code[p], sources)
    ensures LaidBy(code, sources) == HomeKeys(code, sources)
    ensures LaidTwiceBy(code, sources) == SecondKeys(code)
    ensures SecondKeys(code) <= HomeKeys(code, sources)
  {
    hide HomesFor, SecondsFor, LaidFor, Mapped, SoundOuts;
    if code == [] {
      assert HomeKeys(code, sources) == {} && SecondKeys(code) == {};
    } else {
      var init, last := code[..|code| - 1], code[|code| - 1];
      assert forall p :: 0 <= p < |init| ==> init[p] == code[p];
      LaidByHas(init, sources);
      StepIsLaid(last, sources);
      if !last.WhileStep? { SecondsOfOthers(last); }
      HomeKeysAppend(init, last, sources);
      assert code == init + [last];
    }
  }

  lemma SecondsOfOthers(step: LogicalStep)
    requires !step.WhileStep?
    ensures SecondsFor(step) == {}
  {
  }

  lemma HomeKeysAppend(init: seq<LogicalStep>, last: LogicalStep, sources: seq<Model>)
    ensures HomeKeys(init + [last], sources) == HomeKeys(init, sources) + HomesFor(last, sources)
    ensures SecondKeys(init + [last]) == SecondKeys(init) + SecondsFor(last)
  {
    hide HomesFor, SecondsFor;
    var code := init + [last];
    assert forall p :: 0 <= p < |init| ==> code[p] == init[p];
    assert code[|init|] == last;
    forall k | k in HomesFor(last, sources) ensures k in HomeKeys(code, sources) {
      assert k in HomesFor(code[|init|], sources);
    }
    forall k | k in SecondsFor(last) ensures k in SecondKeys(code) {
      assert k in SecondsFor(code[|init|]);
    }
    forall k | k in HomeKeys(init, sources) ensures k in HomeKeys(code, sources) {
      var p :| 0 <= p < |init| && k in HomesFor(init[p], sources);
      assert k in HomesFor(code[p], sources);
    }
    forall k | k in SecondKeys(init) ensures k in SecondKeys(code) {
      var p :| 0 <= p < |init| && k in SecondsFor(init[p]);
      assert k in SecondsFor(code[p]);
    }
  }

  ghost predicate AllSized(code: seq<LogicalStep>, sources: seq<Model>, sizes: Key -> nat) {
    forall k :: k in HomeKeys(code, sources) ==> sizes(k) > 0
  }

  /** When step p is laid out, none of its operands has been. */
  lemma NothingTaken(code: seq<LogicalStep>, sources: seq<Model>, site: Site, p: nat, k: Key)
    requires Installed(code, site) && Sourced(sources, site) && site.base == 0 && p < |code| == site.End()
    requires k in HomesFor(code[p], sources)
    ensures k !in LaidBy(code[..p], sources) && k !in LaidTwiceBy(code[..p], sources)
    ensures k in HomeKeys(code, sources)
  {
    hide HomesFor, SecondsFor, LaidFor, Installed, Sourced, LaidBy, LaidTwiceBy, SoundOuts, CodeSize;
    var prefix := code[..p];
    forall q | 0 <= q < |prefix| ensures SoundOuts(prefix[q], sources) {
      SiteOuts(code, sources, site, q);
    }
    LaidByHas(prefix, sources);
    if k in HomeKeys(prefix, sources) {
      var q :| 0 <= q < |prefix| && k in HomesFor(prefix[q], sources);
      SiteOnce(code, sources, site, q, p, k);
    }
  }

  lemma StepOfPlanFits(code: seq<LogicalStep>, sources: seq<Model>, site: Site, sizes: Key -> nat, p: nat)
    requires Installed(code, site) && Sourced(sources, site) && site.base == 0 && p < |code| == site.End()
    requires AllSized(code, sources, sizes)
    requires SoundOuts(code[p], sources) && InnerOutputs(code[p], sources)
    ensures StepFits(code[p], sources, sizes, LaidBy(code[..p], sources), LaidTwiceBy(code[..p], sources))
  {
    hide Installed, Sourced, LaidBy, LaidTwiceBy, CodeSize, Distinct, HomeKeys;
    var step := code[p];
    forall k | k in HomesFor(step, sources)
      ensures k !in LaidBy(code[..p], sources) && k !in LaidTwiceBy(code[..p], sources) && sizes(k) > 0
    {
      NothingTaken(code, sources, site, p, k);
    }
    forall k | k in OutsOf(step) ensures IsSkipped(sources, k, Boundary) || (k in HomesFor(step, sources) && HasLifetime(sources, k, TemporaryVariable)) {
      assert IsWritten(sources, k);
    }
  }

  /** While the layout for a plan is made, every operand has the right lifetime and none
      is laid out twice. */
  lemma PlanIsFitting(code: seq<LogicalStep>, sources: seq<Model>, site: Site, sizes: Key -> nat)
    requires Installed(code, site) && Sourced(sources, site) && site.base == 0 && |code| == site.End()
    requires AllSized(code, sources, sizes)
    ensures PlanFits(code, sources, sizes)
    ensures LaidBy(code, sources) == HomeKeys(code, sources) && LaidTwiceBy(code, sources) == SecondKeys(code)
  {
    hide Installed, Sourced, LaidBy, LaidTwiceBy, CodeSize, StepFits, SoundOuts, InnerOutputs, AllSized;
    forall p | 0 <= p < |code| ensures SoundOuts(code[p], sources)
      && StepFits(code[p], sources, sizes, LaidBy(code[..p], sources), LaidTwiceBy(code[..p], sources))
    {
      SiteOuts(code, sources, site, p);
      SiteHasInnerOutputs(code, sources, site, p);
      StepOfPlanFits(code, sources, site, sizes, p);
    }
    LaidByHas(code, sources);
  }

  // ----- the controller -----

  ghost function LayoutOf(regions: map<Location, Region>, total: nat): Layout
    requires LaidOut(regions, total)
  {
    OffsetsDiffer(regions, total);
    map l | l in regions :: regions[l].offset := l
  }

  lemma OffsetsDiffer(regions: map<Location, Region>, total: nat)
    requires LaidOut(regions, total)
    ensures forall l, l' :: l in regions && l' in regions && l != l' ==> regions[l].offset != regions[l'].offset
  {
    forall l, l' | l in regions && l' in regions && l != l' ensures regions[l].offset != regions[l'].offset {
      assert Apart(regions[l], regions[l']);
    }
  }

  // Index of each operand of a list.
  method IndexOperands(ks: seq<Key>) returns (r: map<Key, nat>)
    requires Distinct(ks)
    ensures r.Keys == AsSet(ks)
    ensures forall j :: 0 <= j < |ks| ==> ks[j] in r && r[ks[j]] == j
  {
    r := map[];
    for i := 0 to |ks|
      invariant r.Keys == AsSet(ks[..i])
      invariant forall j :: 0 <= j < i ==> ks[j] in r && r[ks[j]] == j
    {
      assert ks[..i + 1] == ks[..i] + [ks[i]];
      r := r[ks[i] := i];
    }
    assert ks[..|ks|] == ks;
  }

  /** The constants that control flow passes on, by where their bytes are. */
  ghost predicate SplitsConstants(code: seq<LogicalStep>, sources: seq<Model>, copies: seq<Key>, references: seq<Key>) {
    && Distinct(copies) && Distinct(references)
    && (forall k :: k in copies ==> HasLifetime(sources, k, ConstantCopy))
    && (forall k :: k in references ==> HasLifetime(sources, k, ConstantReference))
    && (forall k :: k in ConstantKeys(code, sources) <==> k in copies || k in references)
  }

  /** The maps as they are when a run starts. */
  ghost predicate StartMaps(code: seq<LogicalStep>, sources: seq<Model>, m: Model, layout: Layout, maps: Maps, copies: seq<Key>, references: seq<Key>) {
    && maps.offsets.Keys == HomeKeys(code, sources) + AsSet(copies)
    && (forall k :: k in maps.offsets ==>
          && maps.offsets[k] in layout
          && layout[maps.offsets[k]] == if k in copies then Location.Constant(k) else Slot(k, false))
    && maps.references.Keys == AsSet(references) && (forall k :: k in references ==> maps.references[k] == k)
    && (forall k :: k in references ==> Location.Constant(k) !in layout.Values)
    && Indexes(maps.inputs, Keys(0, m.inputIndexes))
    && Indexes(maps.outputs, Keys(0, m.outputIndexes))
  }

  ghost predicate Indexes(r: map<Key, nat>, ks: seq<Key>) {
    r.Keys == AsSet(ks) && forall j :: 0 <= j < |ks| ==> ks[j] in r && r[ks[j]] == j
  }

  lemma HomesAreApart(code: seq<LogicalStep>, sources: seq<Model>, m: Model, k: Key)
    requires WellFormed(code, sources, m) && k in HomeKeys(code, sources)
    ensures k !in Keys(0, m.inputIndexes) && k !in Keys(0, m.outputIndexes) && !IsConstantKey(sources, k)
  {
    hide Keys, WellFormed, HomesFor;
    var p: nat :| p < |code| && k in HomesFor(code[p], sources);
    HomesAreNotGiven(code, sources, m, p, k);
  }

  lemma ConstantsAreApart(code: seq<LogicalStep>, sources: seq<Model>, m: Model, copies: seq<Key>, references: seq<Key>)
    requires WellFormed(code, sources, m) && SplitsConstants(code, sources, copies, references)
    ensures forall k :: k in copies || k in references ==> k !in Keys(0, m.inputIndexes) && k !in Keys(0, m.outputIndexes) && k !in HomeKeys(code, sources)
    ensures forall k :: k in copies ==> k !in references
  {
    hide Keys, Distinct, ConstantKeys, WellFormed, HomeKeys;
    SourcesAreWellFormed(code, sources, m);
    forall k | k in copies || k in references
      ensures k !in Keys(0, m.inputIndexes) && k !in Keys(0, m.outputIndexes) && k !in HomeKeys(code, sources)
    {
      ConstantsAreNotGiven(sources, m, k);
      if k in HomeKeys(code, sources) { HomesAreApart(code, sources, m, k); }
    }
  }

  lemma GivenAreApart(code: seq<LogicalStep>, sources: seq<Model>, m: Model)
    requires WellFormed(code, sources, m)
    ensures forall k :: k in Keys(0, m.inputIndexes) || k in Keys(0, m.outputIndexes) ==> k !in HomeKeys(code, sources)
    ensures forall k :: k in Keys(0, m.inputIndexes) ==> k !in Keys(0, m.outputIndexes)
  {
    hide Distinct, WellFormed, HomeKeys;
    SourcesAreWellFormed(code, sources, m);
    DistinctInputs(m);
    hide Keys;
    forall k | k in HomeKeys(code, sources) ensures k !in Keys(0, m.inputIndexes) && k !in Keys(0, m.outputIndexes) {
      HomesAreApart(code, sources, m, k);
    }
  }

  lemma StartMapsAreDisjoint(code: seq<LogicalStep>, sources: seq<Model>, m: Model, layout: Layout, maps: Maps, copies: seq<Key>, references: seq<Key>)
    requires WellFormed(code, sources, m) && SplitsConstants(code, sources, copies, references)
    requires StartMaps(code, sources, m, layout, maps, copies, references)
    ensures maps.Disjoint() && maps.Fits(layout)
  {
    hide Keys, Distinct, WellFormed, HomeKeys, SplitsConstants;
    ConstantsAreApart(code, sources, m, copies, references);
    GivenAreApart(code, sources, m);
    assert maps.Fits(layout);
    hide Maps.Disjoint, Maps.Fits;
    ApartIsDisjoint(maps, HomeKeys(code, sources), AsSet(copies), AsSet(references), AsSet(Keys(0, m.inputIndexes)), AsSet(Keys(0, m.outputIndexes)));
  }

  lemma ApartIsDisjoint(maps: Maps, homes: set<Key>, copies: set<Key>, references: set<Key>, ins: set<Key>, outs: set<Key>)
    requires maps.offsets.Keys == homes + copies && maps.references.Keys == references && maps.inputs.Keys == ins && maps.outputs.Keys == outs
    requires homes !! references && copies !! references && ins !! outs
    requires homes + copies !! ins + outs && references !! ins + outs
    ensures maps.Disjoint()
  {
  }

  /** The maps stand for the initial locations of the machine. */
  lemma StartMapsAgree(code: seq<LogicalStep>, sources: seq<Model>, m: Model, layout: Layout, maps: Maps, copies: seq<Key>, references: seq<Key>)
    requires WellFormed(code, sources, m) && SplitsConstants(code, sources, copies, references)
    requires StartMaps(code, sources, m, layout, maps, copies, references)
    requires maps.Disjoint() && maps.Fits(layout)
    ensures maps.Locations(layout) == InitialLocations(code, sources, m)
  {
    hide Keys, ConstantKeys, HomeKeys, WellFormed, InitialLocations, Maps.Locations, Maps.Disjoint, Maps.Fits, Maps.Find, Maps.Domain, SplitsConstants, StartMaps;
    var a, b := maps.Locations(layout), InitialLocations(code, sources, m);
    SourcesAreWellFormed(code, sources, m);
    InitialDomain(code, sources, m);
    forall k | k in a || k in b ensures k in a && k in b && a[k] == b[k] {
      StartLocationAgrees(code, sources, m, layout, maps, copies, references, k);
    }
  }

  lemma InitialDomain(code: seq<LogicalStep>, sources: seq<Model>, m: Model)
    ensures forall k :: k in InitialLocations(code, sources, m) <==>
              || k in HomeKeys(code, sources) || k in ConstantKeys(code, sources)
              || k in Keys(0, m.inputIndexes) || k in Keys(0, m.outputIndexes)
  {
    hide Keys, ConstantKeys, HomeKeys;
  }

  lemma StartIsFound(code: seq<LogicalStep>, sources: seq<Model>, m: Model, layout: Layout, maps: Maps, copies: seq<Key>, references: seq<Key>, k: Key)
    requires StartMaps(code, sources, m, layout, maps, copies, references) && maps.Disjoint() && maps.Fits(layout)
    requires k !in Keys(0, m.inputIndexes) && k !in Keys(0, m.outputIndexes)
    ensures k in maps.Locations(layout) <==> k in HomeKeys(code, sources) || k in copies || k in references
    ensures k in maps.Locations(layout) ==> maps.Locations(layout)[k] == if k in copies || k in references then Location.Constant(k) else Slot(k, false)
  {
    hide Keys, HomeKeys, Maps.Disjoint, Maps.Find, Maps.Domain, Maps.Fits;
    FindsIn(maps, k);
  }

  lemma StartLocationAgrees(code: seq<LogicalStep>, sources: seq<Model>, m: Model, layout: Layout, maps: Maps, copies: seq<Key>, references: seq<Key>, k: Key)
    requires WellFormed(code, sources, m) && SplitsConstants(code, sources, copies, references)
    requires StartMaps(code, sources, m, layout, maps, copies, references)
    requires maps.Disjoint() && maps.Fits(layout)
    requires k in maps.Locations(layout) || k in InitialLocations(code, sources, m)
    ensures k in maps.Locations(layout) && k in InitialLocations(code, sources, m)
    ensures maps.Locations(layout)[k] == InitialLocations(code, sources, m)[k]
  {
    hide Keys, ConstantKeys, HomeKeys, WellFormed, InitialLocations, Distinct, HasLifetime, SplitsConstants;
    SourcesAreWellFormed(code, sources, m);
    InitialDomain(code, sources, m);
    assert forall x :: x in ConstantKeys(code, sources) <==> x in copies || x in references by { ConstantsAreSplit(code, sources, copies, references); }
    if k in Keys(0, m.inputIndexes) || k in Keys(0, m.outputIndexes) {
      GivenAgrees(code, sources, m, layout, maps, k);
    } else {
      StartIsFound(code, sources, m, layout, maps, copies, references, k);
      hide Maps.Disjoint, Maps.Find, Maps.Domain, Maps.Fits;
      InitialLocation(code, sources, m, k);
    }
  }

  lemma ConstantsAreSplit(code: seq<LogicalStep>, sources: seq<Model>, copies: seq<Key>, references: seq<Key>)
    requires SplitsConstants(code, sources, copies, references)
    ensures forall x :: x in ConstantKeys(code, sources) <==> x in copies || x in references
  {
    hide ConstantKeys;
  }

  lemma GivenAgrees(code: seq<LogicalStep>, sources: seq<Model>, m: Model, layout: Layout, maps: Maps, k: Key)
    requires ShallowValid(m) && maps.Disjoint() && maps.Fits(layout)
    requires Indexes(maps.inputs, Keys(0, m.inputIndexes)) && Indexes(maps.outputs, Keys(0, m.outputIndexes))
    requires k in Keys(0, m.inputIndexes) || k in Keys(0, m.outputIndexes)
    ensures k in maps.Locations(layout) && k in InitialLocations(code, sources, m)
    ensures maps.Locations(layout)[k] == InitialLocations(code, sources, m)[k]
  {
    hide Keys, InitialLocations, Distinct, ShallowValid, Maps.Disjoint, Maps.Fits, Maps.Find, Maps.Domain;
    InitialGiven(code, sources, m);
    FindsIn(maps, k);
    if k in Keys(0, m.inputIndexes) {
      var j :| 0 <= j < |m.inputIndexes| && Keys(0, m.inputIndexes)[j] == k;
      assert maps.Find(k) == Some(Argument(j));
    } else {
      var j :| 0 <= j < |m.outputIndexes| && Keys(0, m.outputIndexes)[j] == k;
      assert maps.Find(k) == Some(Result(j));
    }
  }

  lemma InitialGiven(code: seq<LogicalStep>, sources: seq<Model>, m: Model)
    requires ShallowValid(m)
    ensures var ls, ins, outs := InitialLocations(code, sources, m), Keys(0, m.inputIndexes), Keys(0, m.outputIndexes);
            && (forall j :: 0 <= j < |ins| ==> ins[j] in ls && ls[ins[j]] == MainInput(j))
            && (forall j :: 0 <= j < |outs| ==> outs[j] in ls && ls[outs[j]] == MainOutput(j))
  {
    hide HomeKeys, ConstantKeys, Keys, Ordered, OperationFits, InitialLocations;
    var args := seq(|m.inputIndexes|, i => []);
    InitialBoundary(code, sources, m, args);
  }

  function ConstantValue(sources: seq<Model>, k: Key): Bytes {
    if IsConstantKey(sources, k) then sources[k.0].operands[k.1].value else []
  }

  // What the caller and the memories of the models provide.
  function Provided(sources: seq<Model>, references: seq<Key>, args: seq<Bytes>): map<Place, Bytes> {
    (map j | 0 <= j < |args| :: Argument(j) := args[j]) +
    (map k | k in references :: Reference(k) := ConstantValue(sources, k))
  }

  /** The contents at the start: what is provided and copies of constants. */
  ghost predicate StartMemory(sources: seq<Model>, offsets: map<Key, nat>, memory: map<Place, Bytes>, copies: seq<Key>, provided: map<Place, Bytes>) {
    && (forall k :: k in copies ==> k in offsets && Temporary(offsets[k]) in memory && memory[Temporary(offsets[k])] == ConstantValue(sources, k))
    && (forall p :: p in provided && !p.Temporary? ==> p in memory && memory[p] == provided[p])
    && (forall p :: p in memory ==> if p.Temporary? then exists k :: k in copies && k in offsets && offsets[k] == p.offset else p in provided)
  }

  // Copies the constants into their temporaries.
  method CopyConstants(sources: seq<Model>, offsets: map<Key, nat>, copies: seq<Key>, provided: map<Place, Bytes>) returns (memory: map<Place, Bytes>)
    requires forall k :: k in copies ==> k in offsets
    requires forall p :: p in provided ==> !p.Temporary?
    ensures OffsetsAreDistinct(offsets, copies) ==> StartMemory(sources, offsets, memory, copies, provided)
  {
    hide ConstantValue;
    memory := provided;
    assert StartMemory(sources, offsets, memory, copies[..0], provided);
    hide StartMemory;
    for i := 0 to |copies|
      invariant OffsetsAreDistinct(offsets, copies) ==> StartMemory(sources, offsets, memory, copies[..i], provided)
    {
      assert copies[i] in copies;
      if OffsetsAreDistinct(offsets, copies) { CopyOneMore(sources, offsets, memory, copies, provided, i); }
      memory := memory[Temporary(offsets[copies[i]]) := ConstantValue(sources, copies[i])];
    }
    assert copies[..|copies|] == copies;
  }

  ghost predicate OffsetsAreDistinct(offsets: map<Key, nat>, ks: seq<Key>)
    requires forall k :: k in ks ==> k in offsets
  {
    forall k, k' :: k in ks && k' in ks && k != k' ==> offsets[k] != offsets[k']
  }

  lemma CopyOneMore(sources: seq<Model>, offsets: map<Key, nat>, memory: map<Place, Bytes>, copies: seq<Key>, provided: map<Place, Bytes>, i: nat)
    requires i < |copies|
    requires forall k :: k in copies ==> k in offsets
    requires OffsetsAreDistinct(offsets, copies)
    requires StartMemory(sources, offsets, memory, copies[..i], provided)
    ensures StartMemory(sources, offsets, memory[Temporary(offsets[copies[i]]) := ConstantValue(sources, copies[i])], copies[..i + 1], provided)
    ensures copies[i] in copies
  {
    hide ConstantValue;
    assert copies[..i + 1] == copies[..i] + [copies[i]];
    var p := Temporary(offsets[copies[i]]);
    var memory' := memory[p := ConstantValue(sources, copies[i])];
    forall k | k in copies[..i + 1]
      ensures k in offsets && Temporary(offsets[k]) in memory' && memory'[Temporary(offsets[k])] == ConstantValue(sources, k)
    {
      assert k in copies;
    }
    forall q | q in memory' && q.Temporary? ensures exists k :: k in copies[..i + 1] && k in offsets && offsets[k] == q.offset {
      if q == p {
        assert copies[i] in copies[..i + 1];
      } else {
        var k :| k in copies[..i] && k in offsets && offsets[k] == q.offset;
        assert k in copies[..i + 1];
      }
    }
  }

  lemma StartMemoryIsHoldable(code: seq<LogicalStep>, sources: seq<Model>, m: Model, layout: Layout, maps: Maps, memory: map<Place, Bytes>,
                              copies: seq<Key>, references: seq<Key>, args: seq<Bytes>)
    requires IsLayout(layout)
    requires StartMaps(code, sources, m, layout, maps, copies, references)
    requires StartMemory(sources, maps.offsets, memory, copies, Provided(sources, references, args))
    ensures Holdable(layout, memory)
  {
    hide ConstantValue, HomeKeys, Keys, Indexes, IsLayout;
  }

  /** Every location of the initial store is in memory. */
  lemma InitialIsInMemory(code: seq<LogicalStep>, sources: seq<Model>, m: Model, layout: Layout, maps: Maps, memory: map<Place, Bytes>,
                          copies: seq<Key>, references: seq<Key>, args: seq<Bytes>, l: Location)
    requires Holdable(layout, memory) && SplitsConstants(code, sources, copies, references)
    requires StartMaps(code, sources, m, layout, maps, copies, references)
    requires StartMemory(sources, maps.offsets, memory, copies, Provided(sources, references, args))
    requires l in InitialStore(code, sources, args)
    ensures l in StoreOf(layout, memory) && StoreOf(layout, memory)[l] == InitialStore(code, sources, args)[l]
  {
    hide ConstantValue, InitialStore, HomeKeys, ConstantKeys, Keys, Distinct, HasLifetime, StoreOf, Holdable, SplitsConstants, Indexes, Provided;
    InitialStoreAt(code, sources, args, l);
    ConstantsAreSplit(code, sources, copies, references);
    if l.MainInput? {
      ProvidedAt(sources, references, args, Argument(l.index));
      StoreHas(layout, memory, Argument(l.index));
    } else if l.key in copies {
      StoreHas(layout, memory, Temporary(maps.offsets[l.key]));
    } else {
      ProvidedAt(sources, references, args, Reference(l.key));
      StoreHas(layout, memory, Reference(l.key));
    }
  }

  lemma ProvidedAt(sources: seq<Model>, references: seq<Key>, args: seq<Bytes>, p: Place)
    ensures p in Provided(sources, references, args) <==> (p.Argument? && p.index < |args|) || (p.Reference? && p.key in references)
    ensures p in Provided(sources, references, args) ==>
              Provided(sources, references, args)[p] == if p.Argument? then args[p.index] else ConstantValue(sources, p.key)
  {
    hide ConstantValue;
  }

  lemma InitialStoreAt(code: seq<LogicalStep>, sources: seq<Model>, args: seq<Bytes>, l: Location)
    ensures var b := InitialStore(code, sources, args);
            && (l in b <==> (l.Constant? && l.key in ConstantKeys(code, sources)) || (l.MainInput? && l.index < |args|))
            && (l in b ==> b[l] == if l.Constant? then ConstantValue(sources, l.key) else args[l.index])
  {
    hide ConstantValue, InitialStore, ConstantKeys;
    InitialStoreHas(code, sources, args);
  }

  lemma MemoryIsInitial(code: seq<LogicalStep>, sources: seq<Model>, m: Model, layout: Layout, maps: Maps, memory: map<Place, Bytes>,
                        copies: seq<Key>, references: seq<Key>, args: seq<Bytes>, l: Location)
    requires Holdable(layout, memory) && SplitsConstants(code, sources, copies, references)
    requires StartMaps(code, sources, m, layout, maps, copies, references)
    requires StartMemory(sources, maps.offsets, memory, copies, Provided(sources, references, args))
    requires l in StoreOf(layout, memory)
    ensures l in InitialStore(code, sources, args)
  {
    hide ConstantValue, InitialStore, HomeKeys, ConstantKeys, Keys, Distinct, HasLifetime, StoreOf, Holdable, SplitsConstants, Indexes, Provided;
    InitialStoreAt(code, sources, args, l);
    ConstantsAreSplit(code, sources, copies, references);
    StoreIsFrom(layout, memory, l);
    var p :| p in memory && Proper(layout, p) && Where(layout, p) == l;
    if p.Temporary? {
      var k :| k in copies && k in maps.offsets && maps.offsets[k] == p.offset;
    } else {
      ProvidedAt(sources, references, args, p);
    }
  }

  /** The contents stand for the initial store of the machine. */
  lemma StartMemoryAgrees(code: seq<LogicalStep>, sources: seq<Model>, m: Model, layout: Layout, maps: Maps, memory: map<Place, Bytes>,
                          copies: seq<Key>, references: seq<Key>, args: seq<Bytes>)
    requires IsLayout(layout) && SplitsConstants(code, sources, copies, references)
    requires StartMaps(code, sources, m, layout, maps, copies, references)
    requires StartMemory(sources, maps.offsets, memory, copies, Provided(sources, references, args))
    ensures Holdable(layout, memory)
    ensures StoreOf(layout, memory) == InitialStore(code, sources, args)
  {
    hide InitialStore, StoreOf, Holdable, SplitsConstants, StartMaps, StartMemory, Provided, IsLayout;
    StartMemoryIsHoldable(code, sources, m, layout, maps, memory, copies, references, args);
    var a, b := StoreOf(layout, memory), InitialStore(code, sources, args);
    forall l | l in b ensures l in a && a[l] == b[l] {
      InitialIsInMemory(code, sources, m, layout, maps, memory, copies, references, args, l);
    }
    forall l | l in a ensures l in b {
      MemoryIsInitial(code, sources, m, layout, maps, memory, copies, references, args, l);
    }
    assert a == b;
  }

  lemma InitialStoreHas(code: seq<LogicalStep>, sources: seq<Model>, args: seq<Bytes>)
    ensures var b := InitialStore(code, sources, args);
            && (forall k :: k in ConstantKeys(code, sources) ==> Location.Constant(k) in b && b[Location.Constant(k)] == ConstantValue(sources, k))
            && (forall j: nat :: j < |args| ==> MainInput(j) in b && b[MainInput(j)] == args[j])
            && (forall l :: l in b ==> (l.Constant? && l.key in ConstantKeys(code, sources)) || (l.MainInput? && l.index < |args|))
  {
    hide ConstantKeys, Bind;
    var ins := MainInputs(|args|);
    assert Distinct(ins);
    forall j: nat | j < |args| ensures MainInput(j) in ins && ins[j] == MainInput(j) {
      assert ins[j] in ins;
    }
    forall k | k in ConstantKeys(code, sources) ensures Location.Constant(k) !in ins {
    }
  }

  lemma MainSite(m: Model, gs: seq<Group>, code: seq<LogicalStep>, sources: seq<Model>) returns (site: Site)
    requires Models.Valid(m) && Schedules(gs, m)
    requires code == Plan(m, gs) && sources == [m] + AddedModels(m, gs)
    ensures site == Site(m, gs, 0, 0, 1)
    ensures Installed(code, site) && Sourced(sources, site) && |code| == site.End()
    ensures WellFormed(code, sources, m)
    ensures InstalledPlan(code, m, gs)
    ensures forall p :: 0 <= p < |code| && code[p].WhileStep? ==> Distinct(code[p].bodyOutputs)
  {
    hide Models.Valid, Emit, AddedModels, IsPermutation, Ordered, GroupFits;
    site := Site(m, gs, 0, 0, 1);
    assert code[0..|code|] == code;
    assert sources[1..|sources|] == AddedModels(m, gs);
    ValidIsShallow(m);
    forall p: nat | p < |code| ensures InnerOutputs(code[p], sources) {
      SiteHasInnerOutputs(code, sources, site, p);
    }
  }

  lemma CopiesAreNew(code: seq<LogicalStep>, sources: seq<Model>, m: Model, copies: seq<Key>, references: seq<Key>)
    requires WellFormed(code, sources, m) && SplitsConstants(code, sources, copies, references)
    ensures Distinct(copies) && forall k :: k in copies || k in references ==> k !in HomeKeys(code, sources)
  {
    hide Keys, ConstantKeys, WellFormed, HomesFor;
    forall k | k in copies || k in references ensures k !in HomeKeys(code, sources) {
      if k in HomeKeys(code, sources) {
        var p: nat :| p < |code| && k in HomesFor(code[p], sources);
        HomesAreNotGiven(code, sources, m, p, k);
      }
    }
  }

  lemma LayoutOfRegions(regions: map<Location, Region>, size: nat)
    requires LaidOut(regions, size)
    ensures forall l :: l in regions ==> regions[l].offset in LayoutOf(regions, size) && LayoutOf(regions, size)[regions[l].offset] == l
    ensures forall o :: o in LayoutOf(regions, size) ==> LayoutOf(regions, size)[o] in regions && regions[LayoutOf(regions, size)[o]].offset == o
  {
    hide LaidOut;
    OffsetsDiffer(regions, size);
  }

  lemma LayoutIsLayout(regions: map<Location, Region>, size: nat, homes: set<Key>, seconds: set<Key>, constants: set<Key>)
    requires LaidOut(regions, size) && regions.Keys == LocationsFor(homes, seconds, constants)
    ensures IsLayout(LayoutOf(regions, size))
    ensures forall k :: Location.Constant(k) in LayoutOf(regions, size).Values ==> k in constants
  {
    hide LaidOut, LayoutOf;
    LayoutOfRegions(regions, size);
  }

  lemma LayoutOffsets(regions: map<Location, Region>, size: nat, offsets: map<Key, nat>, offsets2: map<Key, nat>, constants: set<Key>)
    requires LaidOut(regions, size) && OffsetsAgree(offsets, offsets2, constants, regions)
    ensures var layout := LayoutOf(regions, size);
            && (forall k :: k in offsets ==> offsets[k] in layout && layout[offsets[k]] == Home(constants, k))
            && (forall k :: k in offsets2 ==> offsets2[k] in layout && layout[offsets2[k]] == Slot(k, true))
  {
    hide LaidOut, LayoutOf, Home;
    LayoutOfRegions(regions, size);
  }

  /** The layout of a plan, read as the maps of a controller. */
  lemma LayoutGivesMaps(code: seq<LogicalStep>, sources: seq<Model>, m: Model, copies: seq<Key>, references: seq<Key>, maps: Maps,
                        offsets2: map<Key, nat>, regions: map<Location, Region>, size: nat)
    requires WellFormed(code, sources, m) && SplitsConstants(code, sources, copies, references)
    requires LaidOut(regions, size) && OffsetsAgree(maps.offsets, offsets2, AsSet(copies), regions)
    requires regions.Keys == LocationsFor(maps.offsets.Keys, offsets2.Keys, AsSet(copies))
    requires maps.offsets.Keys == HomeKeys(code, sources) + AsSet(copies)
    requires maps.references == map k | k in references :: k
    requires Indexes(maps.inputs, Keys(0, m.inputIndexes)) && Indexes(maps.outputs, Keys(0, m.outputIndexes))
    ensures IsLayout(LayoutOf(regions, size))
    ensures StartMaps(code, sources, m, LayoutOf(regions, size), maps, copies, references)
    ensures OffsetsAreDistinct(maps.offsets, copies)
    ensures forall k :: k in offsets2 ==> offsets2[k] in LayoutOf(regions, size) && LayoutOf(regions, size)[offsets2[k]] == Slot(k, true)
  {
    hide WellFormed, HomeKeys, ConstantKeys, Keys, Indexes, LaidOut, LayoutOf, OffsetsAgree, LocationsFor, SplitsConstants, IsLayout;
    LayoutIsLayout(regions, size, maps.offsets.Keys, offsets2.Keys, AsSet(copies));
    LayoutOffsets(regions, size, maps.offsets, offsets2, AsSet(copies));
    forall k | k in references ensures Location.Constant(k) !in LayoutOf(regions, size).Values {
      CopiesAreNotReferences(code, sources, copies, references, k);
    }
  }

  lemma CopiesAreNotReferences(code: seq<LogicalStep>, sources: seq<Model>, copies: seq<Key>, references: seq<Key>, k: Key)
    requires SplitsConstants(code, sources, copies, references) && k in references
    ensures k !in copies
  {
    hide ConstantKeys;
  }

  lemma StandsForStart(m: Model, gs: seq<Group>, code: seq<LogicalStep>, sources: seq<Model>, copies: seq<Key>, references: seq<Key>, args: seq<Bytes>,
                       c: Controller)
    requires Models.Valid(m) && Schedules(gs, m) && |args| == |m.inputIndexes|
    requires code == Plan(m, gs) && sources == [m] + AddedModels(m, gs)
    requires SplitsConstants(code, sources, copies, references)
    requires c.code == code && c.nextStepIndex == 0 && c.whileState == map[]
    requires IsLayout(c.layout) && StartMaps(code, sources, m, c.layout, c.Current(), copies, references)
    requires StartMemory(sources, c.offsetOfTemporary, c.memory, copies, Provided(sources, references, args))
    requires c.offsetOfTemporary2.Keys == SecondKeys(code)
    requires forall k :: k in c.offsetOfTemporary2 ==> c.offsetOfTemporary2[k] in c.layout && c.layout[c.offsetOfTemporary2[k]] == Slot(k, true)
    ensures c.Running(m, gs) && c.AtMostOnce() && c.Snapshot(0) == Start(m, gs, args)
  {
    hide Models.Valid, Schedules, SplitsConstants, Plan, AddedModels, HomeKeys, SecondKeys, ConstantKeys, WellFormed, Keys, Installed, Sourced, InstalledPlan,
         StartMemory, StartMaps, Coherent, Distinct, Maps.Fits, Maps.Disjoint, Maps.Locations, StoreOf, Holdable, InitialLocations, InitialStore, Provided;
    var site := MainSite(m, gs, code, sources);
    StartMapsAreDisjoint(code, sources, m, c.layout, c.Current(), copies, references);
    StartMapsAgree(code, sources, m, c.layout, c.Current(), copies, references);
    StartMemoryAgrees(code, sources, m, c.layout, c.Current(), c.memory, copies, references, args);
    assert c.Valid();
    assert c.Locations2() == map k | k in SecondKeys(code) :: Slot(k, true);
    StartIsCoherent(gs, c.Snapshot(0));
  }

  /** Makes the controller for a plan. If the temporaries fit into 32 bits then it
      stands for the initial state, and no key is in two maps. */
  method MakeController(ghost m: Model, ghost gs: seq<Group>, code: seq<LogicalStep>, sources: seq<Model>, sizes: Key -> nat,
                        copies: seq<Key>, references: seq<Key>, args: seq<Bytes>)
    returns (c: Controller, size: nat)
    requires Models.Valid(m) && Schedules(gs, m) && |args| == |m.inputIndexes|
    requires code == Plan(m, gs) && sources == [m] + AddedModels(m, gs)
    requires SplitsConstants(code, sources, copies, references)
    requires (forall k :: sizes(k) < UINT32_RANGE) && AllSized(code, sources, sizes) && forall k :: k in copies ==> sizes(k) > 0
    ensures c.code == code && fresh(c) && size == TotalSize(code, sources, sizes, copies)
    ensures size < UINT32_RANGE ==> c.nextStepIndex == 0 && c.Running(m, gs) && c.AtMostOnce() && c.Snapshot(0) == Start(m, gs, args)
  {
    hide Models.Valid, Schedules, SplitsConstants, AllSized, PlanFits, Plan, AddedModels, LaidOut, OffsetsAgree, LocationsFor, HomeKeys, SecondKeys, ConstantKeys,
         WellFormed, Keys, Installed, Sourced, InstalledPlan, LaidBy, LaidTwiceBy, StartMemory, Start, TotalAfter, PlanList;
    ghost var site := MainSite(m, gs, code, sources);
    PlanIsFitting(code, sources, site, sizes);
    var layout := new TemporaryLayout();
    var ok := layout.LayOutSteps(code, sources, sizes);
    assert ok;
    CopiesAreNew(code, sources, m, copies, references);
    layout.LayOutConstants(copies, sizes);
    size := layout.exactSize;
    TotalInSequence(0, PlanList(code, sources), copies, sizes);
    assert Distinct(Keys(0, m.inputIndexes)) && Distinct(Keys(0, m.outputIndexes)) by {
      SourcesAreWellFormed(code, sources, m);
      DistinctInputs(m);
    }
    var inputs := IndexOperands(Keys(0, sources[0].inputIndexes));
    var outputs := IndexOperands(Keys(0, sources[0].outputIndexes));
    var memory := CopyConstants(sources, layout.offsetOfTemporary, copies, Provided(sources, references, args));
    var maps := Maps(layout.offsetOfTemporary, inputs, outputs, map k | k in references :: k);
    ghost var places: Layout := if size < UINT32_RANGE then LayoutOf(layout.regions, size) else map[];
    c := new Controller(code, places, maps.offsets, layout.offsetOfTemporary2, inputs, outputs, maps.references, memory);
    if size < UINT32_RANGE {
      LayoutGivesMaps(code, sources, m, copies, references, maps, layout.offsetOfTemporary2, layout.regions, size);
      StandsForStart(m, gs, code, sources, copies, references, args, c);
    }
  }
}
