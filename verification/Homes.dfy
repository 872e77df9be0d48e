/** Every operand that gets a temporary gets it because of exactly one step. */
module Homes {
  import opened Models
  import opened Scheduling
  import opened FlatPlans
  import opened Invariants
  import opened Partitions
  import opened Simulation
  import opened PartitionSteps
  import opened Passing
  import opened Branches
  import opened Loops
  import opened Runs

  /** The key belongs to a temporary of the source model or to one added for it. */
  ghost predicate Belongs(site: Site, k: Key) {
    (k.0 == site.mi && IsTemp(site.m, k.1)) || site.next <= k.0 < site.Top()
  }

  /** What group i lays out itself: the temporaries that it writes, and the outputs of
      the models of a loop. */
  ghost predicate OwnHome(site: Site, sources: seq<Model>, i: nat, k: Key)
    requires i < |site.gs|
  {
    || (k.0 == site.mi && IsTemp(site.m, k.1) && k.1 in HousedBy(site.m, site.Boundary(), site.gs[i]))
    || (site.gs[i].Loop? && (k.0 == site.NextAt(i) || k.0 == site.NextAt(i) + 1) && HasLifetime(sources, k, SubgraphOutput))
  }

  lemma HeadHomes(code: seq<LogicalStep>, sources: seq<Model>, site: Site, i: nat, k: Key)
    requires Installed(code, site) && Sourced(sources, site) && i < |site.gs|
    requires site.BaseAt(i) < |code| && k in HomesFor(code[site.BaseAt(i)], sources)
    ensures OwnHome(site, sources, i, k)
  {
    hide Models.Valid, Schedules, Emit, EmitGroups, CodeSize, ModelCount, BoundaryReads, StepInputs, StepOutputs, AddedModels, CodeAt, OperationFits, Within, ShallowValid;
    GroupInstalled(code, site, i);
    match site.gs[i] {
      case Partition(_, _) => StepIsInstalled(code, site, i);
      case Branch(_, _, _) => BranchLies(code, site, i, true);
      case Loop(_, _, _) =>
        LoopLies(code, site, i);
        LoopSourced(sources, site, i);
        LoopHeadHomes(sources, site, i, k);
    }
  }

  lemma LoopHeadHomes(sources: seq<Model>, site: Site, i: nat, k: Key)
    requires LoopFits(site, i) && Sourced(sources, site)
    requires Sourced(sources, CondSite(site, i)) && Sourced(sources, BodySite(site, i))
    requires k in HomesFor(Head(site, i), sources)
    ensures OwnHome(site, sources, i, k)
  {
    hide Models.Valid, Schedules, CodeSize, ModelCount, BoundaryReads, AddedModels, OperationFits, Within, Head, Keys, Ordered, CondSite, BodySite;
    HeadTargets(site, i);
    HeadHasInnerOutputs(sources, site, i);
    LoopPlaces(site, i);
    var c, b := CondSite(site, i), BodySite(site, i);
    assert c.m.outputIndexes[0] in c.m.outputIndexes;
  }

  lemma LoopPlaces(site: Site, i: nat)
    requires LoopFits(site, i)
    ensures CondSite(site, i).mi == site.NextAt(i) && BodySite(site, i).mi == site.NextAt(i) + 1
    ensures OperationAt(site, i) == site.m.operations[site.gs[i].op] && site.gs[i].op < |site.m.operations|
  {
    hide Schedules, Models.Valid;
  }

  // ----- temporaries of different groups -----

  ghost function KnownAt(site: Site, i: nat): set<nat>
    requires i <= |site.gs| && forall j :: 0 <= j < |site.gs| ==> InRange(OpsOf(site.gs[j]), |site.m.operations|)
  {
    if i == 0 then KnownSet(site.m) else KnownAt(site, i - 1) + OutputsOf(Pick(site.m, OpsOf(site.gs[i - 1])))
  }

  lemma GroupsInRange(site: Site)
    requires site.Valid()
    ensures forall j :: 0 <= j < |site.gs| ==> InRange(OpsOf(site.gs[j]), |site.m.operations|)
  {
    hide Models.Valid, Ordered;
    forall j | 0 <= j < |site.gs| ensures InRange(OpsOf(site.gs[j]), |site.m.operations|) {
      assert GroupFits(site.gs[j], site.m);
    }
  }

  lemma {:induction false} RestIsOrdered(site: Site, i: nat)
    requires site.Valid() && i <= |site.gs|
    requires forall j :: 0 <= j < |site.gs| ==> InRange(OpsOf(site.gs[j]), |site.m.operations|)
    ensures InRange(Order(site.gs[i..]), |site.m.operations|)
    ensures Ordered(Pick(site.m, Order(site.gs[i..])), KnownAt(site, i))
  {
    hide Models.Valid, OpsOf;
    if i == 0 {
      assert site.gs[0..] == site.gs;
    } else {
      hide Schedules;
      RestIsOrdered(site, i - 1);
      OrderSplits(site, i - 1);
      OrderedConcatenation(Pick(site.m, OpsOf(site.gs[i - 1])), Pick(site.m, Order(site.gs[i..])), KnownAt(site, i - 1));
    }
  }

  lemma GroupIsOrdered(site: Site, i: nat)
    requires site.Valid() && i < |site.gs|
    requires forall j :: 0 <= j < |site.gs| ==> InRange(OpsOf(site.gs[j]), |site.m.operations|)
    ensures Ordered(Pick(site.m, OpsOf(site.gs[i])), KnownAt(site, i))
  {
    hide Models.Valid, Schedules, OpsOf, KnownAt;
    RestIsOrdered(site, i);
    OrderSplits(site, i);
    OrderedConcatenation(Pick(site.m, OpsOf(site.gs[i])), Pick(site.m, Order(site.gs[i + 1..])), KnownAt(site, i));
  }

  lemma {:induction false} KnownGrows(site: Site, i: nat, j: nat)
    requires i < j <= |site.gs|
    requires forall l :: 0 <= l < |site.gs| ==> InRange(OpsOf(site.gs[l]), |site.m.operations|)
    ensures OutputsOf(Pick(site.m, OpsOf(site.gs[i]))) <= KnownAt(site, j)
    decreases j
  {
    if j > i + 1 { KnownGrows(site, i, j - 1); }
  }

  /** No temporary is written by two groups. */
  lemma HousedOnce(site: Site, i: nat, j: nat, x: nat)
    requires site.Valid() && i < j < |site.gs|
    ensures x in HousedBy(site.m, site.Boundary(), site.gs[i]) ==> x !in HousedBy(site.m, site.Boundary(), site.gs[j])
  {
    hide Models.Valid, Schedules, OpsOf, KnownAt, HousedBy, BoundaryReads, Ordered;
    GroupsInRange(site);
    GroupIsOrdered(site, i);
    GroupIsOrdered(site, j);
    HousedAreOutputs(site, i, KnownAt(site, i));
    HousedAreOutputs(site, j, KnownAt(site, j));
    KnownGrows(site, i, j);
    OutputsAreNew(Pick(site.m, OpsOf(site.gs[j])), KnownAt(site, j));
  }

  // ----- one step for each key -----

  ghost predicate InnerHome(site: Site, i: nat, k: Key)
    requires i < |site.gs|
  {
    site.NextAt(i) <= k.0 < site.NextAt(i) + GroupModels(site.gs[i])
  }

  /** What the steps inside of group i lay out is for source models that it added. */
  lemma {:induction false} InsideHomes(code: seq<LogicalStep>, sources: seq<Model>, site: Site, i: nat, p: nat, k: Key)
    requires Installed(code, site) && Sourced(sources, site) && i < |site.gs|
    requires site.BaseAt(i) < p < site.BaseAt(i) + GroupSize(site.gs[i]) <= |code|
    requires k in HomesFor(code[p], sources)
    ensures InnerHome(site, i, k)
    decreases site.gs, 0
  {
    hide Models.Valid, Schedules, Installed, Sourced, CodeSize, ModelCount, HomesFor, ShallowValid, OperationFits, Head;
    GroupInstalled(code, site, i);
    match site.gs[i] {
      case Partition(_, _) => assert false;
      case Branch(_, _, _) =>
        BranchLies(code, site, i, true);
        BranchLies(code, site, i, false);
        var t, e := BranchSite(site, i, true), BranchSite(site, i, false);
        BranchSourced(sources, site, i, true);
        BranchSourced(sources, site, i, false);
        if p == t.End() {
          GotoHasNoHome(code[p], sources);
        } else if p < t.End() {
          SiteHomes(code, sources, t, p, k);
        } else {
          SiteHomes(code, sources, e, p, k);
        }
      case Loop(_, _, _) =>
        LoopLies(code, site, i);
        var c, b := CondSite(site, i), BodySite(site, i);
        LoopSourced(sources, site, i);
        if p == c.End() || p == b.End() {
          GotoHasNoHome(code[p], sources);
        } else if p < c.End() {
          SiteHomes(code, sources, c, p, k);
        } else {
          SiteHomes(code, sources, b, p, k);
        }
    }
  }

  lemma GotoHasNoHome(step: LogicalStep, sources: seq<Model>)
    requires step.GotoStep?
    ensures HomesFor(step, sources) == {}
  {
  }

  lemma {:induction false} SiteHomes(code: seq<LogicalStep>, sources: seq<Model>, site: Site, p: nat, k: Key)
    requires Installed(code, site) && Sourced(sources, site)
    requires site.base <= p < site.End() <= |code|
    requires k in HomesFor(code[p], sources)
    ensures Belongs(site, k)
    decreases site.gs, 1
  {
    hide Models.Valid, Schedules, Installed, Sourced, CodeSize, ModelCount, HomesFor, HousedBy, BoundaryReads;
    var i := PositionInGroup(site.gs, site.base, p);
    SizesSplit(site.gs, i);
    if p == site.BaseAt(i) {
      HeadHomes(code, sources, site, i, k);
    } else {
      InsideHomes(code, sources, site, i, p, k);
    }
  }

  /** Two steps inside of group i do not lay out the same key. */
  lemma {:induction false} InsideOnce(code: seq<LogicalStep>, sources: seq<Model>, site: Site, i: nat, p: nat, q: nat, k: Key)
    requires Installed(code, site) && Sourced(sources, site) && i < |site.gs|
    requires site.BaseAt(i) < p < q < site.BaseAt(i) + GroupSize(site.gs[i]) <= |code|
    ensures k in HomesFor(code[p], sources) ==> k !in HomesFor(code[q], sources)
    decreases site.gs, 0
  {
    hide Models.Valid, Schedules, Installed, Sourced, CodeSize, ModelCount, HomesFor, ShallowValid, OperationFits, Head;
    GroupInstalled(code, site, i);
    if k in HomesFor(code[p], sources) && k in HomesFor(code[q], sources) {
      match site.gs[i] {
        case Partition(_, _) => assert false;
        case Branch(_, _, _) =>
          BranchLies(code, site, i, true);
          BranchLies(code, site, i, false);
          BranchSourced(sources, site, i, true);
          BranchSourced(sources, site, i, false);
          TwoSites(code, sources, site.gs[i], BranchSite(site, i, true), BranchSite(site, i, false), p, q, k);
        case Loop(_, _, _) =>
          LoopLies(code, site, i);
          LoopSourced(sources, site, i);
          TwoSites(code, sources, site.gs[i], CondSite(site, i), BodySite(site, i), p, q, k);
      }
    }
  }

  lemma {:induction false} TwoSites(code: seq<LogicalStep>, sources: seq<Model>, g: Group, a: Site, b: Site, p: nat, q: nat, k: Key)
    requires Installed(code, a) && Sourced(sources, a) && Installed(code, b) && Sourced(sources, b)
    requires a.base <= p < q <= b.End() && a.End() < b.base && b.End() <= |code|
    requires p < |code| && q < |code|
    requires a.End() < p ==> b.base <= p
    requires a.End() < q ==> b.base <= q
    requires code[a.End()].GotoStep? && (b.End() < |code| && q == b.End() ==> code[b.End()].GotoStep?)
    requires a.mi < b.mi < a.next && a.Top() <= b.next
    requires (g.Branch? && a.gs == g.thenPlan && b.gs == g.elsePlan) || (g.Loop? && a.gs == g.condPlan && b.gs == g.bodyPlan)
    ensures k in HomesFor(code[p], sources) ==> k !in HomesFor(code[q], sources)
    decreases g, 0
  {
    hide Models.Valid, Schedules, Installed, Sourced, CodeSize, ModelCount, HomesFor;
    if k in HomesFor(code[p], sources) && k in HomesFor(code[q], sources) {
      assert p != a.End() && q != a.End() by {
        GotoHasNoHome(code[a.End()], sources);
      }
      assert q != b.End() by {
        if q == b.End() { GotoHasNoHome(code[q], sources); }
      }
      if q < a.End() {
        SiteOnce(code, sources, a, p, q, k);
      } else if p < a.End() {
        SiteHomes(code, sources, a, p, k);
        SiteHomes(code, sources, b, q, k);
      } else {
        SiteOnce(code, sources, b, p, q, k);
      }
    }
  }

  /** Every key has one step that lays it out. */
  lemma {:induction false} SiteOnce(code: seq<LogicalStep>, sources: seq<Model>, site: Site, p: nat, q: nat, k: Key)
    requires Installed(code, site) && Sourced(sources, site)
    requires site.base <= p < q < site.End() <= |code|
    ensures k in HomesFor(code[p], sources) ==> k !in HomesFor(code[q], sources)
    decreases site.gs, 1
  {
    hide Models.Valid, Schedules, Installed, Sourced, CodeSize, ModelCount, HomesFor, HousedBy, BoundaryReads;
    if k in HomesFor(code[p], sources) && k in HomesFor(code[q], sources) {
      var i := PositionInGroup(site.gs, site.base, p);
      var j := PositionInGroup(site.gs, site.base, q);
      SizesSplit(site.gs, i);
      SizesSplit(site.gs, j);
      if i == j {
        if p == site.BaseAt(i) {
          HeadHomes(code, sources, site, i, k);
          HeadIsNotInside(code, sources, site, i, q, k);
        } else {
          InsideOnce(code, sources, site, i, p, q, k);
        }
      } else {
        GroupHomes(code, sources, site, i, p, k);
        GroupHomes(code, sources, site, j, q, k);
        PositionsOrdered(site, i, j, p, q);
        DifferentGroups(site, sources, i, j, k);
      }
    }
  }

  lemma GroupHomes(code: seq<LogicalStep>, sources: seq<Model>, site: Site, i: nat, p: nat, k: Key)
    requires Installed(code, site) && Sourced(sources, site) && i < |site.gs|
    requires site.BaseAt(i) <= p < site.BaseAt(i) + GroupSize(site.gs[i]) <= |code|
    requires k in HomesFor(code[p], sources)
    ensures OwnHome(site, sources, i, k) || InnerHome(site, i, k)
  {
    hide Installed, Sourced, CodeSize, ModelCount, HomesFor, OwnHome, InnerHome;
    if p == site.BaseAt(i) {
      HeadHomes(code, sources, site, i, k);
    } else {
      InsideHomes(code, sources, site, i, p, k);
    }
  }

  lemma PositionsOrdered(site: Site, i: nat, j: nat, p: nat, q: nat)
    requires i < |site.gs| && j < |site.gs| && i != j && p < q
    requires site.BaseAt(i) <= p && q < site.BaseAt(j) + GroupSize(site.gs[j])
    ensures i < j
  {
    hide CodeSize, ModelCount;
    if j < i { SizesOrdered(site.gs, j, i); }
  }

  lemma DifferentGroups(site: Site, sources: seq<Model>, i: nat, j: nat, k: Key)
    requires site.Valid() && i < j < |site.gs|
    requires OwnHome(site, sources, i, k) || InnerHome(site, i, k)
    ensures !OwnHome(site, sources, j, k) && !InnerHome(site, j, k)
  {
    hide Models.Valid, Schedules, CodeSize, ModelCount, HousedBy, BoundaryReads;
    SizesOrdered(site.gs, i, j);
    HousedOnce(site, i, j, k.1);
  }

  lemma HeadIsNotInside(code: seq<LogicalStep>, sources: seq<Model>, site: Site, i: nat, q: nat, k: Key)
    requires Installed(code, site) && Sourced(sources, site) && i < |site.gs|
    requires site.BaseAt(i) < q < site.BaseAt(i) + GroupSize(site.gs[i]) <= |code|
    requires OwnHome(site, sources, i, k)
    ensures k !in HomesFor(code[q], sources)
  {
    hide Models.Valid, Schedules, Installed, Sourced, CodeSize, ModelCount, HomesFor, HousedBy, BoundaryReads, ShallowValid, OperationFits, Head;
    if k in HomesFor(code[q], sources) {
      InsideHomes(code, sources, site, i, q, k);
      if site.gs[i].Loop? {
        GroupInstalled(code, site, i);
        LoopLies(code, site, i);
        LoopSourced(sources, site, i);
        LoopInsideIsTemporary(code, sources, site, i, q, k);
      }
    }
  }

  lemma LoopInsideIsTemporary(code: seq<LogicalStep>, sources: seq<Model>, site: Site, i: nat, q: nat, k: Key)
    requires Installed(code, site) && LoopFits(site, i)
    requires Installed(code, CondSite(site, i)) && Sourced(sources, CondSite(site, i))
    requires Installed(code, BodySite(site, i)) && Sourced(sources, BodySite(site, i))
    requires CondSite(site, i).End() < |code| && code[CondSite(site, i).End()].GotoStep?
    requires BodySite(site, i).End() < |code| && code[BodySite(site, i).End()].GotoStep?
    requires site.BaseAt(i) < q < site.BaseAt(i) + GroupSize(site.gs[i]) <= |code|
    requires k in HomesFor(code[q], sources)
    ensures k.0 == site.NextAt(i) || k.0 == site.NextAt(i) + 1 ==> !HasLifetime(sources, k, SubgraphOutput)
  {
    hide Models.Valid, Schedules, Installed, CodeSize, ModelCount, HomesFor, AddedModels, ShallowValid, OperationFits;
    var c, b := CondSite(site, i), BodySite(site, i);
    if q == c.End() || q == b.End() {
      GotoHasNoHome(code[q], sources);
    } else if q < c.End() {
      SiteHomes(code, sources, c, q, k);
    } else {
      SiteHomes(code, sources, b, q, k);
    }
  }
}
