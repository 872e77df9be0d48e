/** Entering and leaving the steps of one source model. */
module Sites {
  import opened Options
  import opened Models
  import opened Semantics
  import opened Scheduling
  import opened FlatPlans
  import opened Machine
  import opened Invariants
  import opened Simulation
  import opened PartitionSteps

  ghost predicate ValuesAre(s: State, keys: seq<Key>, vals: seq<Bytes>) {
    |keys| == |vals| && forall j :: 0 <= j < |keys| ==> Read(s, keys[j]) == Some(vals[j])
  }

  /** The interpreter is at the first step of the site, and its inputs have the
      given values. */
  ghost predicate Entered(site: Site, s: State, args: seq<Bytes>) {
    && s.pc == site.base
    && Rest(site.m, site.gs, site.mi, site.base, site.next, s)
    && Placed(site, s)
    && ValuesAre(s, Keys(site.mi, site.m.inputIndexes), args)
  }

  /** The places that a run of the site writes, besides slots of models added for it. */
  ghost function OwnPlaces(site: Site, s: State): set<Location> {
    (set x | 0 <= x < |site.m.operands| && IsTemp(site.m, x) :: Slot((site.mi, x), false)) +
    (set x | x in site.m.outputIndexes && (site.mi, x) in s.locations :: s.locations[(site.mi, x)])
  }

  ghost predicate SiteChanges(site: Site, s: State, s': State) {
    Changes(site.next, site.Top(), site.base, site.End(), OwnPlaces(site, s), s, s')
  }

  /** The interpreter is past the last step of the site, its outputs have the given
      values, and it is at rest again. */
  ghost predicate Left(site: Site, s: State, s': State, vals: seq<Bytes>) {
    && s'.pc == site.End()
    && Rest(site.m, site.gs, site.mi, site.base, site.next, s')
    && SiteChanges(site, s, s')
    && ValuesAre(s', Keys(site.mi, site.m.outputIndexes), vals)
  }

  lemma EnvironmentAtStart(m: Model, args: seq<Bytes>)
    requires ShallowValid(m) && |args| == |m.inputIndexes|
    ensures var env := Bind(Constants(m), m.inputIndexes, args);
            && env.Keys == KnownSet(m)
            && Extends(Constants(m), env)
  {
    InitialKeys(m, args);
  }

  lemma FaithfulAtStart(site: Site, s: State, args: seq<Bytes>)
    requires ShallowValid(site.m) && |args| == |site.m.inputIndexes|
    requires ValuesAre(s, Keys(site.mi, site.m.inputIndexes), args)
    ensures Faithful(site, s, Bind(Constants(site.m), site.m.inputIndexes, args))
  {
    hide BoundaryReads, Bind;
    var env := Bind(Constants(site.m), site.m.inputIndexes, args);
    InitialKeys(site.m, args);
    forall x | x in env && Shared(site, x) ensures Holds(site, s, x, env[x]) {
      assert x in site.m.inputIndexes;
      var j :| 0 <= j < |site.m.inputIndexes| && site.m.inputIndexes[j] == x;
      assert Read(s, Keys(site.mi, site.m.inputIndexes)[j]) == Some(args[j]);
    }
  }

  lemma RemainingAtStart(site: Site, env: Env)
    requires site.Valid() && env.Keys == KnownSet(site.m)
    ensures Remaining(site, 0, env)
  {
    ValidIsShallow(site.m);
    assert site.gs[0..] == site.gs;
    var order := Order(site.gs);
    assert InRange(order, |site.m.operations|);
    OutputsOfMembers(Pick(site.m, order));
    OutputsOfMembers(site.m.operations);
    forall x | 0 <= x < |site.m.operands| ensures x in env || x in OutputsOf(Pick(site.m, order)) {
      if x !in KnownSet(site.m) {
        var j :| 0 <= j < |site.m.operations| && x in site.m.operations[j].outputs;
        assert j in order;
        var p :| 0 <= p < |order| && order[p] == j;
        assert Pick(site.m, order)[p] == site.m.operations[j];
      }
    }
  }

  lemma StartSite(site: Site, s: State, args: seq<Bytes>)
    requires site.Valid() && Entered(site, s, args)
    ensures |args| == |site.m.inputIndexes|
    ensures Ready(site, 0, s, Bind(Constants(site.m), site.m.inputIndexes, args))
  {
    hide Models.Valid, Schedules, Passes, Rest, Placed, Bind, Faithful, Remaining;
    ValidIsShallow(site.m);
    EnvironmentAtStart(site.m, args);
    FaithfulAtStart(site, s, args);
    RemainingAtStart(site, Bind(Constants(site.m), site.m.inputIndexes, args));
    assert CodeSize(site.gs[..0]) == 0;
  }

  lemma WrittenAreOwn(site: Site, i: nat, s: State, env: Env)
    requires site.Valid() && i < |site.gs| && Ready(site, i, s, env)
    ensures WrittenBy(site, i, s) <= OwnPlaces(site, s)
  {
    hide Models.Valid, Schedules, Passes, Rest, Faithful, Remaining, HousedBy, BoundaryReads, Ordered, OpsOf, Placed, CodeSize, ModelCount;
    NextIsOrdered(site, i, s, env);
    HousedAreOutputs(site, i, env.Keys);
    OutputsAreWritten(site.m, OpsOf(site.gs[i]));
    forall l | l in WrittenBy(site, i, s) ensures l in OwnPlaces(site, s) {
      var x :| x in HousedBy(site.m, site.Boundary(), site.gs[i]) && (site.mi, x) in s.locations && s.locations[(site.mi, x)] == l;
      if IsTemp(site.m, x) {
        assert AtHome((site.mi, x), s);
      } else {
        assert x in site.m.outputIndexes;
      }
    }
  }

  lemma GroupChangesAreSiteChanges(site: Site, i: nat, s: State, s': State, env: Env)
    requires site.Valid() && i < |site.gs| && Ready(site, i, s, env)
    requires GroupChanges(site, i, s, s')
    ensures SiteChanges(site, s, s')
  {
    hide Models.Valid, Schedules, Passes, Rest, Faithful, Remaining, WrittenBy, OwnPlaces, Placed;
    SizesSplit(site.gs, i);
    WrittenAreOwn(site, i, s, env);
  }

  lemma OwnPlacesStay(site: Site, s: State, s': State)
    requires site.mi < site.next
    requires SiteChanges(site, s, s')
    ensures OwnPlaces(site, s') == OwnPlaces(site, s)
    ensures forall x: nat :: SameAt(s.locations, s'.locations, (site.mi, x))
  {
    forall x: nat ensures SameAt(s.locations, s'.locations, (site.mi, x)) {
    }
  }

  lemma SiteChangesCompose(site: Site, s: State, s1: State, s': State)
    requires site.mi < site.next
    requires SiteChanges(site, s, s1) && SiteChanges(site, s1, s')
    ensures SiteChanges(site, s, s')
  {
    OwnPlacesStay(site, s, s1);
    ChangesCompose(site.next, site.Top(), site.base, site.End(), OwnPlaces(site, s), s, s1, s');
  }

  lemma FinishSite(site: Site, s: State, s': State, env: Env)
    requires site.Valid() && SiteChanges(site, s, s')
    requires Ready(site, |site.gs|, s', env)
    ensures Knows(env, site.m.outputIndexes)
    ensures Left(site, s, s', Get(env, site.m.outputIndexes))
  {
    hide Models.Valid, Schedules, Passes, Rest, SiteChanges, Placed;
    ValidIsShallow(site.m);
    assert site.gs[..|site.gs|] == site.gs;
    assert site.gs[|site.gs|..] == [];
    forall x | x in site.m.outputIndexes ensures x in env && Read(s', (site.mi, x)) == Some(env[x]) {
      assert x < |site.m.operands|;
      assert Shared(site, x);
    }
    var outs := site.m.outputIndexes;
    forall j | 0 <= j < |outs| ensures Read(s', Keys(site.mi, outs)[j]) == Some(Get(env, outs)[j]) {
      assert outs[j] in outs;
    }
  }
}
