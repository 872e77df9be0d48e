/** Passing operands of a control flow operation to the models it refers to, and
    taking back what they computed. */
module Passing {
  import opened Options
  import opened Models
  import opened Semantics
  import opened Scheduling
  import opened FlatPlans
  import opened Machine
  import opened Invariants
  import opened Partitions
  import opened Simulation
  import opened PartitionSteps
  import opened Sites

  ghost function OperationAt(site: Site, i: nat): Operation
    requires i < |site.gs| && GroupFits(site.gs[i], site.m) && !site.gs[i].Partition?
  {
    site.m.operations[site.gs[i].op]
  }

  /** `k` is in place with value `v`, at a place that running group i leaves alone. */
  ghost predicate Safe(site: Site, i: nat, s: State, k: Key, v: Bytes)
    requires i < |site.gs|
  {
    && Read(s, k) == Some(v)
    && s.locations[k] !in WrittenBy(site, i, s)
    && var l := s.locations[k];
       !(l.Slot? && site.NextAt(i) <= l.key.0 < site.NextAt(i) + GroupModels(site.gs[i]))
  }

  ghost predicate AllSafe(site: Site, i: nat, s: State, keys: seq<Key>, vals: seq<Bytes>)
    requires i < |site.gs|
  {
    |keys| == |vals| && forall j :: 0 <= j < |keys| ==> Safe(site, i, s, keys[j], vals[j])
  }

  lemma SharedIsSafe(site: Site, i: nat, s: State, env: Env, x: nat)
    requires site.Valid() && i < |site.gs| && Ready(site, i, s, env)
    requires x in env && Shared(site, x)
    ensures Safe(site, i, s, (site.mi, x), env[x])
  {
    hide Models.Valid, Schedules, Passes, Rest, Remaining, HousedBy, BoundaryReads, Ordered, OpsOf, Placed, CodeSize, ModelCount;
    NextIsOrdered(site, i, s, env);
    HousedAreOutputs(site, i, env.Keys);
    OutputsAreWritten(site.m, OpsOf(site.gs[i]));
    OutputsAreNew(Pick(site.m, OpsOf(site.gs[i])), env.Keys);
    assert Holds(site, s, x, env[x]);
    SharedIsOutside(site, i, s, x);
    var l := s.locations[(site.mi, x)];
    if l in WrittenBy(site, i, s) {
      var y :| y in HousedBy(site.m, site.Boundary(), site.gs[i]) && (site.mi, y) in s.locations && s.locations[(site.mi, y)] == l;
      PlacesDiffer(site, i, s, x, y);
    }
  }

  lemma ConstantIsSafe(site: Site, i: nat, s: State, env: Env, x: nat)
    requires site.Valid() && i < |site.gs| && Ready(site, i, s, env) && !site.gs[i].Partition?
    requires x in GroupReads(site.m, site.gs[i]) && x < |site.m.operands| && IsConstant(site.m.operands[x].lifetime)
    ensures x in env && Safe(site, i, s, (site.mi, x), env[x])
  {
    hide Models.Valid, Schedules, Passes, Remaining, HousedBy, BoundaryReads, Ordered, OpsOf, Placed, WrittenBy, Faithful, GroupReads;
    NextIsOrdered(site, i, s, env);
    assert x in Constants(site.m);
    WritesSpareConstants(site, i, s, env);
    RestHasGroup(site, i, s);
    assert ConstantsInPlace(site.m, site.gs[i], site.mi, s);
  }

  /** What a control flow operation reads is in place and stays there. */
  lemma ReadIsSafe(site: Site, i: nat, s: State, env: Env, x: nat)
    requires site.Valid() && i < |site.gs| && Ready(site, i, s, env) && !site.gs[i].Partition?
    requires x in GroupReads(site.m, site.gs[i]) && x in env
    requires x < |site.m.operands| && HasLocation(site.m.operands[x].lifetime)
    ensures Safe(site, i, s, (site.mi, x), env[x])
  {
    hide Models.Valid, Schedules, Passes, Ready, Safe, GroupReads, BoundaryReads;
    if IsConstant(site.m.operands[x].lifetime) {
      ConstantIsSafe(site, i, s, env, x);
    } else {
      BoundaryHas(site.m, site.gs, i);
      SharedIsSafe(site, i, s, env, x);
    }
  }

  lemma ReadsAreSafe(site: Site, i: nat, s: State, env: Env, xs: seq<nat>)
    requires site.Valid() && i < |site.gs| && Ready(site, i, s, env) && !site.gs[i].Partition?
    requires forall x :: x in xs ==> x in GroupReads(site.m, site.gs[i]) && x in env && x < |site.m.operands| && HasLocation(site.m.operands[x].lifetime)
    ensures Knows(env, xs) && AllSafe(site, i, s, Keys(site.mi, xs), Get(env, xs))
  {
    hide Models.Valid, Schedules, Passes, Ready, Safe, GroupReads, HasLocation;
    forall j | 0 <= j < |xs| ensures Safe(site, i, s, Keys(site.mi, xs)[j], Get(env, xs)[j]) {
      assert xs[j] in xs;
      ReadIsSafe(site, i, s, env, xs[j]);
    }
  }

  // ----- moving locations -----

  /** `b` is `a` with each inner operand where its outer operand is. */
  ghost predicate Moved(a: Locations, b: Locations, outers: seq<Key>, inners: seq<Key>) {
    && |outers| == |inners|
    && (forall k :: k !in inners ==> SameAt(a, b, k))
    && forall j :: 0 <= j < |inners| ==> outers[j] in a && inners[j] in b && b[inners[j]] == a[outers[j]]
  }

  lemma {:induction false} SetInputsMoves(ls: Locations, outers: seq<Key>, inners: seq<Key>)
    requires |outers| == |inners| && Distinct(inners)
    requires forall k :: k in outers ==> k in ls && k !in inners
    ensures SetInputs(ls, outers, inners).Some?
    ensures Moved(ls, SetInputs(ls, outers, inners).value, outers, inners)
    decreases |outers|
  {
    if outers != [] {
      var ls' := SetInput(ls, outers[0], inners[0]).value;
      assert forall k :: k in inners <==> k == inners[0] || k in inners[1..];
      assert forall k :: k in outers[1..] ==> k in outers;
      assert forall k :: k != inners[0] ==> SameAt(ls, ls', k);
      SetInputsMoves(ls', outers[1..], inners[1..]);
      var r := SetInputs(ls, outers, inners).value;
      assert inners[0] !in inners[1..];
      assert SameAt(ls', r, inners[0]);
      forall k | k !in inners ensures SameAt(ls, r, k) {
        assert SameAt(ls, ls', k) && SameAt(ls', r, k);
      }
      forall j | 0 <= j < |inners| ensures outers[j] in ls && inners[j] in r && r[inners[j]] == ls[outers[j]] {
        assert outers[j] in outers;
        if j > 0 {
          assert inners[1..][j - 1] == inners[j] && outers[1..][j - 1] == outers[j];
        }
      }
    }
  }

  lemma {:induction false} SetOutputsMoves(ls: Locations, outers: seq<Key>, inners: seq<Key>)
    requires |outers| == |inners| && Distinct(inners)
    requires forall k :: k in outers ==> k in ls && Writable(ls[k]) && k !in inners
    requires forall k :: k in inners && k in ls ==> Writable(ls[k])
    ensures SetOutputs(ls, outers, inners).Some?
    ensures Moved(ls, SetOutputs(ls, outers, inners).value, outers, inners)
    decreases |outers|
  {
    if outers != [] {
      assert inners[0] in inners && outers[0] in outers;
      var ls' := SetOutput(ls, outers[0], inners[0]).value;
      assert forall k :: k in inners <==> k == inners[0] || k in inners[1..];
      assert forall k :: k in outers[1..] ==> k in outers;
      assert forall k :: k != inners[0] ==> SameAt(ls, ls', k);
      SetOutputsMoves(ls', outers[1..], inners[1..]);
      var r := SetOutputs(ls, outers, inners).value;
      assert inners[0] !in inners[1..];
      assert SameAt(ls', r, inners[0]);
      forall k | k !in inners ensures SameAt(ls, r, k) {
        assert SameAt(ls, ls', k) && SameAt(ls', r, k);
      }
      forall j | 0 <= j < |inners| ensures outers[j] in ls && inners[j] in r && r[inners[j]] == ls[outers[j]] {
        assert outers[j] in outers;
        if j > 0 {
          assert inners[1..][j - 1] == inners[j] && outers[1..][j - 1] == outers[j];
        }
      }
    }
  }

  /** `b` is `a` except that the inputs of the model with index `inner` are where the
      operands `xs` of model `outer` are, and its outputs where `ys` are. */
  ghost predicate Lent(a: Locations, b: Locations, outer: nat, xs: seq<nat>, ys: seq<nat>, inner: nat, m: Model) {
    && |xs| == |m.inputIndexes| && |ys| == |m.outputIndexes|
    && (forall key: Key :: key.0 != inner || (key.1 !in m.inputIndexes && key.1 !in m.outputIndexes) ==> SameAt(a, b, key))
    && (forall j :: 0 <= j < |xs| ==>
          (outer, xs[j]) in a && (inner, m.inputIndexes[j]) in b && b[(inner, m.inputIndexes[j])] == a[(outer, xs[j])])
    && (forall j :: 0 <= j < |ys| ==>
          (outer, ys[j]) in a && (inner, m.outputIndexes[j]) in b && b[(inner, m.outputIndexes[j])] == a[(outer, ys[j])])
  }

  lemma Lend(ls: Locations, outer: nat, xs: seq<nat>, ys: seq<nat>, inner: nat, m: Model) returns (r: Locations)
    requires ShallowValid(m) && outer != inner
    requires |xs| == |m.inputIndexes| && |ys| == |m.outputIndexes|
    requires forall x :: x in xs ==> (outer, x) in ls
    requires forall y :: y in ys ==> (outer, y) in ls && Writable(ls[(outer, y)])
    requires forall z :: z in m.outputIndexes && (inner, z) in ls ==> Writable(ls[(inner, z)])
    ensures SetInputs(ls, Keys(outer, xs), Keys(inner, m.inputIndexes)).Some?
    ensures SetOutputs(SetInputs(ls, Keys(outer, xs), Keys(inner, m.inputIndexes)).value,
                       Keys(outer, ys), Keys(inner, m.outputIndexes)) == Some(r)
    ensures Lent(ls, r, outer, xs, ys, inner, m)
  {
    hide SetInputs, SetOutputs, Keys;
    var ins, inners := Keys(outer, xs), Keys(inner, m.inputIndexes);
    var outs, inneros := Keys(outer, ys), Keys(inner, m.outputIndexes);
    SetInputsMoves(ls, ins, inners);
    var mid := SetInputs(ls, ins, inners).value;
    forall key | key in outs ensures key in mid && Writable(mid[key]) && key !in inneros {
      assert SameAt(ls, mid, key);
      assert key == (outer, key.1);
    }
    forall key | key in inneros && key in mid ensures Writable(mid[key]) {
      assert key.1 !in m.inputIndexes;
      assert SameAt(ls, mid, key);
      assert key == (inner, key.1);
    }
    SetOutputsMoves(mid, outs, inneros);
    r := SetOutputs(mid, outs, inneros).value;
    LendPlaces(ls, mid, r, outer, xs, ys, inner, m);
  }

  lemma LendPlaces(ls: Locations, mid: Locations, r: Locations, outer: nat, xs: seq<nat>, ys: seq<nat>, inner: nat, m: Model)
    requires ShallowValid(m) && outer != inner
    requires Moved(ls, mid, Keys(outer, xs), Keys(inner, m.inputIndexes))
    requires Moved(mid, r, Keys(outer, ys), Keys(inner, m.outputIndexes))
    ensures Lent(ls, r, outer, xs, ys, inner, m)
  {
    hide Keys, Moved, ShallowValid;
    LendKeeps(ls, mid, r, outer, xs, ys, inner, m);
    LendInputs(ls, mid, r, outer, xs, ys, inner, m);
    LendOutputs(ls, mid, r, outer, xs, ys, inner, m);
  }

  lemma LendKeeps(ls: Locations, mid: Locations, r: Locations, outer: nat, xs: seq<nat>, ys: seq<nat>, inner: nat, m: Model)
    requires Moved(ls, mid, Keys(outer, xs), Keys(inner, m.inputIndexes))
    requires Moved(mid, r, Keys(outer, ys), Keys(inner, m.outputIndexes))
    ensures |xs| == |m.inputIndexes| && |ys| == |m.outputIndexes|
    ensures forall key: Key :: key.0 != inner || (key.1 !in m.inputIndexes && key.1 !in m.outputIndexes) ==> SameAt(ls, r, key)
  {
    hide Keys, SameAt;
    forall key: Key | key.0 != inner || (key.1 !in m.inputIndexes && key.1 !in m.outputIndexes) ensures SameAt(ls, r, key) {
      assert key !in Keys(inner, m.inputIndexes) && key !in Keys(inner, m.outputIndexes);
      SameTwice(ls, mid, r, key);
    }
  }

  lemma SameTwice(a: Locations, b: Locations, c: Locations, key: Key)
    requires SameAt(a, b, key) && SameAt(b, c, key)
    ensures SameAt(a, c, key)
  {
  }

  lemma LendInputs(ls: Locations, mid: Locations, r: Locations, outer: nat, xs: seq<nat>, ys: seq<nat>, inner: nat, m: Model)
    requires ShallowValid(m)
    requires Moved(ls, mid, Keys(outer, xs), Keys(inner, m.inputIndexes))
    requires Moved(mid, r, Keys(outer, ys), Keys(inner, m.outputIndexes))
    ensures |xs| == |m.inputIndexes|
    ensures forall j :: 0 <= j < |xs| ==>
              (outer, xs[j]) in ls && (inner, m.inputIndexes[j]) in r && r[(inner, m.inputIndexes[j])] == ls[(outer, xs[j])]
  {
    hide Keys, Ordered, OperationFits;
    var ins, inners := Keys(outer, xs), Keys(inner, m.inputIndexes);
    forall j | 0 <= j < |xs|
      ensures (outer, xs[j]) in ls && (inner, m.inputIndexes[j]) in r && r[(inner, m.inputIndexes[j])] == ls[(outer, xs[j])]
    {
      assert ins[j] in ls && inners[j] in mid && mid[inners[j]] == ls[ins[j]];
      assert m.inputIndexes[j] in m.inputIndexes;
      assert SameAt(mid, r, inners[j]);
    }
  }

  lemma LendOutputs(ls: Locations, mid: Locations, r: Locations, outer: nat, xs: seq<nat>, ys: seq<nat>, inner: nat, m: Model)
    requires outer != inner
    requires Moved(ls, mid, Keys(outer, xs), Keys(inner, m.inputIndexes))
    requires Moved(mid, r, Keys(outer, ys), Keys(inner, m.outputIndexes))
    ensures |ys| == |m.outputIndexes|
    ensures forall j :: 0 <= j < |ys| ==>
              (outer, ys[j]) in ls && (inner, m.outputIndexes[j]) in r && r[(inner, m.outputIndexes[j])] == ls[(outer, ys[j])]
  {
    hide Keys;
    var outs, inneros := Keys(outer, ys), Keys(inner, m.outputIndexes);
    forall j | 0 <= j < |ys|
      ensures (outer, ys[j]) in ls && (inner, m.outputIndexes[j]) in r && r[(inner, m.outputIndexes[j])] == ls[(outer, ys[j])]
    {
      assert outs[j] in mid && inneros[j] in r && r[inneros[j]] == mid[outs[j]];
      assert SameAt(ls, mid, outs[j]);
    }
  }

  /** Passing on an operand without a place fails. */
  lemma {:induction false} SetInputsFails(ls: Locations, outers: seq<Key>, inners: seq<Key>, key: Key)
    requires key in outers && key !in ls && key !in inners
    ensures SetInputs(ls, outers, inners).None?
    decreases |outers|
  {
    if inners != [] && key != outers[0] {
      match SetInput(ls, outers[0], inners[0]) {
        case Some(ls') => SetInputsFails(ls', outers[1..], inners[1..], key);
        case None =>
      }
    }
  }

  lemma LendingOmits(m: Model, mi: nat, s: State, s1: State)
    requires ShallowValid(m) && NothingOmitted(m, mi, s)
    requires forall key: Key :: key.0 != mi || (key.1 !in m.inputIndexes && key.1 !in m.outputIndexes) ==> SameAt(s.locations, s1.locations, key)
    ensures NothingOmitted(m, mi, s1)
  {
    hide Ordered, OperationFits, NothingOmitted;
    OmittedIsKept(m, mi, s, s1);
  }

  // ----- the sites of the models that group i refers to -----

  /** `sub` is one of the two sites that lie within group i. */
  ghost predicate Within(site: Site, i: nat, sub: Site) {
    && i < |site.gs|
    && sub.Valid()
    && site.NextAt(i) <= sub.mi < site.NextAt(i) + 2 <= sub.next
    && sub.Top() <= site.NextAt(i) + GroupModels(site.gs[i])
    && site.BaseAt(i) < sub.base && sub.End() <= site.BaseAt(i) + GroupSize(site.gs[i])
  }

  lemma WithinIsValid(site: Site, i: nat, sub: Site)
    requires site.Valid() && Within(site, i, sub)
    ensures sub.Valid() && site.mi < site.NextAt(i) <= sub.mi
  {
    hide Models.Valid, Schedules, Passes;
  }

  /** Between the states, group i changed no more than locations and slots of the
      source models that it added. */
  ghost predicate InnerChanges(site: Site, i: nat, s: State, s': State)
    requires i < |site.gs|
  {
    Changes(site.NextAt(i), site.NextAt(i) + GroupModels(site.gs[i]),
            site.BaseAt(i), site.BaseAt(i) + GroupSize(site.gs[i]), {}, s, s')
  }

  /** A site within the group stays at rest while only operands of its own model
      that come from outside are moved. */
  lemma MovingKeepsRest(sub: Site, s: State, s': State)
    requires sub.Valid()
    requires Rest(sub.m, sub.gs, sub.mi, sub.base, sub.next, s)
    requires forall k: Key :: k.0 != sub.mi || (k.1 !in sub.m.inputIndexes && k.1 !in sub.m.outputIndexes) ==>
               SameAt(s.locations, s'.locations, k)
    requires s'.locations2 == s.locations2 && s'.store == s.store
    requires forall p: nat :: sub.base <= p < sub.End() ==> SameAt(s.loops, s'.loops, p)
    ensures Rest(sub.m, sub.gs, sub.mi, sub.base, sub.next, s')
  {
    hide Models.Valid, Schedules, Passes, Rest, CodeSize, ModelCount;
    RestIsKept(sub.m, sub.gs, sub.mi, sub.base, sub.next, s, s');
  }

  /** A site keeps at rest while something else runs. */
  lemma ElsewhereKeepsRest(sub: Site, lo: nat, hi: nat, from: nat, to: nat, ws: set<Location>, s: State, s': State)
    requires sub.Valid()
    requires Rest(sub.m, sub.gs, sub.mi, sub.base, sub.next, s)
    requires Changes(lo, hi, from, to, ws, s, s')
    requires forall l :: l in ws ==> !l.Constant?
    requires hi <= sub.next || sub.Top() <= lo
    requires !(lo <= sub.mi < hi)
    requires to <= sub.base || sub.End() <= from
    ensures Rest(sub.m, sub.gs, sub.mi, sub.base, sub.next, s')
  {
    hide Models.Valid, Schedules, Passes, Rest, CodeSize, ModelCount;
    RestIsKept(sub.m, sub.gs, sub.mi, sub.base, sub.next, s, s');
  }

  /** The operands of group i's operation and the values it starts from. */
  lemma OperandsInOrder(site: Site, i: nat, s: State, env: Env)
    requires site.Valid() && i < |site.gs| && Ready(site, i, s, env)
    requires GroupFits(site.gs[i], site.m) && !site.gs[i].Partition?
    ensures var op := OperationAt(site, i);
            && Knows(env, op.inputs) && InRange(op.inputs, |site.m.operands|)
            && OperationFits(op, site.m.operands) && ValidPlacement(op.placement)
            && Distinct(op.outputs) && (forall x :: x in op.outputs ==> x !in env)
            && HousedBy(site.m, site.Boundary(), site.gs[i]) == AsSet(op.outputs)
            && OutputsOf(Pick(site.m, OpsOf(site.gs[i]))) == AsSet(op.outputs)
            && InRange(OpsOf(site.gs[i]), |site.m.operations|)
  {
    hide Rest, Faithful, Remaining, BoundaryReads, Placed, Schedules, OperationFits, ValidPlacement;
    NextIsOrdered(site, i, s, env);
    var op := OperationAt(site, i);
    var ops := Pick(site.m, OpsOf(site.gs[i]));
    assert ops == [op];
    assert OutputsOf(ops[1..]) == {};
    assert OperationFits(site.m.operations[site.gs[i].op], site.m.operands);
    FitsInRange(op, site.m.operands);
  }

  lemma FitsInRange(op: Operation, operands: seq<Operand>)
    requires OperationFits(op, operands)
    ensures InRange(op.inputs, |operands|)
  {
  }

  /** A place that does not belong to the source models that group i added. */
  ghost predicate Outside(site: Site, i: nat, l: Location)
    requires i < |site.gs|
  {
    !(l.Slot? && site.NextAt(i) <= l.key.0 < site.NextAt(i) + GroupModels(site.gs[i]))
  }

  lemma OutsideIsNotMine(site: Site, i: nat, sub: Site, l: Location)
    requires Within(site, i, sub) && Outside(site, i, l)
    ensures !Mine(sub, l)
  {
    hide Models.Valid, Schedules, Passes, CodeSize, ModelCount;
  }

  /** Where group i writes an output: a place of its own, outside of the group. */
  lemma OutputPlace(site: Site, i: nat, s: State, env: Env, y: nat)
    requires site.Valid() && i < |site.gs| && Ready(site, i, s, env)
    requires y in HousedBy(site.m, site.Boundary(), site.gs[i])
    ensures (site.mi, y) in s.locations && Writable(s.locations[(site.mi, y)])
    ensures s.locations[(site.mi, y)] in WrittenBy(site, i, s)
    ensures Outside(site, i, s.locations[(site.mi, y)])
  {
    hide Models.Valid, Schedules, Passes, Faithful, Remaining, HousedBy, BoundaryReads, Ordered, OpsOf, CodeSize, ModelCount, GroupModels, Rest, WrittenBy;
    NextIsOrdered(site, i, s, env);
    OutputsAreWritable(site, i, s, env);
    HousedAreOutputs(site, i, env.Keys);
    OutputsAreWritten(site.m, OpsOf(site.gs[i]));
    WrittenByHas(site, i, s, y);
    SizesSplit(site.gs, i);
    if IsTemp(site.m, y) {
      assert AtHome((site.mi, y), s);
    } else {
      assert y in site.m.outputIndexes;
    }
  }

  /** The part of a group's rest that concerns operands of its own source model. */
  lemma OwnPartStays(site: Site, i: nat, s: State, s': State, env: Env)
    requires site.Valid() && i < |site.gs| && Ready(site, i, s, env) && !site.gs[i].Partition?
    requires GroupChanges(site, i, s, s')
    ensures Housed(site.m, site.Boundary(), site.gs[i], site.mi, s')
    ensures ConstantsInPlace(site.m, site.gs[i], site.mi, s')
    ensures forall l: Location :: l.Constant? ==> SameAt(s.store, s'.store, l)
  {
    hide Models.Valid, Schedules, Passes, Faithful, Remaining, Placed, Rest, HousedBy, BoundaryReads, Ordered, OpsOf, CodeSize, ModelCount, GroupModels, GroupSize, WrittenBy, ShallowValid, Housed, ConstantsInPlace;
    ValidIsShallow(site.m);
    NextIsOrdered(site, i, s, env);
    WritesSpareConstants(site, i, s, env);
    OwnLocationsStay(site, i, s, s');
    RestHasGroup(site, i, s);
    OwnPartIsKept(site.m, site.Boundary(), site.gs[i], site.mi, s, s');
  }

  /** Group i is done once its operation's outputs have their values and everything
      inside is at rest again. */
  lemma ControlFlowIsDone(site: Site, i: nat, s: State, s': State, env: Env, vals: seq<Bytes>)
    requires site.Valid() && i < |site.gs| && Ready(site, i, s, env)
    requires GroupFits(site.gs[i], site.m) && !site.gs[i].Partition?
    requires GroupChanges(site, i, s, s')
    requires RestGroup(site.m, site.Boundary(), site.gs[i], site.mi, site.BaseAt(i), site.NextAt(i), s')
    requires s'.pc == site.BaseAt(i) + GroupSize(site.gs[i])
    requires ValuesAre(s', Keys(site.mi, OperationAt(site, i).outputs), vals)
    ensures |vals| == |OperationAt(site, i).outputs|
    ensures GroupDone(site, i, s, s', env, Bind(env, OperationAt(site, i).outputs, vals))
  {
    hide Models.Valid, Schedules, Passes, Ready, HousedBy, BoundaryReads, Ordered, OpsOf, CodeSize, ModelCount, GroupModels, GroupSize, WrittenBy, RestGroup, GroupChanges, OperationFits, ValidPlacement, GroupFits, OutputsOf, Bind;
    OperandsInOrder(site, i, s, env);
    var outs := OperationAt(site, i).outputs;
    var env' := Bind(env, outs, vals);
    forall x | x in HousedBy(site.m, site.Boundary(), site.gs[i]) ensures Read(s', (site.mi, x)) == Some(env'[x]) {
      var j :| 0 <= j < |outs| && outs[j] == x;
      assert Read(s', Keys(site.mi, outs)[j]) == Some(vals[j]);
    }
  }
}
