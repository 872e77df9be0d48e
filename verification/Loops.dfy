/** A WHILE of the flat plan: what holds between its iterations, and how its two
    models are entered and left. */
module Loops {
  import opened Options
  import opened Models
  import opened Semantics
  import opened Scheduling
  import opened FlatPlans
  import opened Machine
  import opened Invariants
  import opened Simulation
  import opened PartitionSteps
  import opened Sites
  import opened Passing

  ghost predicate IsLoop(site: Site, i: nat)
    ensures IsLoop(site, i) ==> i < |site.gs| && site.gs[i].Loop? && GroupFits(site.gs[i], site.m)
  {
    i < |site.gs| && site.gs[i].Loop? && GroupFits(site.gs[i], site.m)
  }

  ghost function CondSite(site: Site, i: nat): Site
    requires IsLoop(site, i)
  {
    Site(OperationAt(site, i).placement.condModel, site.gs[i].condPlan, site.NextAt(i), site.BaseAt(i) + 1, site.NextAt(i) + 2)
  }

  ghost function BodySite(site: Site, i: nat): Site
    requires IsLoop(site, i)
  {
    var c := site.gs[i].condPlan;
    Site(OperationAt(site, i).placement.bodyModel, site.gs[i].bodyPlan, site.NextAt(i) + 1,
         site.BaseAt(i) + 2 + CodeSize(c), site.NextAt(i) + 2 + ModelCount(c))
  }

  ghost function Head(site: Site, i: nat): LogicalStep
    requires IsLoop(site, i)
  {
    WhileHead(OperationAt(site, i), site.gs[i].condPlan, site.gs[i].bodyPlan, site.mi, site.BaseAt(i), site.NextAt(i))
  }

  ghost predicate LoopFits(site: Site, i: nat)
    ensures LoopFits(site, i) ==> IsLoop(site, i) && site.Valid() && ShallowValid(CondSite(site, i).m) && ShallowValid(BodySite(site, i).m)
  {
    IsLoop(site, i) && site.Valid() && OperationFits(OperationAt(site, i), site.m.operands)
    && Within(site, i, CondSite(site, i)) && Within(site, i, BodySite(site, i))
    && ShallowValid(CondSite(site, i).m) && ShallowValid(BodySite(site, i).m)
  }

  lemma LoopLies(code: seq<LogicalStep>, site: Site, i: nat)
    requires Installed(code, site) && IsLoop(site, i)
    ensures LoopFits(site, i)
    ensures Installed(code, CondSite(site, i)) && Installed(code, BodySite(site, i))
    ensures site.BaseAt(i) < |code| && code[site.BaseAt(i)] == Head(site, i)
    ensures CondSite(site, i).End() < |code| && code[CondSite(site, i).End()] == GotoStep(site.BaseAt(i))
    ensures BodySite(site, i).End() < |code| && code[BodySite(site, i).End()] == GotoStep(site.BaseAt(i))
  {
    hide Emit, EmitGroups, WhileHead, BoundaryReads, Schedules, IsPermutation, Ordered, ShallowValid;
    GroupInstalled(code, site, i);
    var op, g, base, next := OperationAt(site, i), site.gs[i], site.BaseAt(i), site.NextAt(i);
    var c, b := CondSite(site, i), BodySite(site, i);
    LoopModelsAreValid(site, i);
    hide Models.Valid;
    var head, jump := [Head(site, i)], [GotoStep(base)];
    var first := Emit(c.m, c.gs, c.mi, c.base, c.next);
    var second := Emit(b.m, b.gs, b.mi, b.base, b.next);
    assert EmitGroup(site.m, site.Boundary(), g, site.mi, base, next) == head + first + jump + second + jump;
    CodeAtParts(code, base, head + first + jump + second, jump);
    CodeAtParts(code, base, head + first + jump, second);
    CodeAtParts(code, base, head + first, jump);
    CodeAtParts(code, base, head, first);
    assert code[base] == code[base..base + 1][0];
    assert code[c.End()] == code[c.End()..c.End() + 1][0];
    assert code[b.End()] == code[b.End()..b.End() + 1][0];
  }

  lemma LoopModelsAreValid(site: Site, i: nat)
    requires site.Valid() && IsLoop(site, i)
    ensures CondSite(site, i).Valid() && BodySite(site, i).Valid()
    ensures ShallowValid(CondSite(site, i).m) && ShallowValid(BodySite(site, i).m)
    ensures OperationFits(OperationAt(site, i), site.m.operands)
  {
    hide IsPermutation, Ordered, ShallowValid, OperationFits;
    var op := OperationAt(site, i);
    assert ValidPlacement(op.placement);
    ValidFits(site.m, site.gs[i].op);
    ValidIsShallow(op.placement.condModel);
    ValidIsShallow(op.placement.bodyModel);
  }

  lemma ValidFits(m: Model, o: nat)
    requires Models.Valid(m) && o < |m.operations|
    ensures OperationFits(m.operations[o], m.operands)
  {
    ValidIsShallow(m);
  }

  // ----- the state of the loop -----

  /** Input j of an iteration still comes from outside of the loop. */
  ghost predicate FromOutside(site: Site, i: nat, it: nat, j: nat)
    requires IsLoop(site, i)
  {
    it == 0 || j >= |OperationAt(site, i).placement.bodyModel.outputIndexes|
  }

  ghost function SourceKey(site: Site, i: nat, it: nat, j: nat): Key
    requires LoopFits(site, i) && WHILE_FIRST_INPUT + j < |OperationAt(site, i).inputs|
  {
    if FromOutside(site, i, it, j) then (site.mi, OperationAt(site, i).inputs[WHILE_FIRST_INPUT + j])
    else (BodySite(site, i).mi, BodySite(site, i).m.outputIndexes[j])
  }

  ghost predicate StartsWith(site: Site, i: nat, s0: State, init: seq<Bytes>)
    requires LoopFits(site, i)
  {
    AllSafe(site, i, s0, Keys(site.mi, OperationAt(site, i).inputs[WHILE_FIRST_INPUT..]), init)
  }

  /** Inputs that no iteration replaces still are the initial ones, the others are
      where the body put them. */
  ghost predicate StateIs(site: Site, i: nat, s: State, it: nat, state: seq<Bytes>, init: seq<Bytes>)
    requires LoopFits(site, i)
  {
    && |state| == |init| == |OperationAt(site, i).inputs| - WHILE_FIRST_INPUT
    && forall j :: 0 <= j < |state| ==>
         if FromOutside(site, i, it, j) then state[j] == init[j]
         else Read(s, SourceKey(site, i, it, j)) == Some(state[j])
  }

  /** What is true whenever control is at the loop itself. */
  ghost predicate Looping(site: Site, i: nat, s0: State, s: State)
    requires LoopFits(site, i)
  {
    var c, b := CondSite(site, i), BodySite(site, i);
    && s.pc == site.BaseAt(i)
    && LoopBuffers(OperationAt(site, i), site.NextAt(i), s)
    && Rest(c.m, c.gs, c.mi, c.base, c.next, s)
    && Rest(b.m, b.gs, b.mi, b.base, b.next, s)
    && NothingOmitted(c.m, c.mi, s) && NothingOmitted(b.m, b.mi, s)
    && InnerChanges(site, i, s0, s)
  }

  ghost predicate AtCondition(site: Site, i: nat, s0: State, s: State, it: nat, state: seq<Bytes>, init: seq<Bytes>)
    requires LoopFits(site, i)
  {
    && Looping(site, i, s0, s)
    && LoopState(s, s.pc) == WhileState(EvaluateCondition, if it == 0 then None else Some(it - 1))
    && StartsWith(site, i, s0, init)
    && StateIs(site, i, s, it, state, init)
  }

  ghost predicate AtBody(site: Site, i: nat, s0: State, s: State, it: nat, state: seq<Bytes>, init: seq<Bytes>)
    requires LoopFits(site, i)
  {
    var c := CondSite(site, i);
    && Looping(site, i, s0, s)
    && LoopState(s, s.pc) == WhileState(EvaluateBody, Some(it))
    && StartsWith(site, i, s0, init)
    && StateIs(site, i, s, it, state, init)
    && |state| == |c.m.inputIndexes|
    && forall j :: 0 <= j < |state| ==>
         && (c.mi, c.m.inputIndexes[j]) in s.locations && SourceKey(site, i, it, j) in s.locations
         && s.locations[(c.mi, c.m.inputIndexes[j])] == s.locations[SourceKey(site, i, it, j)]
  }

  /** Where the inputs of the iteration are: outside of the loop, or in a buffer of
      the body output that they come from. */
  lemma SourceIsInPlace(site: Site, i: nat, s0: State, s: State, it: nat, state: seq<Bytes>, init: seq<Bytes>, j: nat)
    requires LoopFits(site, i)
    requires InnerChanges(site, i, s0, s)
    requires LoopBuffers(OperationAt(site, i), site.NextAt(i), s)
    requires StartsWith(site, i, s0, init)
    requires StateIs(site, i, s, it, state, init) && j < |state|
    ensures var key := SourceKey(site, i, it, j);
            && key in s.locations && Read(s, key) == Some(state[j])
            && (FromOutside(site, i, it, j) ==> Outside(site, i, s.locations[key]) && s.locations[key] !in WrittenBy(site, i, s0))
            && (!FromOutside(site, i, it, j) ==> s.locations[key].Slot? && s.locations[key].key == key)
  {
    hide Models.Valid, Schedules, Passes, BoundaryReads, CodeSize, ModelCount, GroupModels, WrittenBy, GroupFits, Within, ShallowValid, OperationFits, InnerChanges;
    var op := OperationAt(site, i);
    var xs := op.inputs[WHILE_FIRST_INPUT..];
    if FromOutside(site, i, it, j) {
      assert Safe(site, i, s0, Keys(site.mi, xs)[j], init[j]);
      OuterPlaceStays(site, i, s0, s, xs[j]);
    } else {
      var x := BodySite(site, i).m.outputIndexes[j];
      assert x in BodySite(site, i).m.outputIndexes;
      assert DoubleBuffered((site.NextAt(i) + 1, x), s);
    }
  }

  lemma OuterPlaceStays(site: Site, i: nat, s0: State, s: State, x: nat)
    requires site.Valid() && i < |site.gs|
    requires InnerChanges(site, i, s0, s)
    ensures SameAt(s0.locations, s.locations, (site.mi, x))
    ensures (site.mi, x) in s0.locations && Outside(site, i, s0.locations[(site.mi, x)]) ==>
              Read(s, (site.mi, x)) == Read(s0, (site.mi, x))
  {
    hide Models.Valid, Schedules, Passes;
    SizesSplit(site.gs, i);
    if (site.mi, x) in s0.locations && Outside(site, i, s0.locations[(site.mi, x)]) {
      assert SameAt(s0.store, s.store, s0.locations[(site.mi, x)]);
    }
  }

  // ----- coming to the loop -----

  lemma LoopReads(site: Site, i: nat, s: State, env: Env)
    requires LoopFits(site, i) && Ready(site, i, s, env)
    requires Passable(OperationAt(site, i), site.m.operands)
    ensures var op := OperationAt(site, i);
            && |op.inputs| >= WHILE_FIRST_INPUT
            && Knows(env, op.inputs)
            && StartsWith(site, i, s, Get(env, op.inputs)[WHILE_FIRST_INPUT..])
  {
    hide Models.Valid, Schedules, Passes, Ready, Safe, HousedBy, BoundaryReads, OutputsOf, ValidPlacement, HasLocation;
    OperandsInOrder(site, i, s, env);
    var op := OperationAt(site, i);
    var xs := op.inputs[WHILE_FIRST_INPUT..];
    forall x | x in xs
      ensures x in GroupReads(site.m, site.gs[i]) && x in env && x < |site.m.operands| && HasLocation(site.m.operands[x].lifetime)
    {
      var j :| 0 <= j < |xs| && xs[j] == x;
      assert op.inputs[WHILE_FIRST_INPUT + j] == x;
      assert x in op.inputs;
      assert x in Passed(op);
    }
    ReadsAreSafe(site, i, s, env, xs);
    assert Get(env, op.inputs)[WHILE_FIRST_INPUT..] == Get(env, xs);
  }

  lemma LoopAtRest(site: Site, i: nat, s: State)
    requires LoopFits(site, i) && s.pc == site.BaseAt(i)
    requires Rest(site.m, site.gs, site.mi, site.base, site.next, s)
    ensures Looping(site, i, s, s) && LoopState(s, s.pc) == OUTSIDE_LOOP
  {
    hide GroupFits, BoundaryReads, Housed, ConstantsInPlace, LoopBuffers, NothingOmitted, CodeSize, ModelCount, Within, Models.Valid, Passes, Schedules, ShallowValid;
    RestHasGroup(site, i, s);
  }

  lemma LoopStarts(site: Site, i: nat, s: State, env: Env)
    requires LoopFits(site, i) && Ready(site, i, s, env)
    requires Passable(OperationAt(site, i), site.m.operands)
    ensures var op := OperationAt(site, i);
            && |op.inputs| >= WHILE_FIRST_INPUT && Knows(env, op.inputs)
            && var init := Get(env, op.inputs)[WHILE_FIRST_INPUT..];
            AtCondition(site, i, s, s, 0, init, init)
  {
    hide Models.Valid, Schedules, Passes, Rest, Faithful, Remaining, BoundaryReads, CodeSize, ModelCount, GroupFits, ShallowValid, Within, StartsWith, Looping;
    LoopReads(site, i, s, env);
    LoopAtRest(site, i, s);
  }

  // ----- evaluating the condition -----

  ghost function SourceKeys(site: Site, i: nat, it: nat): (r: seq<Key>)
    requires LoopFits(site, i)
    ensures |r| == |OperationAt(site, i).inputs| - WHILE_FIRST_INPUT == |CondSite(site, i).m.inputIndexes| == |BodySite(site, i).m.inputIndexes|
    ensures forall j :: 0 <= j < |r| ==> r[j] == SourceKey(site, i, it, j)
  {
    seq(|OperationAt(site, i).inputs| - WHILE_FIRST_INPUT, j requires 0 <= j < |OperationAt(site, i).inputs| - WHILE_FIRST_INPUT =>
      SourceKey(site, i, it, j))
  }

  lemma SourcesAreKeys(site: Site, i: nat, it: nat)
    requires LoopFits(site, i)
    ensures Sources(Head(site, i), it) == SourceKeys(site, i, it)
  {
    hide Sources, Source, SourceKeys, SourceKey, Keys, Models.Valid, Schedules, Passes, CodeSize, ModelCount, ShallowValid, Within, GroupFits, OperationFits, Head;
    HeadOperands(site, i);
    var a, b := Sources(Head(site, i), it), SourceKeys(site, i, it);
    forall j | 0 <= j < |b| ensures a[j] == b[j] {
      SourceIsKey(site, i, it, j);
    }
  }

  lemma HeadOperands(site: Site, i: nat)
    requires LoopFits(site, i)
    ensures var op, b := OperationAt(site, i), BodySite(site, i);
            && Head(site, i).WhileStep?
            && |op.inputs| >= WHILE_FIRST_INPUT
            && Head(site, i).outerInputs == Keys(site.mi, op.inputs[WHILE_FIRST_INPUT..])
            && Head(site, i).bodyOutputs == Keys(b.mi, b.m.outputIndexes)
            && |Head(site, i).outerInputs| == |op.inputs| - WHILE_FIRST_INPUT
  {
    hide Models.Valid, Schedules, Passes, CodeSize, ModelCount, ShallowValid, Within, Keys;
  }

  lemma SourceIsKey(site: Site, i: nat, it: nat, j: nat)
    requires LoopFits(site, i) && WHILE_FIRST_INPUT + j < |OperationAt(site, i).inputs|
    requires Head(site, i).WhileStep? && j < |Head(site, i).outerInputs|
    ensures Source(Head(site, i), it, j) == SourceKey(site, i, it, j)
  {
    hide Models.Valid, Schedules, Passes, CodeSize, ModelCount, ShallowValid, Within, Keys, Head, OperationFits, GroupFits;
    HeadOperands(site, i);
    var xs := OperationAt(site, i).inputs[WHILE_FIRST_INPUT..];
    assert Keys(site.mi, xs)[j] == (site.mi, xs[j]);
  }

  ghost predicate CondEntered(site: Site, i: nat, s: State, s1: State, it: nat)
    requires LoopFits(site, i)
  {
    var c := CondSite(site, i);
    && s1.pc == c.base && s1.locations2 == s.locations2 && s1.store == s.store
    && s1.loops == s.loops[site.BaseAt(i) := WhileState(EvaluateBody, Some(it))]
    && Moved(s.locations, s1.locations, SourceKeys(site, i, it), Keys(c.mi, c.m.inputIndexes))
  }

  lemma EntersCondition(k: Kernels, code: seq<LogicalStep>, site: Site, i: nat, s0: State, s: State, it: nat, state: seq<Bytes>, init: seq<Bytes>)
    returns (s1: State)
    requires LoopFits(site, i) && AtCondition(site, i, s0, s, it, state, init)
    requires s.pc < |code| && code[s.pc] == Head(site, i)
    ensures MicroStep(k, code, s) == To(s1)
    ensures CondEntered(site, i, s, s1, it)
  {
    hide Models.Valid, Schedules, Passes, CodeSize, ModelCount, ShallowValid, Within, GroupFits, Sources, SetInputs, Keys, InnerChanges, LoopBuffers, StartsWith, StateIs, Rest, OperationFits, Moved, SourceKey, SourceKeys, MicroStep;
    var c := CondSite(site, i);
    var outers, inners := SourceKeys(site, i, it), Keys(c.mi, c.m.inputIndexes);
    DistinctInputs(c.m);
    SourcesArePresent(site, i, s0, s, it, state, init);
    SetInputsMoves(s.locations, outers, inners);
    s1 := s.(pc := c.base, locations := SetInputs(s.locations, outers, inners).value,
             loops := s.loops[s.pc := WhileState(EvaluateBody, Some(it))]);
    StepEntersCondition(k, code, site, i, s, it, s1);
  }

  lemma SourcesArePresent(site: Site, i: nat, s0: State, s: State, it: nat, state: seq<Bytes>, init: seq<Bytes>)
    requires LoopFits(site, i) && AtCondition(site, i, s0, s, it, state, init)
    ensures var inners := Keys(CondSite(site, i).mi, CondSite(site, i).m.inputIndexes);
            forall key :: key in SourceKeys(site, i, it) ==> key in s.locations && key !in inners
  {
    hide AtCondition, Safe, Read, SourceKeys, SourceKey, Keys, Models.Valid, Schedules, Passes, CodeSize, ModelCount, ShallowValid, Within, GroupFits, OperationFits, InnerChanges, LoopBuffers, StateIs, StartsWith, Rest, Outside, WrittenBy, FromOutside, CondSite, BodySite;
    var c := CondSite(site, i);
    var outers, inners := SourceKeys(site, i, it), Keys(c.mi, c.m.inputIndexes);
    forall key | key in outers ensures key in s.locations && key !in inners {
      var j :| 0 <= j < |outers| && outers[j] == key;
      AtConditionHas(site, i, s0, s, it, state, init);
      SourceIsInPlace(site, i, s0, s, it, state, init, j);
      SourceIsNotInner(site, i, it, j);
    }
  }

  lemma AtConditionHas(site: Site, i: nat, s0: State, s: State, it: nat, state: seq<Bytes>, init: seq<Bytes>)
    requires LoopFits(site, i) && AtCondition(site, i, s0, s, it, state, init)
    ensures |state| == |init| == |SourceKeys(site, i, it)|
    ensures InnerChanges(site, i, s0, s) && LoopBuffers(OperationAt(site, i), site.NextAt(i), s)
    ensures StartsWith(site, i, s0, init) && StateIs(site, i, s, it, state, init)
  {
    hide Models.Valid, Schedules, Passes, CodeSize, ModelCount, ShallowValid, Within, GroupFits, OperationFits, InnerChanges, StartsWith, LoopBuffers, Rest;
  }

  lemma StepEntersCondition(k: Kernels, code: seq<LogicalStep>, site: Site, i: nat, s: State, it: nat, s1: State)
    requires LoopFits(site, i) && s.pc == site.BaseAt(i)
    requires s.pc < |code| && code[s.pc] == Head(site, i)
    requires LoopState(s, s.pc) == WhileState(EvaluateCondition, if it == 0 then None else Some(it - 1))
    requires var c := CondSite(site, i);
             && SetInputs(s.locations, SourceKeys(site, i, it), Keys(c.mi, c.m.inputIndexes)) == Some(s1.locations)
             && s1 == s.(pc := c.base, locations := s1.locations, loops := s.loops[s.pc := WhileState(EvaluateBody, Some(it))])
    ensures MicroStep(k, code, s) == To(s1)
  {
    hide Models.Valid, Schedules, Passes, CodeSize, ModelCount, ShallowValid, Within, GroupFits, SetInputs, Keys, OperationFits, SourceKeys, Sources, EnterCondition, LoopFits, EnterBodyOrExit;
    EntersWith(site, i, s, it, s1);
  }

  lemma EntersWith(site: Site, i: nat, s: State, it: nat, s1: State)
    requires LoopFits(site, i) && s.pc == site.BaseAt(i)
    requires LoopState(s, s.pc) == WhileState(EvaluateCondition, if it == 0 then None else Some(it - 1))
    requires var c := CondSite(site, i);
             && SetInputs(s.locations, SourceKeys(site, i, it), Keys(c.mi, c.m.inputIndexes)) == Some(s1.locations)
             && s1 == s.(pc := c.base, locations := s1.locations, loops := s.loops[s.pc := WhileState(EvaluateBody, Some(it))])
    ensures Head(site, i).WhileStep? && EnterCondition(Head(site, i), s) == To(s1)
  {
    hide Models.Valid, Schedules, Passes, CodeSize, ModelCount, ShallowValid, Within, GroupFits, OperationFits, Head, CondSite, BodySite, EnterCondition, LoopState, SetInputs, Sources, SourceKeys, Keys;
    SourcesAreKeys(site, i, it);
    HeadTargets(site, i);
    Entering(Head(site, i), s, it, s1);
  }

  lemma HeadTargets(site: Site, i: nat)
    requires LoopFits(site, i)
    ensures var c, b, w := CondSite(site, i), BodySite(site, i), Head(site, i);
            && w.WhileStep?
            && w.condStepIndex == c.base && w.bodyStepIndex == b.base
            && w.exitStepIndex == site.BaseAt(i) + GroupSize(site.gs[i])
            && w.condInputs == Keys(c.mi, c.m.inputIndexes) && w.bodyInputs == Keys(b.mi, b.m.inputIndexes)
            && |c.m.outputIndexes| == 1 && w.condOutput == (c.mi, c.m.outputIndexes[0])
            && w.bodyOutputs == Keys(b.mi, b.m.outputIndexes)
            && w.outerOutputs == Keys(site.mi, OperationAt(site, i).outputs)
            && |OperationAt(site, i).inputs| - WHILE_FIRST_INPUT == |c.m.inputIndexes| == |b.m.inputIndexes|
            && |OperationAt(site, i).outputs| <= |b.m.outputIndexes| <= |b.m.inputIndexes|
  {
    hide Models.Valid, Schedules, Passes, CodeSize, ModelCount, ShallowValid, Within, Keys;
  }

  lemma Entering(w: LogicalStep, s: State, it: nat, s1: State)
    requires w.WhileStep?
    requires LoopState(s, s.pc) == WhileState(EvaluateCondition, if it == 0 then None else Some(it - 1))
    requires SetInputs(s.locations, Sources(w, it), w.condInputs) == Some(s1.locations) && |w.bodyOutputs| <= |w.condInputs|
    requires s1 == s.(pc := w.condStepIndex, locations := s1.locations, loops := s.loops[s.pc := WhileState(EvaluateBody, Some(it))])
    ensures EnterCondition(w, s) == To(s1)
  {
    hide SetInputs, Sources;
  }

  lemma DistinctInputs(m: Model)
    requires ShallowValid(m)
    ensures Distinct(m.inputIndexes) && Distinct(m.outputIndexes)
    ensures forall x :: x in m.inputIndexes ==> x !in m.outputIndexes
  {
  }

  lemma StateLength(site: Site, i: nat, s: State, it: nat, state: seq<Bytes>, init: seq<Bytes>)
    requires LoopFits(site, i) && StateIs(site, i, s, it, state, init)
    ensures |state| == |init| == |SourceKeys(site, i, it)|
  {
  }

  lemma SourceIsNotInner(site: Site, i: nat, it: nat, j: nat)
    requires LoopFits(site, i) && WHILE_FIRST_INPUT + j < |OperationAt(site, i).inputs|
    ensures SourceKey(site, i, it, j).0 != CondSite(site, i).mi
    ensures SourceKey(site, i, it, j).0 == site.mi || SourceKey(site, i, it, j).0 == BodySite(site, i).mi
  {
    hide Models.Valid, Schedules, Passes, CodeSize, ModelCount, ShallowValid, OperationFits;
    WithinIsValid(site, i, CondSite(site, i));
  }

  /** Where an input of the condition or the body may be during the loop. */
  lemma SourceIsNotMine(site: Site, i: nat, sub: Site, key: Key, l: Location)
    requires LoopFits(site, i) && (sub == CondSite(site, i) || sub == BodySite(site, i))
    requires Outside(site, i, l) || (l.Slot? && l.key.0 == BodySite(site, i).mi && l.key.1 in BodySite(site, i).m.outputIndexes)
    ensures !Mine(sub, l)
  {
    hide Models.Valid, Schedules, Passes, ShallowValid, OperationFits, GroupFits;
    if Outside(site, i, l) {
      OutsideIsNotMine(site, i, sub, l);
    }
  }

  lemma CondInput(site: Site, i: nat, s0: State, s: State, s1: State, it: nat, state: seq<Bytes>, init: seq<Bytes>, j: nat)
    requires LoopFits(site, i) && AtCondition(site, i, s0, s, it, state, init)
    requires CondEntered(site, i, s, s1, it)
    requires j < |CondSite(site, i).m.inputIndexes|
    ensures |state| == |CondSite(site, i).m.inputIndexes|
    ensures var c := CondSite(site, i);
            var key := (c.mi, c.m.inputIndexes[j]);
            && key in s1.locations && Read(s1, key) == Some(state[j])
            && SourceKey(site, i, it, j) in s.locations && s1.locations[key] == s.locations[SourceKey(site, i, it, j)]
            && !Mine(c, s1.locations[key])
            && (s1.locations[key].Slot? ==> s1.locations[key].key.0 != c.mi)
  {
    hide Models.Valid, Schedules, Passes, CodeSize, ModelCount, ShallowValid, GroupFits, Rest, OperationFits, InnerChanges, LoopBuffers, StartsWith, StateIs, SourceKey, Mine, Within, BoundaryReads, WrittenBy, Outside, FromOutside;
    StateLength(site, i, s, it, state, init);
    SourceIsInPlace(site, i, s0, s, it, state, init, j);
    var c := CondSite(site, i);
    assert Keys(c.mi, c.m.inputIndexes)[j] == (c.mi, c.m.inputIndexes[j]);
    var l := s1.locations[(c.mi, c.m.inputIndexes[j])];
    if !FromOutside(site, i, it, j) { BodySourceKey(site, i, it, j); }
    SourceIsNotMine(site, i, c, SourceKey(site, i, it, j), l);
    OutsideIsNotCond(site, i, l);
  }

  lemma BodySourceKey(site: Site, i: nat, it: nat, j: nat)
    requires LoopFits(site, i) && WHILE_FIRST_INPUT + j < |OperationAt(site, i).inputs|
    requires !FromOutside(site, i, it, j)
    ensures var b := BodySite(site, i);
            && j < |b.m.outputIndexes|
            && SourceKey(site, i, it, j) == (b.mi, b.m.outputIndexes[j]) && b.m.outputIndexes[j] in b.m.outputIndexes
            && b.mi != CondSite(site, i).mi && b.mi != site.mi
  {
    hide Models.Valid, Schedules, Passes, CodeSize, ModelCount, ShallowValid, OperationFits;
    WithinIsValid(site, i, CondSite(site, i));
  }

  lemma OutsideIsNotCond(site: Site, i: nat, l: Location)
    requires LoopFits(site, i)
    ensures Outside(site, i, l) && l.Slot? ==> l.key.0 != CondSite(site, i).mi && l.key.0 != BodySite(site, i).mi
    ensures l.Slot? && l.key.0 == BodySite(site, i).mi ==> l.key.0 != CondSite(site, i).mi
  {
    hide Models.Valid, Schedules, Passes, CodeSize, ModelCount, ShallowValid, OperationFits;
  }

  lemma ConditionIsEntered(site: Site, i: nat, s0: State, s: State, s1: State, it: nat, state: seq<Bytes>, init: seq<Bytes>)
    requires LoopFits(site, i) && AtCondition(site, i, s0, s, it, state, init)
    requires CondEntered(site, i, s, s1, it)
    ensures Entered(CondSite(site, i), s1, state)
  {
    hide Models.Valid, Schedules, Passes, CodeSize, ModelCount, ShallowValid, GroupFits, Rest, OperationFits, InnerChanges, LoopBuffers, StartsWith, StateIs, SourceKey, Mine, Within, BoundaryReads, Placed;
    var c := CondSite(site, i);
    var ins := c.m.inputIndexes;
    StateLength(site, i, s, it, state, init);
    CondRests(site, i, s, s1, it);
    CondIsPlaced(site, i, s0, s, s1, it, state, init);
    forall j | 0 <= j < |ins| ensures Read(s1, Keys(c.mi, ins)[j]) == Some(state[j]) {
      CondInput(site, i, s0, s, s1, it, state, init, j);
    }
  }

  lemma CondRests(site: Site, i: nat, s: State, s1: State, it: nat)
    requires LoopFits(site, i) && CondEntered(site, i, s, s1, it)
    requires var c := CondSite(site, i); Rest(c.m, c.gs, c.mi, c.base, c.next, s)
    ensures var c := CondSite(site, i); Rest(c.m, c.gs, c.mi, c.base, c.next, s1)
  {
    hide Models.Valid, Schedules, Passes, CodeSize, ModelCount, ShallowValid, GroupFits, Rest, OperationFits, SourceKeys, Keys;
    var c := CondSite(site, i);
    forall key: Key | key.0 != c.mi || (key.1 !in c.m.inputIndexes && key.1 !in c.m.outputIndexes) ensures SameAt(s.locations, s1.locations, key) {
      assert key !in Keys(c.mi, c.m.inputIndexes);
    }
    MovingKeepsRest(c, s, s1);
  }

  lemma CondIsPlaced(site: Site, i: nat, s0: State, s: State, s1: State, it: nat, state: seq<Bytes>, init: seq<Bytes>)
    requires LoopFits(site, i) && AtCondition(site, i, s0, s, it, state, init)
    requires CondEntered(site, i, s, s1, it)
    ensures Placed(CondSite(site, i), s1)
    ensures forall x :: x in CondSite(site, i).m.outputIndexes ==> AtHome((CondSite(site, i).mi, x), s1)
  {
    hide Models.Valid, Schedules, Passes, CodeSize, ModelCount, ShallowValid, GroupFits, Rest, OperationFits, InnerChanges, StartsWith, StateIs, SourceKey, Within, BoundaryReads, Keys, SourceKeys;
    var c := CondSite(site, i);
    var ins, outs := c.m.inputIndexes, c.m.outputIndexes;
    DistinctInputs(c.m);
    CondOmits(site, i, s, s1, it);
    forall x | x in ins ensures (c.mi, x) in s1.locations && !Mine(c, s1.locations[(c.mi, x)])
      ensures s1.locations[(c.mi, x)].Slot? ==> s1.locations[(c.mi, x)].key.0 != c.mi
    {
      var j :| 0 <= j < |ins| && ins[j] == x;
      CondInput(site, i, s0, s, s1, it, state, init, j);
    }
    forall x | x in outs ensures AtHome((c.mi, x), s1) {
      assert AtHome((c.mi, x), s);
      assert (c.mi, x) !in Keys(c.mi, ins);
      assert SameAt(s.locations, s1.locations, (c.mi, x));
    }
    forall x, y | x in outs && (y in outs || y in ins) && x != y ensures s1.locations[(c.mi, x)] != s1.locations[(c.mi, y)] {
      assert AtHome((c.mi, x), s1);
      if y in outs { assert AtHome((c.mi, y), s1); }
    }
    NextIsAfter(c);
  }

  lemma CondOmits(site: Site, i: nat, s: State, s1: State, it: nat)
    requires LoopFits(site, i) && CondEntered(site, i, s, s1, it)
    requires NothingOmitted(CondSite(site, i).m, CondSite(site, i).mi, s)
    ensures NothingOmitted(CondSite(site, i).m, CondSite(site, i).mi, s1)
  {
    hide Models.Valid, Schedules, Passes, CodeSize, ModelCount, GroupFits, OperationFits, SourceKeys, Keys, Ordered, Within, CondSite, NothingOmitted;
    var c := CondSite(site, i);
    forall key: Key | key.0 != c.mi || (key.1 !in c.m.inputIndexes && key.1 !in c.m.outputIndexes) ensures SameAt(s.locations, s1.locations, key) {
      assert key !in Keys(c.mi, c.m.inputIndexes);
    }
    LendingOmits(c.m, c.mi, s, s1);
  }

  lemma BodyOmits(site: Site, i: nat, s: State, s1: State, it: nat)
    requires LoopFits(site, i) && BodyEntered(site, i, s, s1, it)
    requires NothingOmitted(BodySite(site, i).m, BodySite(site, i).mi, s)
    ensures NothingOmitted(BodySite(site, i).m, BodySite(site, i).mi, s1)
  {
    hide Models.Valid, Schedules, Passes, CodeSize, ModelCount, GroupFits, OperationFits, Keys, Ordered, Within, BodySite, CondSite, NothingOmitted, Swapped;
    var b := BodySite(site, i);
    LendingOmits(b.m, b.mi, s, s1);
  }

  lemma NextIsAfter(sub: Site)
    requires sub.mi < sub.next
    ensures forall x: nat, b :: x in sub.m.outputIndexes ==> !Mine(sub, Slot((sub.mi, x), b))
  {
  }

  lemma CondMoves(site: Site, i: nat, s: State, s1: State, it: nat)
    requires LoopFits(site, i) && CondEntered(site, i, s, s1, it)
    ensures var c := CondSite(site, i); Changes(c.mi, c.mi + 1, site.BaseAt(i), site.BaseAt(i) + 1, {}, s, s1)
    ensures InnerChanges(site, i, s, s1)
  {
    hide Models.Valid, Schedules, Passes, CodeSize, ModelCount, ShallowValid, GroupFits, OperationFits, SourceKeys, Keys;
    var c := CondSite(site, i);
    forall key: Key | key.0 != c.mi ensures SameAt(s.locations, s1.locations, key) {
      assert key !in Keys(c.mi, c.m.inputIndexes);
    }
    ChangesWiden(c.mi, c.mi + 1, site.BaseAt(i), site.BaseAt(i) + 1, {}, site.NextAt(i), site.NextAt(i) + GroupModels(site.gs[i]),
                 site.BaseAt(i), site.BaseAt(i) + GroupSize(site.gs[i]), {}, s, s1);
  }

  lemma CondOwnPlaces(site: Site, i: nat, s1: State)
    requires LoopFits(site, i)
    requires forall x :: x in CondSite(site, i).m.outputIndexes ==> AtHome((CondSite(site, i).mi, x), s1)
    ensures forall l :: l in OwnPlaces(CondSite(site, i), s1) ==> l.Slot? && l.key.0 == CondSite(site, i).mi
  {
    hide Models.Valid, Schedules, Passes, CodeSize, ModelCount, ShallowValid, GroupFits, OperationFits, Within;
    var c := CondSite(site, i);
    forall l | l in OwnPlaces(c, s1) ensures l.Slot? && l.key.0 == c.mi {
      if x :| x in c.m.outputIndexes && (c.mi, x) in s1.locations && s1.locations[(c.mi, x)] == l {
        assert AtHome((c.mi, x), s1);
      } else {
        assert exists x :: 0 <= x < |c.m.operands| && l == Slot((c.mi, x), false);
      }
    }
  }

  /** The state after the condition was evaluated and control came back to the loop. */
  ghost predicate CondLeft(site: Site, i: nat, s: State, s1: State, s2: State, it: nat, vals: seq<Bytes>)
    requires LoopFits(site, i)
  {
    && CondEntered(site, i, s, s1, it)
    && (forall x :: x in CondSite(site, i).m.outputIndexes ==> AtHome((CondSite(site, i).mi, x), s1))
    && Left(CondSite(site, i), s1, s2, vals)
  }

  lemma CondChanges(site: Site, i: nat, s0: State, s: State, s1: State, s2: State, it: nat, vals: seq<Bytes>)
    requires LoopFits(site, i) && InnerChanges(site, i, s0, s) && CondLeft(site, i, s, s1, s2, it, vals)
    ensures InnerChanges(site, i, s0, s2)
  {
    hide Models.Valid, Schedules, Passes, CodeSize, ModelCount, ShallowValid, GroupFits, OperationFits, CondEntered, OwnPlaces, Rest, ValuesAre, Changes;
    var c := CondSite(site, i);
    var lo, hi := site.NextAt(i), site.NextAt(i) + GroupModels(site.gs[i]);
    var from, to := site.BaseAt(i), site.BaseAt(i) + GroupSize(site.gs[i]);
    CondMoves(site, i, s, s1, it);
    CondOwnPlaces(site, i, s1);
    ChangesWiden(c.next, c.Top(), c.base, c.End(), OwnPlaces(c, s1), lo, hi, from, to, {}, s1, s2);
    ChangesCompose(lo, hi, from, to, {}, s0, s, s1);
    ChangesCompose(lo, hi, from, to, {}, s0, s1, s2);
  }

  /** Operands of the referring model and of the body are where they were. */
  lemma CondKeepsPlaces(site: Site, i: nat, s: State, s1: State, s2: State, it: nat, vals: seq<Bytes>, key: Key)
    requires LoopFits(site, i) && CondLeft(site, i, s, s1, s2, it, vals)
    requires key.0 == site.mi || key.0 == BodySite(site, i).mi
    ensures SameAt(s.locations, s2.locations, key) && SameAt(s.locations2, s2.locations2, key)
    ensures key in s.locations && s.locations[key].Slot? && s.locations[key].key == key && key.0 == BodySite(site, i).mi ==>
              Read(s2, key) == Read(s, key)
  {
    hide Models.Valid, Schedules, Passes, CodeSize, ModelCount, ShallowValid, GroupFits, OperationFits, CondEntered, OwnPlaces, Rest, ValuesAre;
    var c := CondSite(site, i);
    WithinIsValid(site, i, c);
    CondMoves(site, i, s, s1, it);
    CondOwnPlaces(site, i, s1);
    assert SameAt(s.locations, s1.locations, key) && SameAt(s1.locations, s2.locations, key);
    assert SameAt(s.locations2, s1.locations2, key) && SameAt(s1.locations2, s2.locations2, key);
    if key in s.locations && s.locations[key].Slot? && s.locations[key].key == key && key.0 == BodySite(site, i).mi {
      var l := s.locations[key];
      assert SameAt(s.store, s1.store, l) && SameAt(s1.store, s2.store, l);
    }
  }

  lemma CondKeepsOwn(site: Site, i: nat, s: State, s1: State, s2: State, it: nat, vals: seq<Bytes>)
    requires LoopFits(site, i) && CondLeft(site, i, s, s1, s2, it, vals)
    ensures forall x: nat :: SameAt(s1.locations, s2.locations, (CondSite(site, i).mi, x))
    ensures LoopState(s2, site.BaseAt(i)) == WhileState(EvaluateBody, Some(it))
  {
    hide Models.Valid, Schedules, Passes, CodeSize, ModelCount, ShallowValid, GroupFits, OperationFits, OwnPlaces, Rest, ValuesAre, Moved;
    var c := CondSite(site, i);
    OwnPlacesStay(c, s1, s2);
    assert SameAt(s1.loops, s2.loops, site.BaseAt(i));
  }

  lemma CondKeepsBuffers(site: Site, i: nat, s: State, s1: State, s2: State, it: nat, vals: seq<Bytes>)
    requires LoopFits(site, i) && CondLeft(site, i, s, s1, s2, it, vals)
    requires LoopBuffers(OperationAt(site, i), site.NextAt(i), s)
    ensures LoopBuffers(OperationAt(site, i), site.NextAt(i), s2)
  {
    hide Models.Valid, Schedules, Passes, CodeSize, ModelCount, ShallowValid, GroupFits, OperationFits, Left, Within, CondEntered;
    var c, b := CondSite(site, i), BodySite(site, i);
    CondKeepsOwn(site, i, s, s1, s2, it, vals);
    forall x | x in b.m.outputIndexes ensures DoubleBuffered((site.NextAt(i) + 1, x), s2) {
      CondKeepsPlaces(site, i, s, s1, s2, it, vals, (b.mi, x));
      assert DoubleBuffered((site.NextAt(i) + 1, x), s);
    }
    forall x | x in c.m.outputIndexes ensures AtHome((site.NextAt(i), x), s2) {
      assert AtHome((c.mi, x), s1);
      assert SameAt(s1.locations, s2.locations, (c.mi, x));
    }
  }

  lemma BodyRestsMeanwhile(site: Site, i: nat, s: State, s1: State, s2: State, it: nat, vals: seq<Bytes>)
    requires LoopFits(site, i) && CondLeft(site, i, s, s1, s2, it, vals)
    requires var b := BodySite(site, i); Rest(b.m, b.gs, b.mi, b.base, b.next, s)
    ensures var b := BodySite(site, i); Rest(b.m, b.gs, b.mi, b.base, b.next, s2)
  {
    hide Models.Valid, Schedules, Passes, CodeSize, ModelCount, ShallowValid, GroupFits, OperationFits, OwnPlaces, Rest, ValuesAre, Changes, CondEntered;
    var c, b := CondSite(site, i), BodySite(site, i);
    CondMoves(site, i, s, s1, it);
    CondOwnPlaces(site, i, s1);
    ElsewhereKeepsRest(b, c.mi, c.mi + 1, site.BaseAt(i), site.BaseAt(i) + 1, {}, s, s1);
    ElsewhereKeepsRest(b, c.next, c.Top(), c.base, c.End(), OwnPlaces(c, s1), s1, s2);
  }

  lemma RestAnywhere(sub: Site, s: State, pc: nat)
    requires sub.Valid() && Rest(sub.m, sub.gs, sub.mi, sub.base, sub.next, s)
    ensures Rest(sub.m, sub.gs, sub.mi, sub.base, sub.next, s.(pc := pc))
  {
    hide Models.Valid, Schedules, Passes, CodeSize, ModelCount, Rest;
    MovingKeepsRest(sub, s, s.(pc := pc));
  }

  lemma ConditionIsLeft(site: Site, i: nat, s0: State, s: State, s1: State, s2: State, it: nat, state: seq<Bytes>, init: seq<Bytes>, vals: seq<Bytes>)
    returns (s': State)
    requires LoopFits(site, i) && AtCondition(site, i, s0, s, it, state, init)
    requires CondEntered(site, i, s, s1, it)
    requires Left(CondSite(site, i), s1, s2, vals)
    ensures s' == s2.(pc := site.BaseAt(i))
    ensures AtBody(site, i, s0, s', it, state, init)
    ensures |CondSite(site, i).m.outputIndexes| == |vals| == 1
    ensures Read(s', (CondSite(site, i).mi, CondSite(site, i).m.outputIndexes[0])) == Some(vals[0])
  {
    hide Models.Valid, Schedules, Passes, CodeSize, ModelCount, ShallowValid, GroupFits, OperationFits, Rest, CondEntered, Within, InnerChanges, LoopBuffers, StateIs, StartsWith, SiteChanges, SourceKey, BodySite;
    var c := CondSite(site, i);
    s' := s2.(pc := site.BaseAt(i));
    CondIsPlaced(site, i, s0, s, s1, it, state, init);
    assert CondLeft(site, i, s, s1, s2, it, vals);
    HeadTargets(site, i);
    StateLength(site, i, s, it, state, init);
    assert Read(s2, Keys(c.mi, c.m.outputIndexes)[0]) == Some(vals[0]);
    LoopingAfterCond(site, i, s0, s, s1, s2, it, vals);
    CondKeepsOwn(site, i, s, s1, s2, it, vals);
    StateAfterCond(site, i, s0, s, s1, s2, it, state, init, vals);
    forall j | 0 <= j < |state|
      ensures (c.mi, c.m.inputIndexes[j]) in s'.locations && SourceKey(site, i, it, j) in s'.locations
      ensures s'.locations[(c.mi, c.m.inputIndexes[j])] == s'.locations[SourceKey(site, i, it, j)]
    {
      CondInput(site, i, s0, s, s1, it, state, init, j);
      SourceIsNotInner(site, i, it, j);
      CondKeepsPlaces(site, i, s, s1, s2, it, vals, SourceKey(site, i, it, j));
      assert SameAt(s1.locations, s2.locations, (c.mi, c.m.inputIndexes[j]));
    }
  }

  lemma LoopingAfterCond(site: Site, i: nat, s0: State, s: State, s1: State, s2: State, it: nat, vals: seq<Bytes>)
    requires LoopFits(site, i) && Looping(site, i, s0, s) && CondLeft(site, i, s, s1, s2, it, vals)
    ensures Looping(site, i, s0, s2.(pc := site.BaseAt(i)))
  {
    hide Models.Valid, Schedules, Passes, CodeSize, ModelCount, ShallowValid, GroupFits, OperationFits, Rest, CondEntered, SiteChanges, OwnPlaces;
    var c, b := CondSite(site, i), BodySite(site, i);
    CondChanges(site, i, s0, s, s1, s2, it, vals);
    CondKeepsBuffers(site, i, s, s1, s2, it, vals);
    BodyRestsMeanwhile(site, i, s, s1, s2, it, vals);
    RestAnywhere(c, s2, site.BaseAt(i));
    RestAnywhere(b, s2, site.BaseAt(i));
    CondKeepsOmitted(site, i, s, s1, s2, it, vals);
  }

  lemma CondKeepsOmitted(site: Site, i: nat, s: State, s1: State, s2: State, it: nat, vals: seq<Bytes>)
    requires LoopFits(site, i) && CondLeft(site, i, s, s1, s2, it, vals)
    requires NothingOmitted(CondSite(site, i).m, CondSite(site, i).mi, s) && NothingOmitted(BodySite(site, i).m, BodySite(site, i).mi, s)
    ensures NothingOmitted(CondSite(site, i).m, CondSite(site, i).mi, s2) && NothingOmitted(BodySite(site, i).m, BodySite(site, i).mi, s2)
  {
    hide Models.Valid, Schedules, Passes, CodeSize, ModelCount, ShallowValid, GroupFits, OperationFits, Left, Within, CondEntered, CondSite, BodySite, NothingOmitted, AtHome;
    var c, b := CondSite(site, i), BodySite(site, i);
    CondOmits(site, i, s, s1, it);
    CondKeepsOwn(site, i, s, s1, s2, it, vals);
    OmittedIsKept(c.m, c.mi, s1, s2);
    forall x: nat ensures SameAt(s.locations, s2.locations, (b.mi, x)) {
      CondKeepsPlaces(site, i, s, s1, s2, it, vals, (b.mi, x));
    }
    OmittedIsKept(b.m, b.mi, s, s2);
  }

  lemma StateAfterCond(site: Site, i: nat, s0: State, s: State, s1: State, s2: State, it: nat, state: seq<Bytes>, init: seq<Bytes>, vals: seq<Bytes>)
    requires LoopFits(site, i) && AtCondition(site, i, s0, s, it, state, init) && CondLeft(site, i, s, s1, s2, it, vals)
    ensures StateIs(site, i, s2.(pc := site.BaseAt(i)), it, state, init)
  {
    hide Models.Valid, Schedules, Passes, CodeSize, ModelCount, ShallowValid, GroupFits, OperationFits, Rest, CondEntered, SiteChanges, OwnPlaces, SourceKey, CondLeft, StartsWith, LoopBuffers, InnerChanges, FromOutside;
    forall j | 0 <= j < |state| && !FromOutside(site, i, it, j) ensures Read(s2, SourceKey(site, i, it, j)) == Some(state[j]) {
      SourceIsInPlace(site, i, s0, s, it, state, init, j);
      BodySourceKey(site, i, it, j);
      CondKeepsPlaces(site, i, s, s1, s2, it, vals, SourceKey(site, i, it, j));
    }
  }

  // ----- running the body -----

  /** The inputs of the body are where those of the condition are; from the second
      iteration on its outputs have changed buffers. */
  ghost predicate BodyEntered(site: Site, i: nat, s: State, s1: State, it: nat)
    requires LoopFits(site, i)
  {
    var c, b := CondSite(site, i), BodySite(site, i);
    var ins, outs := b.m.inputIndexes, b.m.outputIndexes;
    && s1.pc == b.base && s1.store == s.store
    && s1.loops == s.loops[site.BaseAt(i) := WhileState(EvaluateCondition, Some(it))]
    && (forall key: Key :: key.0 != b.mi || (key.1 !in ins && key.1 !in outs) ==> SameAt(s.locations, s1.locations, key))
    && (forall key: Key :: key.0 != b.mi || key.1 !in outs ==> SameAt(s.locations2, s1.locations2, key))
    && |ins| == |c.m.inputIndexes|
    && (forall j :: 0 <= j < |ins| ==>
          && (c.mi, c.m.inputIndexes[j]) in s.locations && (b.mi, ins[j]) in s1.locations
          && s1.locations[(b.mi, ins[j])] == s.locations[(c.mi, c.m.inputIndexes[j])])
    && (forall x :: x in outs ==> Swapped(s, s1, (b.mi, x), it != 0))
  }

  ghost predicate Swapped(s: State, s1: State, key: Key, swap: bool) {
    && key in s.locations && key in s.locations2 && key in s1.locations && key in s1.locations2
    && s1.locations[key] == (if swap then s.locations2[key] else s.locations[key])
    && s1.locations2[key] == (if swap then s.locations[key] else s.locations2[key])
  }

  lemma EntersBody(k: Kernels, code: seq<LogicalStep>, site: Site, i: nat, s0: State, s: State, it: nat, state: seq<Bytes>, init: seq<Bytes>, v: Bytes)
    returns (s1: State)
    requires LoopFits(site, i) && AtBody(site, i, s0, s, it, state, init)
    requires s.pc < |code| && code[s.pc] == Head(site, i)
    requires |CondSite(site, i).m.outputIndexes| == 1
    requires Read(s, (CondSite(site, i).mi, CondSite(site, i).m.outputIndexes[0])) == Some(v) && IsTrue(v)
    ensures MicroStep(k, code, s) == To(s1)
    ensures BodyEntered(site, i, s, s1, it)
  {
    hide *;
    AtBodyHas(site, i, s0, s, it, state, init);
    var c, b := CondSite(site, i), BodySite(site, i);
    var outers, inners := Keys(c.mi, c.m.inputIndexes), Keys(b.mi, b.m.inputIndexes);
    HeadTargets(site, i);
    CondInputsArePresent(site, i, s0, s, it, state, init);
    DistinctInputs(b.m);
    SetInputsMoves(s.locations, outers, inners);
    var ls := SetInputs(s.locations, outers, inners).value;
    BuffersArePresent(site, i, s, ls);
    s1 := StepEntersBody(k, code, Head(site, i), s, ls, it, v);
    BodyMovesFrom(site, i, s, ls, s1, it);
    BodyEnteredFrom(site, i, s, ls, s1, it);
  }

  lemma BodyMovesFrom(site: Site, i: nat, s: State, ls: Locations, s1: State, it: nat)
    requires LoopFits(site, i)
    requires var c, b := CondSite(site, i), BodySite(site, i);
             && Moved(s.locations, ls, Keys(c.mi, c.m.inputIndexes), Keys(b.mi, b.m.inputIndexes))
             && (forall key :: key in Keys(b.mi, b.m.outputIndexes) ==>
                   key in s.locations && key in s.locations2 && key in ls && ls[key] == s.locations[key])
             && s1.locations == (if it == 0 then ls else Exchange(ls, s.locations2, Keys(b.mi, b.m.outputIndexes)))
             && s1.locations2 == (if it == 0 then s.locations2 else Exchange(s.locations2, ls, Keys(b.mi, b.m.outputIndexes)))
    ensures BodyMoves(site, i, s, ls, s1, it)
  {
    hide Moved, Exchange, Keys, LoopFits, IsLoop;
  }

  lemma AtBodyHas(site: Site, i: nat, s0: State, s: State, it: nat, state: seq<Bytes>, init: seq<Bytes>)
    requires LoopFits(site, i) && AtBody(site, i, s0, s, it, state, init)
    ensures s.pc == site.BaseAt(i) && LoopState(s, s.pc) == WhileState(EvaluateBody, Some(it))
    ensures Looping(site, i, s0, s)
    ensures LoopBuffers(OperationAt(site, i), site.NextAt(i), s) && InnerChanges(site, i, s0, s)
    ensures StartsWith(site, i, s0, init) && StateIs(site, i, s, it, state, init)
    ensures |state| == |init| == |CondSite(site, i).m.inputIndexes| == |BodySite(site, i).m.inputIndexes|
    ensures |state| == |OperationAt(site, i).inputs| - WHILE_FIRST_INPUT
  {
    hide Models.Valid, Schedules, Passes, CodeSize, ModelCount, ShallowValid, Within, GroupFits, InnerChanges, StartsWith, LoopBuffers, Rest;
    HeadTargets(site, i);
  }

  lemma CondInputsArePresent(site: Site, i: nat, s0: State, s: State, it: nat, state: seq<Bytes>, init: seq<Bytes>)
    requires LoopFits(site, i) && AtBody(site, i, s0, s, it, state, init)
    ensures var c, b := CondSite(site, i), BodySite(site, i);
            && |c.m.inputIndexes| == |b.m.inputIndexes|
            && c.mi != b.mi
            && forall key :: key in Keys(c.mi, c.m.inputIndexes) ==> key in s.locations && key !in Keys(b.mi, b.m.inputIndexes)
  {
    hide Models.Valid, Schedules, Passes, CodeSize, ModelCount, ShallowValid, GroupFits, InnerChanges, StartsWith, StateIs, Rest, SourceKey, LoopBuffers, Keys;
    var c, b := CondSite(site, i), BodySite(site, i);
    var outers := Keys(c.mi, c.m.inputIndexes);
    assert SourceKeys(site, i, it) == SourceKeys(site, i, it);
    forall key | key in outers ensures key in s.locations && key !in Keys(b.mi, b.m.inputIndexes) {
      var j :| 0 <= j < |outers| && outers[j] == key;
      assert key == (c.mi, c.m.inputIndexes[j]);
    }
  }

  lemma BuffersArePresent(site: Site, i: nat, s: State, ls: Locations)
    requires LoopFits(site, i) && LoopBuffers(OperationAt(site, i), site.NextAt(i), s)
    requires var c, b := CondSite(site, i), BodySite(site, i);
             Moved(s.locations, ls, Keys(c.mi, c.m.inputIndexes), Keys(b.mi, b.m.inputIndexes))
    ensures var b := BodySite(site, i);
            forall key :: key in Keys(b.mi, b.m.outputIndexes) ==>
              key in s.locations && key in s.locations2 && key in ls && ls[key] == s.locations[key] && ls[key].Slot?
  {
    hide Models.Valid, Schedules, Passes, CodeSize, ModelCount, ShallowValid, GroupFits, Keys, Within, OperationFits;
    var b := BodySite(site, i);
    DistinctInputs(b.m);
    forall key | key in Keys(b.mi, b.m.outputIndexes)
      ensures key in s.locations && key in s.locations2 && key in ls && ls[key] == s.locations[key] && ls[key].Slot?
    {
      assert DoubleBuffered((site.NextAt(i) + 1, key.1), s);
      assert SameAt(s.locations, ls, key);
    }
  }

  lemma StepEntersBody(k: Kernels, code: seq<LogicalStep>, w: LogicalStep, s: State, ls: Locations, it: nat, v: Bytes) returns (s1: State)
    requires s.pc < |code| && code[s.pc] == w && w.WhileStep?
    requires LoopState(s, s.pc) == WhileState(EvaluateBody, Some(it))
    requires Read(s, w.condOutput) == Some(v) && IsTrue(v)
    requires SetInputs(s.locations, w.condInputs, w.bodyInputs) == Some(ls)
    requires forall key :: key in w.bodyOutputs ==> key in ls && ls[key].Slot? && key in s.locations2
    ensures MicroStep(k, code, s) == To(s1)
    ensures s1.pc == w.bodyStepIndex && s1.store == s.store
    ensures s1.loops == s.loops[s.pc := WhileState(EvaluateCondition, Some(it))]
    ensures s1.locations == if it == 0 then ls else Exchange(ls, s.locations2, w.bodyOutputs)
    ensures s1.locations2 == if it == 0 then s.locations2 else Exchange(s.locations2, ls, w.bodyOutputs)
  {
    hide SetInputs, Exchange, Read, LoopState, EnterCondition, ExitLoop;
    s1 := EnterBody(w, s).state;
  }

  /** The step into the body in terms of the locations `ls` after its inputs were set. */
  ghost predicate BodyMoves(site: Site, i: nat, s: State, ls: Locations, s1: State, it: nat)
    requires LoopFits(site, i)
  {
    var c, b := CondSite(site, i), BodySite(site, i);
    && Moved(s.locations, ls, Keys(c.mi, c.m.inputIndexes), Keys(b.mi, b.m.inputIndexes))
    && (forall key :: key in Keys(b.mi, b.m.outputIndexes) ==>
          key in s.locations && key in s.locations2 && key in ls && ls[key] == s.locations[key])
    && s1.locations == (if it == 0 then ls else Exchange(ls, s.locations2, Keys(b.mi, b.m.outputIndexes)))
    && s1.locations2 == (if it == 0 then s.locations2 else Exchange(s.locations2, ls, Keys(b.mi, b.m.outputIndexes)))
  }

  lemma BodyMovesFrame(site: Site, i: nat, s: State, ls: Locations, s1: State, it: nat, key: Key)
    requires LoopFits(site, i) && BodyMoves(site, i, s, ls, s1, it)
    requires var b := BodySite(site, i); key.0 != b.mi || key.1 !in b.m.outputIndexes
    ensures SameAt(s.locations2, s1.locations2, key)
    ensures key.0 != BodySite(site, i).mi || key.1 !in BodySite(site, i).m.inputIndexes ==> SameAt(s.locations, s1.locations, key)
  {
    hide Models.Valid, Schedules, Passes, CodeSize, ModelCount, ShallowValid, GroupFits, Keys, Within, OperationFits, CondSite, BodySite, Exchange;
    var b := BodySite(site, i);
    assert key !in Keys(b.mi, b.m.outputIndexes);
    if key.0 != b.mi || key.1 !in b.m.inputIndexes {
      assert key !in Keys(b.mi, b.m.inputIndexes);
      assert SameAt(s.locations, ls, key);
    }
  }

  lemma BodyMovesInput(site: Site, i: nat, s: State, ls: Locations, s1: State, it: nat, j: nat)
    requires LoopFits(site, i) && BodyMoves(site, i, s, ls, s1, it)
    requires j < |BodySite(site, i).m.inputIndexes|
    ensures var c, b := CondSite(site, i), BodySite(site, i);
            && |b.m.inputIndexes| == |c.m.inputIndexes|
            && (c.mi, c.m.inputIndexes[j]) in s.locations && (b.mi, b.m.inputIndexes[j]) in s1.locations
            && s1.locations[(b.mi, b.m.inputIndexes[j])] == s.locations[(c.mi, c.m.inputIndexes[j])]
  {
    hide Models.Valid, Schedules, Passes, CodeSize, ModelCount, ShallowValid, GroupFits, Keys, Within, OperationFits, CondSite, BodySite, Exchange, Moved;
    var c, b := CondSite(site, i), BodySite(site, i);
    var ins, outs := b.m.inputIndexes, b.m.outputIndexes;
    DistinctInputs(b.m);
    MovedAt(s.locations, ls, Keys(c.mi, c.m.inputIndexes), Keys(b.mi, ins), j);
    assert ins[j] in ins;
    assert (b.mi, ins[j]) !in Keys(b.mi, outs);
  }

  lemma MovedAt(a: Locations, b: Locations, outers: seq<Key>, inners: seq<Key>, j: nat)
    requires Moved(a, b, outers, inners) && j < |inners|
    ensures |outers| == |inners| && outers[j] in a && inners[j] in b && b[inners[j]] == a[outers[j]]
  {
  }

  lemma BodyEnteredFrom(site: Site, i: nat, s: State, ls: Locations, s1: State, it: nat)
    requires LoopFits(site, i) && BodyMoves(site, i, s, ls, s1, it)
    requires s1.pc == BodySite(site, i).base && s1.store == s.store
    requires s1.loops == s.loops[site.BaseAt(i) := WhileState(EvaluateCondition, Some(it))]
    ensures BodyEntered(site, i, s, s1, it)
  {
    hide Models.Valid, Schedules, Passes, CodeSize, ModelCount, ShallowValid, GroupFits, Keys, Within, OperationFits, CondSite, BodySite, Exchange, BodyMoves, Swapped, SameAt;
    var c, b := CondSite(site, i), BodySite(site, i);
    var ins, outs := b.m.inputIndexes, b.m.outputIndexes;
    forall key: Key | key.0 != b.mi || (key.1 !in ins && key.1 !in outs) ensures SameAt(s.locations, s1.locations, key) {
      BodyMovesFrame(site, i, s, ls, s1, it, key);
    }
    forall key: Key | key.0 != b.mi || key.1 !in outs ensures SameAt(s.locations2, s1.locations2, key) {
      BodyMovesFrame(site, i, s, ls, s1, it, key);
    }
    HeadTargets(site, i);
    forall j | 0 <= j < |ins|
      ensures (c.mi, c.m.inputIndexes[j]) in s.locations && (b.mi, ins[j]) in s1.locations
      ensures s1.locations[(b.mi, ins[j])] == s.locations[(c.mi, c.m.inputIndexes[j])]
    {
      BodyMovesInput(site, i, s, ls, s1, it, j);
    }
    forall x | x in outs ensures Swapped(s, s1, (b.mi, x), it != 0) {
      BodyMovesOutput(site, i, s, ls, s1, it, x);
    }
  }

  lemma BodyMovesOutput(site: Site, i: nat, s: State, ls: Locations, s1: State, it: nat, x: nat)
    requires LoopFits(site, i) && BodyMoves(site, i, s, ls, s1, it)
    requires x in BodySite(site, i).m.outputIndexes
    ensures Swapped(s, s1, (BodySite(site, i).mi, x), it != 0)
  {
    hide Models.Valid, Schedules, Passes, CodeSize, ModelCount, ShallowValid, GroupFits, Keys, Within, OperationFits, CondSite, BodySite, Exchange, Moved;
    var b := BodySite(site, i);
    assert (b.mi, x) in Keys(b.mi, b.m.outputIndexes);
  }

  /** An input of the body: outside of the loop, or in the buffer of a body output
      that the output itself is not in. */
  lemma BodyInput(site: Site, i: nat, s0: State, s: State, s1: State, it: nat, state: seq<Bytes>, init: seq<Bytes>, j: nat)
    requires LoopFits(site, i) && AtBody(site, i, s0, s, it, state, init)
    requires BodyEntered(site, i, s, s1, it)
    requires j < |BodySite(site, i).m.inputIndexes|
    ensures |state| == |BodySite(site, i).m.inputIndexes|
    ensures var b := BodySite(site, i);
            var key := (b.mi, b.m.inputIndexes[j]);
            && key in s1.locations && Read(s1, key) == Some(state[j])
            && !Mine(b, s1.locations[key])
            && (s1.locations[key].Slot? && s1.locations[key].key.0 == b.mi ==>
                  && s1.locations[key].key.1 in b.m.outputIndexes
                  && s1.locations[key].key in s1.locations && s1.locations[key] != s1.locations[s1.locations[key].key])
  {
    hide Models.Valid, Schedules, Passes, CodeSize, ModelCount, ShallowValid, GroupFits, Rest, OperationFits, InnerChanges, LoopBuffers, StartsWith, StateIs, SourceKey, Mine, Within, BoundaryReads, WrittenBy, Outside, FromOutside, CondSite, BodySite, Looping;
    AtBodyHas(site, i, s0, s, it, state, init);
    SourceIsInPlace(site, i, s0, s, it, state, init, j);
    var b := BodySite(site, i);
    var key := SourceKey(site, i, it, j);
    var l := s1.locations[(b.mi, b.m.inputIndexes[j])];
    assert l == s.locations[key];
    if !FromOutside(site, i, it, j) {
      BodySourceKey(site, i, it, j);
      FromInsideIsLater(site, i, it, j);
      BufferOf(site, i, s, b.m.outputIndexes[j]);
      assert Swapped(s, s1, (b.mi, b.m.outputIndexes[j]), it != 0);
    }
    SourceIsNotMine(site, i, b, key, l);
    OutsideIsNotCond(site, i, l);
  }

  lemma FromInsideIsLater(site: Site, i: nat, it: nat, j: nat)
    requires LoopFits(site, i) && !FromOutside(site, i, it, j)
    ensures it != 0
  {
  }

  lemma BufferOf(site: Site, i: nat, s: State, x: nat)
    requires LoopFits(site, i) && LoopBuffers(OperationAt(site, i), site.NextAt(i), s)
    requires x in BodySite(site, i).m.outputIndexes
    ensures DoubleBuffered((BodySite(site, i).mi, x), s)
  {
    hide Models.Valid, Schedules, Passes, CodeSize, ModelCount, ShallowValid, GroupFits, OperationFits, Within, DoubleBuffered;
  }

  lemma BodyOutput(site: Site, i: nat, s: State, s1: State, it: nat, x: nat)
    requires LoopFits(site, i) && LoopBuffers(OperationAt(site, i), site.NextAt(i), s)
    requires BodyEntered(site, i, s, s1, it)
    requires x in BodySite(site, i).m.outputIndexes
    ensures DoubleBuffered((BodySite(site, i).mi, x), s1)
  {
    hide Models.Valid, Schedules, Passes, CodeSize, ModelCount, ShallowValid, GroupFits, OperationFits, Within, LoopBuffers, BodySite, CondSite;
    BufferOf(site, i, s, x);
    assert Swapped(s, s1, (BodySite(site, i).mi, x), it != 0);
  }

  lemma BodyIsPlaced(site: Site, i: nat, s0: State, s: State, s1: State, it: nat, state: seq<Bytes>, init: seq<Bytes>)
    requires LoopFits(site, i) && AtBody(site, i, s0, s, it, state, init)
    requires BodyEntered(site, i, s, s1, it)
    ensures Placed(BodySite(site, i), s1)
  {
    hide Models.Valid, Schedules, Passes, CodeSize, ModelCount, ShallowValid, GroupFits, Rest, OperationFits, InnerChanges, StartsWith, StateIs, SourceKey, Within, BoundaryReads, BodyEntered, LoopBuffers, BodySite, Mine, AtBody;
    var b := BodySite(site, i);
    var ins, outs := b.m.inputIndexes, b.m.outputIndexes;
    AtBodyHas(site, i, s0, s, it, state, init);
    NextIsAfter(b) by { WithinIsValid(site, i, b); }
    LoopingOmits(site, i, s0, s);
    BodyOmits(site, i, s, s1, it);
    forall x | x in ins ensures (b.mi, x) in s1.locations && !Mine(b, s1.locations[(b.mi, x)])
      ensures s1.locations[(b.mi, x)].Slot? && s1.locations[(b.mi, x)].key.0 == b.mi ==>
                && s1.locations[(b.mi, x)].key in s1.locations
                && s1.locations[(b.mi, x)] != s1.locations[s1.locations[(b.mi, x)].key]
    {
      var j :| 0 <= j < |ins| && ins[j] == x;
      BodyInput(site, i, s0, s, s1, it, state, init, j);
    }
    forall x | x in outs ensures DoubleBuffered((b.mi, x), s1) && !Mine(b, s1.locations[(b.mi, x)]) {
      BodyOutput(site, i, s, s1, it, x);
    }
    forall x, y | x in outs && (y in outs || y in ins) && x != y ensures s1.locations[(b.mi, x)] != s1.locations[(b.mi, y)] {
      assert DoubleBuffered((b.mi, x), s1);
      if y in outs { assert DoubleBuffered((b.mi, y), s1); }
    }
  }

  lemma LoopingOmits(site: Site, i: nat, s0: State, s: State)
    requires LoopFits(site, i) && Looping(site, i, s0, s)
    ensures NothingOmitted(CondSite(site, i).m, CondSite(site, i).mi, s) && NothingOmitted(BodySite(site, i).m, BodySite(site, i).mi, s)
  {
    hide LoopFits, LoopBuffers, Rest, InnerChanges, NothingOmitted;
  }

  lemma BodyRests(site: Site, i: nat, s: State, s1: State, it: nat)
    requires LoopFits(site, i) && BodyEntered(site, i, s, s1, it)
    requires var b := BodySite(site, i); Rest(b.m, b.gs, b.mi, b.base, b.next, s)
    ensures var b := BodySite(site, i); Rest(b.m, b.gs, b.mi, b.base, b.next, s1)
  {
    hide Models.Valid, Schedules, Passes, CodeSize, ModelCount, ShallowValid, GroupFits, Rest, OperationFits, Swapped;
    var b := BodySite(site, i);
    RestIsKept(b.m, b.gs, b.mi, b.base, b.next, s, s1);
  }

  lemma BodyIsEntered(site: Site, i: nat, s0: State, s: State, s1: State, it: nat, state: seq<Bytes>, init: seq<Bytes>)
    requires LoopFits(site, i) && AtBody(site, i, s0, s, it, state, init)
    requires BodyEntered(site, i, s, s1, it)
    ensures Entered(BodySite(site, i), s1, state)
  {
    hide Models.Valid, Schedules, Passes, CodeSize, ModelCount, ShallowValid, GroupFits, Rest, OperationFits, InnerChanges, LoopBuffers, StartsWith, StateIs, SourceKey, Mine, Within, BoundaryReads, Placed, AtBody;
    var b := BodySite(site, i);
    var ins := b.m.inputIndexes;
    AtBodyHas(site, i, s0, s, it, state, init);
    BodyRests(site, i, s, s1, it);
    BodyIsPlaced(site, i, s0, s, s1, it, state, init);
    forall j | 0 <= j < |ins| ensures Read(s1, Keys(b.mi, ins)[j]) == Some(state[j]) {
      BodyInput(site, i, s0, s, s1, it, state, init, j);
    }
  }

  // ----- coming back from the body -----

  lemma BodyMovesWithin(site: Site, i: nat, s: State, s1: State, it: nat)
    requires LoopFits(site, i) && BodyEntered(site, i, s, s1, it)
    ensures var b := BodySite(site, i); Changes(b.mi, b.mi + 1, site.BaseAt(i), site.BaseAt(i) + 1, {}, s, s1)
    ensures InnerChanges(site, i, s, s1)
  {
    hide Models.Valid, Schedules, Passes, CodeSize, ModelCount, ShallowValid, GroupFits, OperationFits, Swapped;
    var b := BodySite(site, i);
    ChangesWiden(b.mi, b.mi + 1, site.BaseAt(i), site.BaseAt(i) + 1, {}, site.NextAt(i), site.NextAt(i) + GroupModels(site.gs[i]),
                 site.BaseAt(i), site.BaseAt(i) + GroupSize(site.gs[i]), {}, s, s1);
  }

  ghost predicate BodyLeft(site: Site, i: nat, s: State, s1: State, s2: State, it: nat, vals: seq<Bytes>)
    requires LoopFits(site, i)
  {
    && BodyEntered(site, i, s, s1, it)
    && (forall x :: x in BodySite(site, i).m.outputIndexes ==> DoubleBuffered((BodySite(site, i).mi, x), s1))
    && Left(BodySite(site, i), s1, s2, vals)
  }

  lemma BodyOwnPlaces(site: Site, i: nat, s1: State)
    requires LoopFits(site, i)
    requires forall x :: x in BodySite(site, i).m.outputIndexes ==> DoubleBuffered((BodySite(site, i).mi, x), s1)
    ensures forall l :: l in OwnPlaces(BodySite(site, i), s1) ==> l.Slot? && l.key.0 == BodySite(site, i).mi
  {
    hide Models.Valid, Schedules, Passes, CodeSize, ModelCount, ShallowValid, GroupFits, OperationFits, Within;
    var b := BodySite(site, i);
    forall l | l in OwnPlaces(b, s1) ensures l.Slot? && l.key.0 == b.mi {
      if x :| x in b.m.outputIndexes && (b.mi, x) in s1.locations && s1.locations[(b.mi, x)] == l {
        assert DoubleBuffered((b.mi, x), s1);
      } else {
        assert exists x :: 0 <= x < |b.m.operands| && l == Slot((b.mi, x), false);
      }
    }
  }

  lemma BodyChanges(site: Site, i: nat, s0: State, s: State, s1: State, s2: State, it: nat, vals: seq<Bytes>)
    requires LoopFits(site, i) && InnerChanges(site, i, s0, s) && BodyLeft(site, i, s, s1, s2, it, vals)
    ensures InnerChanges(site, i, s0, s2)
  {
    hide Models.Valid, Schedules, Passes, CodeSize, ModelCount, ShallowValid, GroupFits, OperationFits, BodyEntered, OwnPlaces, Rest, ValuesAre, Changes;
    var b := BodySite(site, i);
    var lo, hi := site.NextAt(i), site.NextAt(i) + GroupModels(site.gs[i]);
    var from, to := site.BaseAt(i), site.BaseAt(i) + GroupSize(site.gs[i]);
    BodyMovesWithin(site, i, s, s1, it);
    BodyOwnPlaces(site, i, s1);
    ChangesWiden(b.next, b.Top(), b.base, b.End(), OwnPlaces(b, s1), lo, hi, from, to, {}, s1, s2);
    ChangesCompose(lo, hi, from, to, {}, s0, s, s1);
    ChangesCompose(lo, hi, from, to, {}, s0, s1, s2);
  }

  lemma BodyKeepsBuffers(site: Site, i: nat, s: State, s1: State, s2: State, it: nat, vals: seq<Bytes>)
    requires LoopFits(site, i) && BodyLeft(site, i, s, s1, s2, it, vals)
    requires LoopBuffers(OperationAt(site, i), site.NextAt(i), s)
    ensures LoopBuffers(OperationAt(site, i), site.NextAt(i), s2)
    ensures LoopState(s2, site.BaseAt(i)) == WhileState(EvaluateCondition, Some(it))
  {
    hide Models.Valid, Schedules, Passes, CodeSize, ModelCount, ShallowValid, GroupFits, OperationFits, OwnPlaces, Rest, ValuesAre, Swapped;
    var c, b := CondSite(site, i), BodySite(site, i);
    OwnPlacesStay(b, s1, s2);
    forall x | x in b.m.outputIndexes ensures DoubleBuffered((site.NextAt(i) + 1, x), s2) {
      assert DoubleBuffered((b.mi, x), s1);
      assert SameAt(s1.locations, s2.locations, (b.mi, x)) && SameAt(s1.locations2, s2.locations2, (b.mi, x));
    }
    forall x | x in c.m.outputIndexes ensures AtHome((site.NextAt(i), x), s2) {
      assert AtHome((site.NextAt(i), x), s);
      assert SameAt(s.locations, s1.locations, (c.mi, x)) && SameAt(s1.locations, s2.locations, (c.mi, x));
    }
    assert SameAt(s1.loops, s2.loops, site.BaseAt(i));
  }

  lemma CondRestsMeanwhile(site: Site, i: nat, s: State, s1: State, s2: State, it: nat, vals: seq<Bytes>)
    requires LoopFits(site, i) && BodyLeft(site, i, s, s1, s2, it, vals)
    requires var c := CondSite(site, i); Rest(c.m, c.gs, c.mi, c.base, c.next, s)
    ensures var c := CondSite(site, i); Rest(c.m, c.gs, c.mi, c.base, c.next, s2)
  {
    hide Models.Valid, Schedules, Passes, CodeSize, ModelCount, ShallowValid, GroupFits, OperationFits, OwnPlaces, Rest, ValuesAre, Changes, BodyEntered;
    var c, b := CondSite(site, i), BodySite(site, i);
    BodyMovesWithin(site, i, s, s1, it);
    BodyOwnPlaces(site, i, s1);
    ElsewhereKeepsRest(c, b.mi, b.mi + 1, site.BaseAt(i), site.BaseAt(i) + 1, {}, s, s1);
    ElsewhereKeepsRest(c, b.next, b.Top(), b.base, b.End(), OwnPlaces(b, s1), s1, s2);
  }

  lemma LoopingAfterBody(site: Site, i: nat, s0: State, s: State, s1: State, s2: State, it: nat, vals: seq<Bytes>)
    requires LoopFits(site, i) && Looping(site, i, s0, s) && BodyLeft(site, i, s, s1, s2, it, vals)
    ensures Looping(site, i, s0, s2.(pc := site.BaseAt(i)))
  {
    hide Models.Valid, Schedules, Passes, CodeSize, ModelCount, ShallowValid, GroupFits, OperationFits, Rest, BodyEntered, SiteChanges, OwnPlaces;
    var c, b := CondSite(site, i), BodySite(site, i);
    BodyChanges(site, i, s0, s, s1, s2, it, vals);
    BodyKeepsBuffers(site, i, s, s1, s2, it, vals);
    CondRestsMeanwhile(site, i, s, s1, s2, it, vals);
    RestAnywhere(c, s2, site.BaseAt(i));
    RestAnywhere(b, s2, site.BaseAt(i));
    BodyKeepsOmitted(site, i, s, s1, s2, it, vals);
  }

  lemma BodyKeepsOmitted(site: Site, i: nat, s: State, s1: State, s2: State, it: nat, vals: seq<Bytes>)
    requires LoopFits(site, i) && BodyLeft(site, i, s, s1, s2, it, vals)
    requires NothingOmitted(CondSite(site, i).m, CondSite(site, i).mi, s) && NothingOmitted(BodySite(site, i).m, BodySite(site, i).mi, s)
    ensures NothingOmitted(CondSite(site, i).m, CondSite(site, i).mi, s2) && NothingOmitted(BodySite(site, i).m, BodySite(site, i).mi, s2)
  {
    hide Models.Valid, Schedules, Passes, CodeSize, ModelCount, ShallowValid, GroupFits, OperationFits, OwnPlaces, Rest, ValuesAre, Swapped, NothingOmitted, DoubleBuffered;
    var c, b := CondSite(site, i), BodySite(site, i);
    BodyOmits(site, i, s, s1, it);
    OwnPlacesStay(b, s1, s2);
    OmittedIsKept(b.m, b.mi, s1, s2);
    forall x: nat ensures SameAt(s.locations, s2.locations, (c.mi, x)) {
      assert SameAt(s.locations, s1.locations, (c.mi, x)) && SameAt(s1.locations, s2.locations, (c.mi, x));
    }
    OmittedIsKept(c.m, c.mi, s, s2);
  }

  /** The state of the next iteration: what the body wrote, then what it leaves alone. */
  lemma BodyIsLeft(site: Site, i: nat, s0: State, s: State, s1: State, s2: State, it: nat, state: seq<Bytes>, init: seq<Bytes>, vals: seq<Bytes>)
    returns (s': State)
    requires LoopFits(site, i) && AtBody(site, i, s0, s, it, state, init)
    requires BodyEntered(site, i, s, s1, it)
    requires Left(BodySite(site, i), s1, s2, vals)
    ensures s' == s2.(pc := site.BaseAt(i))
    ensures |vals| <= |state|
    ensures AtCondition(site, i, s0, s', it + 1, vals + state[|vals|..], init)
  {
    hide Models.Valid, Schedules, Passes, CodeSize, ModelCount, ShallowValid, GroupFits, OperationFits, Rest, BodyEntered, Within, InnerChanges, LoopBuffers, StateIs, StartsWith, SiteChanges, SourceKey, BodySite, AtBody, Looping, LoopState;
    var b := BodySite(site, i);
    s' := s2.(pc := site.BaseAt(i));
    AtBodyHas(site, i, s0, s, it, state, init);
    HeadTargets(site, i);
    forall x | x in b.m.outputIndexes ensures DoubleBuffered((b.mi, x), s1) {
      BodyOutput(site, i, s, s1, it, x);
    }
    assert BodyLeft(site, i, s, s1, s2, it, vals);
    LoopingAfterBody(site, i, s0, s, s1, s2, it, vals);
    BodyKeepsBuffers(site, i, s, s1, s2, it, vals);
    SameLoopState(s2, s', site.BaseAt(i));
    NextState(site, i, s, s', it, state, init, vals);
  }

  lemma SameLoopState(s: State, s': State, pc: nat)
    requires s.loops == s'.loops
    ensures LoopState(s, pc) == LoopState(s', pc)
  {
  }

  lemma NextState(site: Site, i: nat, s: State, s': State, it: nat, state: seq<Bytes>, init: seq<Bytes>, vals: seq<Bytes>)
    requires LoopFits(site, i) && StateIs(site, i, s, it, state, init)
    requires var b := BodySite(site, i); ValuesAre(s', Keys(b.mi, b.m.outputIndexes), vals) && |b.m.outputIndexes| <= |state|
    ensures |vals| <= |state|
    ensures StateIs(site, i, s', it + 1, vals + state[|vals|..], init)
  {
    hide Models.Valid, Schedules, Passes, CodeSize, ModelCount, ShallowValid, GroupFits, OperationFits, Within;
    var b := BodySite(site, i);
    var next := vals + state[|vals|..];
    forall j | 0 <= j < |next|
      ensures if FromOutside(site, i, it + 1, j) then next[j] == init[j] else Read(s', SourceKey(site, i, it + 1, j)) == Some(next[j])
    {
      if j < |vals| {
        assert Read(s', Keys(b.mi, b.m.outputIndexes)[j]) == Some(vals[j]);
      } else {
        assert FromOutside(site, i, it, j);
      }
    }
  }

  // ----- leaving the loop -----

  lemma {:induction false} CopyAllBinds(store: map<Location, Bytes>, from: seq<Location>, to: seq<Location>)
    requires |from| == |to| && Distinct(to) && Knows(store, from)
    requires forall l :: l in from ==> l !in to
    ensures CopyAll(store, from, to) == Some(Bind(store, to, Get(store, from)))
    decreases |from|
  {
    if from != [] {
      var store' := store[to[0] := store[from[0]]];
      assert from[0] in from && to[0] in to;
      forall l | l in from[1..] ensures l in store' && store'[l] == store[l] && l !in to[1..] {
        assert l in from;
      }
      CopyAllBinds(store', from[1..], to[1..]);
      assert Get(store', from[1..]) == Get(store, from)[1..];
    }
  }

  /** Where the outer outputs are, as seen from inside of the loop. */
  ghost function Targets(site: Site, i: nat, s: State): (r: seq<Location>)
    requires IsLoop(site, i)
    requires forall key :: key in Keys(site.mi, OperationAt(site, i).outputs) ==> key in s.locations
    ensures |r| == |OperationAt(site, i).outputs|
  {
    Locate(s.locations, Keys(site.mi, OperationAt(site, i).outputs))
  }

  ghost predicate TargetsArePlaces(site: Site, i: nat, s0: State, s: State)
    requires LoopFits(site, i)
  {
    var keys := Keys(site.mi, OperationAt(site, i).outputs);
    && AllWritable(s.locations, keys)
    && Distinct(Targets(site, i, s))
    && forall l :: l in Targets(site, i, s) ==> l in WrittenBy(site, i, s0) && Outside(site, i, l) && Writable(l)
  }

  lemma TargetsAreGood(site: Site, i: nat, s0: State, s: State, env: Env)
    requires LoopFits(site, i) && Ready(site, i, s0, env) && InnerChanges(site, i, s0, s)
    ensures TargetsArePlaces(site, i, s0, s)
  {
    hide Models.Valid, Schedules, Passes, HousedBy, BoundaryReads, CodeSize, ModelCount, GroupModels, WrittenBy, GroupFits, Rest, Placed, Remaining, Faithful, Ordered, Keys, Locate, Within, ShallowValid, OperationFits, InnerChanges, Outside;
    OperandsInOrder(site, i, s0, env);
    NextIsOrdered(site, i, s0, env);
    var outs := OperationAt(site, i).outputs;
    var keys := Keys(site.mi, outs);
    forall x | x in outs
      ensures (site.mi, x) in s0.locations && (site.mi, x) in s.locations && s.locations[(site.mi, x)] == s0.locations[(site.mi, x)]
      ensures var l := s0.locations[(site.mi, x)]; l in WrittenBy(site, i, s0) && Outside(site, i, l) && Writable(l)
    {
      OutputPlace(site, i, s0, env, x);
      OuterPlaceStays(site, i, s0, s, x);
    }
    forall key | key in keys ensures key in s.locations && key in s0.locations && s.locations[key] == s0.locations[key] && key.1 in outs {
      assert key == (site.mi, key.1);
    }
    PlacesAreDistinct(site, i, s0, env, outs);
    assert Locate(s.locations, keys) == Locate(s0.locations, keys);
  }

  /** The state is read from places that leaving the loop does not write. */
  lemma SourcesAreNotTargets(site: Site, i: nat, s0: State, s: State, it: nat, state: seq<Bytes>, init: seq<Bytes>, j: nat)
    requires LoopFits(site, i) && AtBody(site, i, s0, s, it, state, init) && j < |state|
    requires TargetsArePlaces(site, i, s0, s)
    ensures j < |CondSite(site, i).m.inputIndexes|
    ensures var key := (CondSite(site, i).mi, CondSite(site, i).m.inputIndexes[j]);
            && key in s.locations && Read(s, key) == Some(state[j]) && s.locations[key] !in Targets(site, i, s)
  {
    hide Models.Valid, Schedules, Passes, HousedBy, BoundaryReads, CodeSize, ModelCount, GroupModels, WrittenBy, GroupFits, Rest, Keys, Within, ShallowValid, OperationFits, InnerChanges, Outside, StartsWith, LoopBuffers, SourceKey, FromOutside, Targets, CondSite;
    AtBodyHas(site, i, s0, s, it, state, init);
    SourceIsInPlace(site, i, s0, s, it, state, init, j);
    if !FromOutside(site, i, it, j) { BodySourceKey(site, i, it, j); }
    OutsideIsNotCond(site, i, s.locations[SourceKey(site, i, it, j)]);
  }

  ghost predicate LoopLeft(site: Site, i: nat, s0: State, s: State, s': State, vals: seq<Bytes>)
    requires LoopFits(site, i)
  {
    && TargetsArePlaces(site, i, s0, s)
    && |vals| == |OperationAt(site, i).outputs|
    && s' == s.(pc := site.BaseAt(i) + GroupSize(site.gs[i]),
                store := Bind(s.store, Targets(site, i, s), vals),
                loops := s.loops[site.BaseAt(i) := OUTSIDE_LOOP])
  }

  lemma LeavesLoop(k: Kernels, code: seq<LogicalStep>, site: Site, i: nat, s0: State, s: State, env: Env, it: nat, state: seq<Bytes>, init: seq<Bytes>, v: Bytes)
    returns (s': State)
    requires LoopFits(site, i) && Ready(site, i, s0, env) && AtBody(site, i, s0, s, it, state, init)
    requires s.pc < |code| && code[s.pc] == Head(site, i)
    requires |CondSite(site, i).m.outputIndexes| == 1
    requires Read(s, (CondSite(site, i).mi, CondSite(site, i).m.outputIndexes[0])) == Some(v) && !IsTrue(v)
    ensures MicroStep(k, code, s) == To(s')
    ensures |OperationAt(site, i).outputs| <= |state|
    ensures LoopLeft(site, i, s0, s, s', state[..|OperationAt(site, i).outputs|])
  {
    hide Models.Valid, Schedules, Passes, BoundaryReads, CodeSize, ModelCount, GroupModels, WrittenBy, GroupFits, Ready, Keys, Within, ShallowValid, OperationFits, InnerChanges, StartsWith, LoopBuffers, StateIs, AtBody, Looping, Outside, CondSite, Head, MicroStep, Read, Locate, LoopState;
    AtBodyHas(site, i, s0, s, it, state, init);
    HeadTargets(site, i);
    TargetsAreGood(site, i, s0, s, env);
    var w, c := Head(site, i), CondSite(site, i);
    var n := |OperationAt(site, i).outputs|;
    CondPlaces(site, i, s0, s, it, state, init);
    var from := Locate(s.locations, w.condInputs[..n]);
    CopyAllBinds(s.store, from, Targets(site, i, s));
    s' := s.(pc := w.exitStepIndex, store := Bind(s.store, Targets(site, i, s), state[..n]), loops := s.loops[s.pc := OUTSIDE_LOOP]);
    StepLeaves(k, code, w, s, s', it, v);
  }

  lemma CondPlaces(site: Site, i: nat, s0: State, s: State, it: nat, state: seq<Bytes>, init: seq<Bytes>)
    requires LoopFits(site, i) && AtBody(site, i, s0, s, it, state, init)
    requires TargetsArePlaces(site, i, s0, s)
    ensures var keys, n := Keys(CondSite(site, i).mi, CondSite(site, i).m.inputIndexes), |OperationAt(site, i).outputs|;
            && n <= |keys| == |state| && (forall key :: key in keys ==> key in s.locations)
            && (forall key :: key in keys[..n] ==> key in s.locations)
            && Knows(s.store, Locate(s.locations, keys[..n])) && Get(s.store, Locate(s.locations, keys[..n])) == state[..n]
            && forall l :: l in Locate(s.locations, keys[..n]) ==> l !in Targets(site, i, s)
  {
    hide Models.Valid, Schedules, Passes, BoundaryReads, CodeSize, ModelCount, GroupModels, WrittenBy, GroupFits, Keys, Within, ShallowValid, OperationFits, InnerChanges, StartsWith, LoopBuffers, StateIs, AtBody, Looping, Outside, CondSite, Locate, Targets, Get, Read, Distinct, Writable;
    var targets := Targets(site, i, s);
    HeadTargets(site, i);
    AtBodyHas(site, i, s0, s, it, state, init);
    var c := CondSite(site, i);
    var keys, n := Keys(c.mi, c.m.inputIndexes), |OperationAt(site, i).outputs|;
    forall j | 0 <= j < |keys|
      ensures keys[j] in s.locations && Read(s, keys[j]) == Some(state[j]) && s.locations[keys[j]] !in targets
    {
      SourcesAreNotTargets(site, i, s0, s, it, state, init, j);
    }
    LocatedValues(s, keys, n, state, targets);
  }

  lemma LocatedValues(s: State, keys: seq<Key>, n: nat, vals: seq<Bytes>, targets: seq<Location>)
    requires n <= |keys| == |vals|
    requires forall j :: 0 <= j < |keys| ==>
               keys[j] in s.locations && Read(s, keys[j]) == Some(vals[j]) && s.locations[keys[j]] !in targets
    ensures forall key :: key in keys ==> key in s.locations
    ensures forall key :: key in keys[..n] ==> key in s.locations
    ensures var from := Locate(s.locations, keys[..n]);
            Knows(s.store, from) && Get(s.store, from) == vals[..n] && forall l :: l in from ==> l !in targets
  {
    hide Locate, Get;
    var from := Locate(s.locations, keys[..n]);
    forall j | 0 <= j < n ensures from[j] in s.store && s.store[from[j]] == vals[j] && from[j] !in targets {
      assert from[j] == s.locations[keys[j]];
    }
    assert Get(s.store, from) == vals[..n];
  }

  lemma StepLeaves(k: Kernels, code: seq<LogicalStep>, w: LogicalStep, s: State, s': State, it: nat, v: Bytes)
    requires s.pc < |code| && code[s.pc] == w && w.WhileStep?
    requires LoopState(s, s.pc) == WhileState(EvaluateBody, Some(it))
    requires Read(s, w.condOutput) == Some(v) && !IsTrue(v)
    requires |w.outerOutputs| <= |w.condInputs| && |w.outerOutputs| <= |w.bodyOutputs| && AllWritable(s.locations, w.outerOutputs)
    requires forall key :: key in w.condInputs ==> key in s.locations
    requires forall key :: key in w.condInputs[..|w.outerOutputs|] ==> key in s.locations
    requires CopyAll(s.store, Locate(s.locations, w.condInputs[..|w.outerOutputs|]), Locate(s.locations, w.outerOutputs)) == Some(s'.store)
    requires s' == s.(pc := w.exitStepIndex, store := s'.store, loops := s.loops[s.pc := OUTSIDE_LOOP])
    ensures MicroStep(k, code, s) == To(s')
  {
    hide Locate, CopyAll, Read, LoopState, EnterCondition, EnterBody;
  }

  /** The loop has run and control has come to the end of the group. */
  lemma LoopIsLeft(site: Site, i: nat, s0: State, s: State, s': State, env: Env, vals: seq<Bytes>)
    requires LoopFits(site, i) && Ready(site, i, s0, env) && Looping(site, i, s0, s)
    requires LoopLeft(site, i, s0, s, s', vals)
    ensures GroupDone(site, i, s0, s', env, Bind(env, OperationAt(site, i).outputs, vals))
  {
    hide Models.Valid, Schedules, Passes, BoundaryReads, CodeSize, ModelCount, GroupModels, GroupSize, WrittenBy, Ready, Keys, Within, ShallowValid, OperationFits, InnerChanges, LoopBuffers, Outside, CondSite, BodySite, Locate, LoopState, Rest, GroupChanges, LoopLeft, TargetsArePlaces, RestGroup, Looping, Bind;
    LoopLeftChanges(site, i, s0, s, s', vals);
    LoopLeftRests(site, i, s0, s, s', env, vals);
    LoopLeftValues(site, i, s0, s, s', vals);
    ControlFlowIsDone(site, i, s0, s', env, vals);
  }

  lemma LoopLeftChanges(site: Site, i: nat, s0: State, s: State, s': State, vals: seq<Bytes>)
    requires LoopFits(site, i) && Looping(site, i, s0, s) && LoopLeft(site, i, s0, s, s', vals)
    ensures GroupChanges(site, i, s0, s')
    ensures s'.pc == site.BaseAt(i) + GroupSize(site.gs[i])
  {
    hide Models.Valid, Schedules, Passes, BoundaryReads, CodeSize, ModelCount, GroupModels, WrittenBy, Keys, Within, ShallowValid, OperationFits, LoopBuffers, Outside, CondSite, BodySite, Targets, LoopState, Rest, Bind, Changes;
    var lo, hi := site.NextAt(i), site.NextAt(i) + GroupModels(site.gs[i]);
    var from, to := site.BaseAt(i), site.BaseAt(i) + GroupSize(site.gs[i]);
    var ws := WrittenBy(site, i, s0);
    ChangesWiden(lo, hi, from, to, {}, lo, hi, from, to, ws, s0, s);
    WritingChanges(s, s', Targets(site, i, s), vals, lo, site.BaseAt(i));
    ChangesWiden(lo, lo, from, from + 1, AsSet(Targets(site, i, s)), lo, hi, from, to, ws, s, s');
    ChangesCompose(lo, hi, from, to, ws, s0, s, s');
  }

  lemma WritingChanges(s: State, s': State, ls: seq<Location>, vals: seq<Bytes>, lo: nat, pc: nat)
    requires |ls| == |vals|
    requires s'.locations == s.locations && s'.locations2 == s.locations2
    requires s'.store == Bind(s.store, ls, vals) && s'.loops == s.loops[pc := OUTSIDE_LOOP]
    ensures Changes(lo, lo, pc, pc + 1, AsSet(ls), s, s')
  {
    hide Bind;
  }

  lemma LoopLeftRests(site: Site, i: nat, s0: State, s: State, s': State, env: Env, vals: seq<Bytes>)
    requires LoopFits(site, i) && Ready(site, i, s0, env) && Looping(site, i, s0, s) && LoopLeft(site, i, s0, s, s', vals)
    requires GroupChanges(site, i, s0, s')
    ensures RestGroup(site.m, site.Boundary(), site.gs[i], site.mi, site.BaseAt(i), site.NextAt(i), s')
  {
    hide Models.Valid, Schedules, Passes, BoundaryReads, CodeSize, ModelCount, GroupModels, WrittenBy, Ready, Keys, ShallowValid, OperationFits, InnerChanges, Outside, Targets, Rest, Bind, Changes, GroupChanges, Housed, ConstantsInPlace;
    OwnPartStays(site, i, s0, s', env);
    var c, b := CondSite(site, i), BodySite(site, i);
    var ws := AsSet(Targets(site, i, s));
    WritingChanges(s, s', Targets(site, i, s), vals, 0, site.BaseAt(i));
    ElsewhereKeepsRest(c, 0, 0, site.BaseAt(i), site.BaseAt(i) + 1, ws, s, s');
    ElsewhereKeepsRest(b, 0, 0, site.BaseAt(i), site.BaseAt(i) + 1, ws, s, s');
    BuffersAreKept(OperationAt(site, i), site.NextAt(i), s, s');
    OmittedIsKept(c.m, c.mi, s, s');
    OmittedIsKept(b.m, b.mi, s, s');
  }

  lemma LoopLeftValues(site: Site, i: nat, s0: State, s: State, s': State, vals: seq<Bytes>)
    requires LoopFits(site, i) && LoopLeft(site, i, s0, s, s', vals)
    ensures ValuesAre(s', Keys(site.mi, OperationAt(site, i).outputs), vals)
  {
    hide Models.Valid, Schedules, Passes, BoundaryReads, CodeSize, ModelCount, GroupModels, GroupSize, WrittenBy, Keys, Within, ShallowValid, OperationFits, Outside, Locate, Bind;
    var keys := Keys(site.mi, OperationAt(site, i).outputs);
    var ls := Targets(site, i, s);
    forall j | 0 <= j < |keys| ensures Read(s', keys[j]) == Some(vals[j]) {
      assert ls[j] == s.locations[keys[j]];
      assert s'.store[ls[j]] == vals[j];
    }
  }

  /** A WHILE that is given an omitted operand crashes. */
  lemma BlockedLoop(k: Kernels, code: seq<LogicalStep>, site: Site, i: nat, s: State, env: Env)
    requires Installed(code, site) && IsLoop(site, i) && Ready(site, i, s, env)
    requires !Passable(OperationAt(site, i), site.m.operands)
    ensures MicroStep(k, code, s) == Crashed
  {
    hide Models.Valid, Schedules, Passes, Faithful, Remaining, Rest, GroupFits, MicroStep, Keys, CodeSize, ModelCount, CondSite, BodySite, Ordered, Head, Looping, SourceKeys, Sources, LoopState, ShallowValid, OperationFits, Within, SourceKey, CodeAt, Mine, Writable, Extends;
    LoopLies(code, site, i);
    HeadTargets(site, i);
    LoopAtRest(site, i, s);
    var op := OperationAt(site, i);
    LoopShape(site, i);
    var x :| x in Passed(op) && x < |site.m.operands| && !HasLocation(site.m.operands[x].lifetime);
    var xs := op.inputs[WHILE_FIRST_INPUT..];
    assert x in xs by { HeadOperands(site, i); }
    var j :| 0 <= j < |xs| && xs[j] == x;
    SourcesAreKeys(site, i, 0);
    FirstSource(site, i, j);
    SourceIsNotInner(site, i, 0, j);
    var w := Head(site, i);
    SetInputsFails(s.locations, SourceKeys(site, i, 0), w.condInputs, (site.mi, x));
    StepFails(k, code, w, s);
  }

  lemma LoopShape(site: Site, i: nat)
    requires IsLoop(site, i)
    ensures site.gs[i].Loop? && OperationAt(site, i).placement.InterpretWhile?
    ensures CondSite(site, i).gs == site.gs[i].condPlan && BodySite(site, i).gs == site.gs[i].bodyPlan
  {
  }

  lemma FirstSource(site: Site, i: nat, j: nat)
    requires LoopFits(site, i) && WHILE_FIRST_INPUT + j < |OperationAt(site, i).inputs|
    ensures SourceKey(site, i, 0, j) == (site.mi, OperationAt(site, i).inputs[WHILE_FIRST_INPUT + j])
    ensures j < |SourceKeys(site, i, 0)| && SourceKey(site, i, 0, j) in SourceKeys(site, i, 0)
  {
    hide SourceKeys, CondSite, BodySite, Within, ShallowValid, OperationFits, Models.Valid, Schedules, GroupFits;
    assert SourceKeys(site, i, 0)[j] == SourceKey(site, i, 0, j);
  }

  lemma StepFails(k: Kernels, code: seq<LogicalStep>, w: LogicalStep, s: State)
    requires s.pc < |code| && code[s.pc] == w && w.WhileStep?
    requires LoopState(s, s.pc) == OUTSIDE_LOOP
    requires SetInputs(s.locations, Sources(w, 0), w.condInputs).None?
    ensures MicroStep(k, code, s) == Crashed
  {
    hide SetInputs, Sources, LoopState, EnterBodyOrExit;
  }
}
