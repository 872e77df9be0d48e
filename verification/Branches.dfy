/** An IF of the flat plan: choosing a branch, lending it the places of the outer
    operands, and what the branch leaves behind. */
module Branches {
  import opened Options
  import opened Models
  import opened Semantics
  import opened Scheduling
  import opened FlatPlans
  import opened Machine
  import opened Invariants
  import opened Simulation
  import opened PartitionSteps
  import opened Sites
  import opened Passing

  ghost predicate IsBranch(site: Site, i: nat)
    ensures IsBranch(site, i) ==> i < |site.gs| && site.gs[i].Branch? && GroupFits(site.gs[i], site.m)
  {
    i < |site.gs| && site.gs[i].Branch? && GroupFits(site.gs[i], site.m)
  }

  ghost function BranchSite(site: Site, i: nat, taken: bool): Site
    requires IsBranch(site, i)
  {
    var p, g := OperationAt(site, i).placement, site.gs[i];
    if taken then Site(p.thenModel, g.thenPlan, site.NextAt(i), site.BaseAt(i) + 1, site.NextAt(i) + 2)
    else Site(p.elseModel, g.elsePlan, site.NextAt(i) + 1, site.BaseAt(i) + 2 + CodeSize(g.thenPlan),
              site.NextAt(i) + 2 + ModelCount(g.thenPlan))
  }

  lemma BranchLies(code: seq<LogicalStep>, site: Site, i: nat, taken: bool)
    requires Installed(code, site) && IsBranch(site, i)
    ensures Within(site, i, BranchSite(site, i, taken))
    ensures Installed(code, BranchSite(site, i, taken))
    ensures site.BaseAt(i) < |code|
    ensures code[site.BaseAt(i)] == IfHead(OperationAt(site, i), site.gs[i].thenPlan, site.mi, site.BaseAt(i), site.NextAt(i))
    ensures taken ==>
              && BranchSite(site, i, taken).End() < |code|
              && code[BranchSite(site, i, taken).End()] == GotoStep(site.BaseAt(i) + GroupSize(site.gs[i]))
    ensures !taken ==> BranchSite(site, i, taken).End() == site.BaseAt(i) + GroupSize(site.gs[i])
  {
    hide Emit, EmitGroups, IfHead, BoundaryReads, Schedules, IsPermutation, Ordered, ShallowValid;
    GroupInstalled(code, site, i);
    var op, g, base, next := OperationAt(site, i), site.gs[i], site.BaseAt(i), site.NextAt(i);
    var t, e := BranchSite(site, i, true), BranchSite(site, i, false);
    assert t.Valid() && e.Valid() by {
      assert ValidPlacement(op.placement);
    }
    var head := [IfHead(op, g.thenPlan, site.mi, base, next)];
    var first := Emit(t.m, t.gs, t.mi, t.base, t.next);
    var jump := [GotoStep(t.End() + 1 + CodeSize(g.elsePlan))];
    var second := Emit(e.m, e.gs, e.mi, e.base, e.next);
    assert EmitGroup(site.m, site.Boundary(), g, site.mi, base, next) == head + first + jump + second;
    CodeAtParts(code, base, head + first + jump, second);
    CodeAtParts(code, base, head + first, jump);
    CodeAtParts(code, base, head, first);
    assert code[base] == code[base..base + 1][0];
    assert code[t.End()] == code[t.End()..t.End() + 1][0];
  }

  /** The state after the branch was chosen: control is at its first step, and its
      inputs and outputs are where the outer ones are. */
  ghost predicate BranchEntered(site: Site, i: nat, taken: bool, s: State, s1: State)
    requires IsBranch(site, i)
  {
    var sub, op := BranchSite(site, i, taken), OperationAt(site, i);
    && s1.pc == sub.base
    && s1.locations2 == s.locations2 && s1.loops == s.loops && s1.store == s.store
    && |op.inputs| >= IF_FIRST_INPUT
    && Lent(s.locations, s1.locations, site.mi, op.inputs[IF_FIRST_INPUT..], op.outputs, sub.mi, sub.m)
  }

  lemma IfReads(site: Site, i: nat, s: State, env: Env)
    requires site.Valid() && IsBranch(site, i) && Ready(site, i, s, env)
    requires Passable(OperationAt(site, i), site.m.operands)
    ensures var op := OperationAt(site, i);
            && |op.inputs| >= IF_FIRST_INPUT
            && Knows(env, op.inputs)
            && Safe(site, i, s, (site.mi, op.inputs[IF_CONDITION]), env[op.inputs[IF_CONDITION]])
            && AllSafe(site, i, s, Keys(site.mi, op.inputs[IF_FIRST_INPUT..]), Get(env, op.inputs)[IF_FIRST_INPUT..])
  {
    hide Models.Valid, Schedules, Passes, Ready, Safe, HousedBy, BoundaryReads, OutputsOf, ValidPlacement, HasLocation;
    OperandsInOrder(site, i, s, env);
    var op := OperationAt(site, i);
    assert op.inputs[IF_CONDITION] in op.inputs;
    ReadIsSafe(site, i, s, env, op.inputs[IF_CONDITION]);
    var xs := op.inputs[IF_FIRST_INPUT..];
    forall x | x in xs
      ensures x in GroupReads(site.m, site.gs[i]) && x in env && x < |site.m.operands| && HasLocation(site.m.operands[x].lifetime)
    {
      var j :| 0 <= j < |xs| && xs[j] == x;
      assert op.inputs[IF_FIRST_INPUT + j] == x;
      assert x in op.inputs;
      assert x in Passed(op);
    }
    ReadsAreSafe(site, i, s, env, xs);
    assert Get(env, op.inputs)[IF_FIRST_INPUT..] == Get(env, xs);
  }

  /** Taking a branch. */
  lemma TakesBranch(k: Kernels, code: seq<LogicalStep>, site: Site, i: nat, s: State, env: Env) returns (s1: State)
    requires Installed(code, site) && IsBranch(site, i) && Ready(site, i, s, env)
    requires Passable(OperationAt(site, i), site.m.operands)
    requires Knows(env, OperationAt(site, i).inputs) && |OperationAt(site, i).inputs| >= IF_FIRST_INPUT
    ensures MicroStep(k, code, s) == To(s1)
    ensures BranchEntered(site, i, IsTrue(env[OperationAt(site, i).inputs[IF_CONDITION]]), s, s1)
  {
    hide Models.Valid, Schedules, Passes, Faithful, Remaining, Rest, Placed, GroupFits, Within, MicroStep, TakeBranch, IfHead, Keys, SetInputs, SetOutputs, Lent, ShallowValid, CodeSize, ModelCount, IsTrue, Read, BranchSite;
    var op := OperationAt(site, i);
    var c := env[op.inputs[IF_CONDITION]];
    var taken := IsTrue(c);
    var sub := BranchSite(site, i, taken);
    BranchLies(code, site, i, taken);
    BranchOperands(site, i, taken, s, env);
    IfTargets(site, i);
    var xs := op.inputs[IF_FIRST_INPUT..];
    var r := Lend(s.locations, site.mi, xs, op.outputs, sub.mi, sub.m);
    var step := code[site.BaseAt(i)];
    s1 := s.(pc := sub.base, locations := r);
    Taking(step, s, c, SetInputs(s.locations, Keys(site.mi, xs), Keys(sub.mi, sub.m.inputIndexes)).value, r);
    StepBranches(k, code, s, step);
  }

  // ----- an operand that cannot be passed -----

  lemma TakingFails(step: LogicalStep, s: State, key: Key)
    requires step.IfStep? && key !in s.locations
    requires key == step.condition || (key in step.outerInputs && key !in step.thenInputs && key !in step.elseInputs)
    ensures TakeBranch(step, s) == Crashed
  {
    hide SetInputs, SetOutputs;
    if key != step.condition {
      SetInputsFails(s.locations, step.outerInputs, step.thenInputs, key);
      SetInputsFails(s.locations, step.outerInputs, step.elseInputs, key);
    }
  }

  // An operand without a location is the condition, or an input that no branch provides.
  lemma BlockingKey(site: Site, i: nat, step: LogicalStep, x: nat)
    requires site.Valid() && IsBranch(site, i) && |OperationAt(site, i).inputs| >= IF_FIRST_INPUT
    requires OperationAt(site, i).placement.InterpretIf? && x in Passed(OperationAt(site, i))
    requires site.NextAt(i) > site.mi
    requires step == IfHead(OperationAt(site, i), site.gs[i].thenPlan, site.mi, site.BaseAt(i), site.NextAt(i))
    ensures step.IfStep?
    ensures (site.mi, x) == step.condition || (site.mi, x) in step.outerInputs
    ensures (site.mi, x) !in step.thenInputs && (site.mi, x) !in step.elseInputs
  {
    IfTargets(site, i);
    hide Models.Valid, Schedules, Keys, CodeSize, ModelCount, IfHead;
  }

  /** An IF that is given an omitted operand crashes. */
  lemma OmittedHasNoPlace(site: Site, i: nat, s: State, env: Env, x: nat)
    requires site.Valid() && i < |site.gs| && Ready(site, i, s, env)
    requires x < |site.m.operands| && !HasLocation(site.m.operands[x].lifetime)
    ensures (site.mi, x) !in s.locations && s.pc == site.BaseAt(i)
  {
    hide Models.Valid, Schedules, Faithful, Remaining, Rest, GroupFits, CodeSize, ModelCount;
  }

  lemma BlockedBranch(k: Kernels, code: seq<LogicalStep>, site: Site, i: nat, s: State, env: Env)
    requires Installed(code, site) && IsBranch(site, i) && Ready(site, i, s, env)
    requires !Passable(OperationAt(site, i), site.m.operands)
    ensures MicroStep(k, code, s) == Crashed
  {
    var op := OperationAt(site, i);
    var x :| x in Passed(op) && x < |site.m.operands| && !HasLocation(site.m.operands[x].lifetime);
    OmittedHasNoPlace(site, i, s, env, x);
    hide Models.Valid, Schedules, Ready, GroupFits, MicroStep, TakeBranch, IfHead, Keys, CodeSize, ModelCount, BranchSite, HasLocation;
    BranchLies(code, site, i, true);
    BranchIsInterpreted(site, i);
    var step := code[site.BaseAt(i)];
    NextIsLater(site, i);
    hide Installed;
    BlockingKey(site, i, step, x);
    TakingFails(step, s, (site.mi, x));
    StepBranches(k, code, s, step);
  }

  lemma NextIsLater(site: Site, i: nat)
    requires site.Valid() && IsBranch(site, i)
    ensures site.NextAt(i) > site.mi
  {
    hide Models.Valid, Schedules, GroupFits;
  }

  lemma BranchIsInterpreted(site: Site, i: nat)
    requires site.Valid() && IsBranch(site, i)
    ensures OperationAt(site, i).placement.InterpretIf? && |OperationAt(site, i).inputs| >= IF_FIRST_INPUT
  {
    hide Schedules, Ordered;
    ValidIsShallow(site.m);
    assert OperationFits(site.m.operations[site.gs[i].op], site.m.operands);
  }

  lemma IfTargets(site: Site, i: nat)
    requires IsBranch(site, i) && |OperationAt(site, i).inputs| >= IF_FIRST_INPUT
    ensures var op, t, e := OperationAt(site, i), BranchSite(site, i, true), BranchSite(site, i, false);
            var step := IfHead(op, site.gs[i].thenPlan, site.mi, site.BaseAt(i), site.NextAt(i));
            && step.IfStep?
            && step.condition == (site.mi, op.inputs[IF_CONDITION])
            && step.thenStepIndex == t.base && step.elseStepIndex == e.base
            && step.outerInputs == Keys(site.mi, op.inputs[IF_FIRST_INPUT..]) && step.outerOutputs == Keys(site.mi, op.outputs)
            && step.thenInputs == Keys(t.mi, t.m.inputIndexes) && step.thenOutputs == Keys(t.mi, t.m.outputIndexes)
            && step.elseInputs == Keys(e.mi, e.m.inputIndexes) && step.elseOutputs == Keys(e.mi, e.m.outputIndexes)
  {
    hide Keys, CodeSize, ModelCount, Schedules;
  }

  lemma StepBranches(k: Kernels, code: seq<LogicalStep>, s: State, step: LogicalStep)
    requires step.IfStep? && s.pc < |code| && code[s.pc] == step
    ensures MicroStep(k, code, s) == TakeBranch(step, s)
  {
    hide TakeBranch;
  }

  lemma Taking(step: LogicalStep, s: State, c: Bytes, ls: Locations, r: Locations)
    requires step.IfStep? && Read(s, step.condition) == Some(c)
    requires SetInputs(s.locations, step.outerInputs, if IsTrue(c) then step.thenInputs else step.elseInputs) == Some(ls)
    requires SetOutputs(ls, step.outerOutputs, if IsTrue(c) then step.thenOutputs else step.elseOutputs) == Some(r)
    ensures TakeBranch(step, s) == To(s.(pc := if IsTrue(c) then step.thenStepIndex else step.elseStepIndex, locations := r))
  {
    hide SetInputs, SetOutputs, Read, IsTrue;
  }

  lemma BranchOperands(site: Site, i: nat, taken: bool, s: State, env: Env)
    requires site.Valid() && IsBranch(site, i) && Ready(site, i, s, env)
    requires Passable(OperationAt(site, i), site.m.operands)
    requires Within(site, i, BranchSite(site, i, taken))
    ensures var sub, op := BranchSite(site, i, taken), OperationAt(site, i);
            && ShallowValid(sub.m) && site.mi != sub.mi
            && |op.inputs| >= IF_FIRST_INPUT && op.inputs[IF_CONDITION] in env
            && Read(s, (site.mi, op.inputs[IF_CONDITION])) == Some(env[op.inputs[IF_CONDITION]])
            && |op.inputs[IF_FIRST_INPUT..]| == |sub.m.inputIndexes| && |op.outputs| == |sub.m.outputIndexes|
            && (forall x :: x in op.inputs[IF_FIRST_INPUT..] ==> (site.mi, x) in s.locations)
            && (forall y :: y in op.outputs ==> (site.mi, y) in s.locations && Writable(s.locations[(site.mi, y)]))
            && (forall z :: z in sub.m.outputIndexes && (sub.mi, z) in s.locations ==> Writable(s.locations[(sub.mi, z)]))
  {
    hide Models.Valid, Schedules, Passes, Faithful, Remaining, BoundaryReads, Placed, ValidPlacement, WrittenBy, HousedBy, OutputsOf, Rest, GroupFits, Within, ShallowValid, Ordered, Keys;
    var sub, op := BranchSite(site, i, taken), OperationAt(site, i);
    WithinIsValid(site, i, sub);
    ValidIsShallow(sub.m);
    OperandsInOrder(site, i, s, env);
    BranchFits(site, i, taken);
    IfReads(site, i, s, env);
    NextIsOrdered(site, i, s, env);
    OutputsAreWritable(site, i, s, env);
    assert op.inputs[IF_CONDITION] in op.inputs;
    var xs := op.inputs[IF_FIRST_INPUT..];
    forall x | x in xs ensures (site.mi, x) in s.locations {
      var j :| 0 <= j < |xs| && xs[j] == x;
      assert Safe(site, i, s, Keys(site.mi, xs)[j], Get(env, op.inputs)[IF_FIRST_INPUT..][j]);
    }
    BranchStale(site, i, taken, s);
  }

  lemma BranchFits(site: Site, i: nat, taken: bool)
    requires IsBranch(site, i)
    requires OperationFits(OperationAt(site, i), site.m.operands)
    ensures var sub, op := BranchSite(site, i, taken), OperationAt(site, i);
            && |op.inputs| >= IF_FIRST_INPUT
            && |op.inputs[IF_FIRST_INPUT..]| == |sub.m.inputIndexes| && |op.outputs| == |sub.m.outputIndexes|
  {
    hide Schedules;
  }

  lemma BranchStale(site: Site, i: nat, taken: bool, s: State)
    requires IsBranch(site, i)
    requires Rest(site.m, site.gs, site.mi, site.base, site.next, s)
    ensures OutputsWritable(BranchSite(site, i, taken).m, BranchSite(site, i, taken).mi, s)
    ensures NothingOmitted(BranchSite(site, i, taken).m, BranchSite(site, i, taken).mi, s)
  {
    hide GroupFits, BoundaryReads, Housed, ConstantsInPlace, OutputsWritable, NothingOmitted, CodeSize, ModelCount;
    RestHasGroup(site, i, s);
  }

  // ----- entering the branch -----

  lemma BranchAtRest(site: Site, i: nat, taken: bool, s: State)
    requires IsBranch(site, i)
    requires Rest(site.m, site.gs, site.mi, site.base, site.next, s)
    ensures var sub := BranchSite(site, i, taken); Rest(sub.m, sub.gs, sub.mi, sub.base, sub.next, s)
  {
    hide GroupFits, BoundaryReads, Housed, ConstantsInPlace, OutputsWritable, CodeSize, ModelCount;
    RestHasGroup(site, i, s);
  }

  /** Inputs of the branch are where group i leaves them alone. */
  /** The key reads a value from a place that the group does not write. */
  ghost predicate IsGiven(site: Site, i: nat, s: State, s1: State, key: Key, v: Bytes)
    requires i < |site.gs|
  {
    && key in s1.locations && Read(s1, key) == Some(v)
    && s1.locations[key] !in WrittenBy(site, i, s) && Outside(site, i, s1.locations[key])
  }

  lemma BranchInput(site: Site, i: nat, taken: bool, s: State, s1: State, env: Env, j: nat)
    requires site.Valid() && IsBranch(site, i) && Ready(site, i, s, env)
    requires Passable(OperationAt(site, i), site.m.operands)
    requires BranchEntered(site, i, taken, s, s1)
    requires j < |BranchSite(site, i, taken).m.inputIndexes|
    ensures Knows(env, OperationAt(site, i).inputs)
    ensures |OperationAt(site, i).inputs| == IF_FIRST_INPUT + |BranchSite(site, i, taken).m.inputIndexes|
    ensures IsGiven(site, i, s, s1, (BranchSite(site, i, taken).mi, BranchSite(site, i, taken).m.inputIndexes[j]),
                    Get(env, OperationAt(site, i).inputs)[IF_FIRST_INPUT..][j])
  {
    hide Models.Valid, Schedules, Passes, Ready, HousedBy, BoundaryReads, CodeSize, ModelCount, GroupModels, WrittenBy, GroupFits, BranchSite;
    var op := OperationAt(site, i);
    IfReads(site, i, s, env);
    var xs := op.inputs[IF_FIRST_INPUT..];
    assert Safe(site, i, s, Keys(site.mi, xs)[j], Get(env, op.inputs)[IF_FIRST_INPUT..][j]);
  }

  lemma BranchOutput(site: Site, i: nat, taken: bool, s: State, s1: State, env: Env, j: nat)
    requires site.Valid() && IsBranch(site, i) && Ready(site, i, s, env)
    requires BranchEntered(site, i, taken, s, s1)
    requires j < |BranchSite(site, i, taken).m.outputIndexes|
    ensures var sub, op := BranchSite(site, i, taken), OperationAt(site, i);
            var key := (sub.mi, sub.m.outputIndexes[j]);
            && |op.outputs| == |sub.m.outputIndexes| && (site.mi, op.outputs[j]) in s.locations
            && key in s1.locations && s1.locations[key] == s.locations[(site.mi, op.outputs[j])]
            && Writable(s1.locations[key])
            && s1.locations[key] in WrittenBy(site, i, s) && Outside(site, i, s1.locations[key])
  {
    hide Models.Valid, Schedules, Passes, Ready, HousedBy, BoundaryReads, CodeSize, ModelCount, GroupModels, WrittenBy, GroupFits, BranchSite;
    OperandsInOrder(site, i, s, env);
    OutputPlace(site, i, s, env, OperationAt(site, i).outputs[j]);
  }

  lemma BranchOutputsDiffer(site: Site, i: nat, taken: bool, s: State, s1: State, env: Env, a: nat, b: nat)
    requires site.Valid() && IsBranch(site, i) && Ready(site, i, s, env)
    requires BranchEntered(site, i, taken, s, s1)
    requires a < b < |BranchSite(site, i, taken).m.outputIndexes|
    ensures var sub := BranchSite(site, i, taken);
            && (sub.mi, sub.m.outputIndexes[a]) in s1.locations && (sub.mi, sub.m.outputIndexes[b]) in s1.locations
            && s1.locations[(sub.mi, sub.m.outputIndexes[a])] != s1.locations[(sub.mi, sub.m.outputIndexes[b])]
  {
    hide Models.Valid, Schedules, Passes, HousedBy, BoundaryReads, CodeSize, ModelCount, GroupModels, WrittenBy, GroupFits, BranchSite, Rest, Placed, Remaining, Faithful, Ordered, Keys, Locate, BranchEntered;
    OperandsInOrder(site, i, s, env);
    NextIsOrdered(site, i, s, env);
    var outs := OperationAt(site, i).outputs;
    BranchOutput(site, i, taken, s, s1, env, a);
    BranchOutput(site, i, taken, s, s1, env, b);
    forall x | x in outs ensures (site.mi, x) in s.locations {
      OutputPlace(site, i, s, env, x);
    }
    PlacesAreDistinct(site, i, s, env, outs);
    assert Locate(s.locations, Keys(site.mi, outs))[a] != Locate(s.locations, Keys(site.mi, outs))[b];
  }

  lemma BranchIsPlaced(site: Site, i: nat, taken: bool, s: State, s1: State, env: Env)
    requires site.Valid() && IsBranch(site, i) && Ready(site, i, s, env)
    requires Passable(OperationAt(site, i), site.m.operands)
    requires Within(site, i, BranchSite(site, i, taken))
    requires BranchEntered(site, i, taken, s, s1)
    ensures Placed(BranchSite(site, i, taken), s1)
  {
    hide Models.Valid, Schedules, Passes, Ready, HousedBy, BoundaryReads, CodeSize, ModelCount, GroupModels, WrittenBy, GroupFits, BranchSite, Mine, Outside, Within, BranchEntered;
    var sub := BranchSite(site, i, taken);
    var ins, outs := sub.m.inputIndexes, sub.m.outputIndexes;
    BranchOmits(site, i, taken, s, s1, env);
    forall x | x in ins ensures (sub.mi, x) in s1.locations && !Mine(sub, s1.locations[(sub.mi, x)]) && s1.locations[(sub.mi, x)] !in WrittenBy(site, i, s) {
      var j :| 0 <= j < |ins| && ins[j] == x;
      BranchInput(site, i, taken, s, s1, env, j);
      OutsideIsNotMine(site, i, sub, s1.locations[(sub.mi, x)]);
    }
    forall x | x in outs
      ensures (sub.mi, x) in s1.locations && !Mine(sub, s1.locations[(sub.mi, x)]) && Writable(s1.locations[(sub.mi, x)])
      ensures s1.locations[(sub.mi, x)] in WrittenBy(site, i, s)
    {
      var j :| 0 <= j < |outs| && outs[j] == x;
      BranchOutput(site, i, taken, s, s1, env, j);
      OutsideIsNotMine(site, i, sub, s1.locations[(sub.mi, x)]);
    }
    forall x, y | x in outs && y in outs && x != y ensures s1.locations[(sub.mi, x)] != s1.locations[(sub.mi, y)] {
      var a :| 0 <= a < |outs| && outs[a] == x;
      var b :| 0 <= b < |outs| && outs[b] == y;
      if a < b { BranchOutputsDiffer(site, i, taken, s, s1, env, a, b); }
      else { BranchOutputsDiffer(site, i, taken, s, s1, env, b, a); }
    }
  }

  /** Omitted operands of the branch have no place before and after it was chosen. */
  lemma BranchOmits(site: Site, i: nat, taken: bool, s: State, s1: State, env: Env)
    requires site.Valid() && IsBranch(site, i) && Ready(site, i, s, env)
    requires Within(site, i, BranchSite(site, i, taken))
    requires BranchEntered(site, i, taken, s, s1)
    ensures NothingOmitted(BranchSite(site, i, taken).m, BranchSite(site, i, taken).mi, s1)
  {
    hide Models.Valid, Schedules, Passes, BoundaryReads, CodeSize, ModelCount, GroupModels, GroupFits, BranchSite, Rest, Placed, Faithful, Remaining, Ordered, OperationFits, NothingOmitted;
    var sub := BranchSite(site, i, taken);
    WithinIsValid(site, i, sub);
    ValidIsShallow(sub.m);
    BranchStale(site, i, taken, s);
    LendingOmits(sub.m, sub.mi, s, s1);
  }

  lemma BranchIsEntered(site: Site, i: nat, taken: bool, s: State, s1: State, env: Env)
    requires site.Valid() && IsBranch(site, i) && Ready(site, i, s, env)
    requires Passable(OperationAt(site, i), site.m.operands)
    requires Within(site, i, BranchSite(site, i, taken))
    requires BranchEntered(site, i, taken, s, s1)
    ensures var op := OperationAt(site, i);
            && Knows(env, op.inputs) && |op.inputs| >= IF_FIRST_INPUT
            && Entered(BranchSite(site, i, taken), s1, Get(env, op.inputs)[IF_FIRST_INPUT..])
  {
    hide Models.Valid, Schedules, Passes, HousedBy, BoundaryReads, CodeSize, ModelCount, GroupModels, WrittenBy, GroupFits, BranchSite, Outside, Rest, Placed, Remaining, Faithful, SetInputs, Safe;
    var sub, op := BranchSite(site, i, taken), OperationAt(site, i);
    WithinIsValid(site, i, sub);
    BranchIsPlaced(site, i, taken, s, s1, env);
    BranchAtRest(site, i, taken, s);
    MovingKeepsRest(sub, s, s1);
    IfReads(site, i, s, env);
    var ins, vals := sub.m.inputIndexes, Get(env, op.inputs)[IF_FIRST_INPUT..];
    forall j | 0 <= j < |ins| ensures Read(s1, Keys(sub.mi, ins)[j]) == Some(vals[j]) {
      BranchInput(site, i, taken, s, s1, env, j);
    }
  }

  // ----- leaving it -----

  lemma BranchChanges(site: Site, i: nat, taken: bool, s: State, s1: State, s2: State, env: Env, vals: seq<Bytes>)
    requires site.Valid() && IsBranch(site, i) && Ready(site, i, s, env)
    requires Within(site, i, BranchSite(site, i, taken))
    requires BranchEntered(site, i, taken, s, s1)
    requires Left(BranchSite(site, i, taken), s1, s2, vals)
    ensures GroupChanges(site, i, s, s2)
  {
    hide Models.Valid, Schedules, Passes, Ready, HousedBy, BoundaryReads, CodeSize, ModelCount, GroupModels, WrittenBy, GroupFits, BranchSite, Rest, OwnPlaces, Outside, Keys;
    var sub := BranchSite(site, i, taken);
    var lo, hi := site.NextAt(i), site.NextAt(i) + GroupModels(site.gs[i]);
    var from, to := site.BaseAt(i), site.BaseAt(i) + GroupSize(site.gs[i]);
    assert Changes(lo, hi, from, to, WrittenBy(site, i, s), s, s1);
    BranchOwnPlaces(site, i, taken, s, s1, env);
    ChangesWiden(sub.next, sub.Top(), sub.base, sub.End(), OwnPlaces(sub, s1), lo, hi, from, to, WrittenBy(site, i, s), s1, s2);
    ChangesCompose(lo, hi, from, to, WrittenBy(site, i, s), s, s1, s2);
  }

  lemma BranchOwnPlaces(site: Site, i: nat, taken: bool, s: State, s1: State, env: Env)
    requires site.Valid() && IsBranch(site, i) && Ready(site, i, s, env)
    requires Within(site, i, BranchSite(site, i, taken))
    requires BranchEntered(site, i, taken, s, s1)
    ensures forall l :: l in OwnPlaces(BranchSite(site, i, taken), s1) ==>
              !l.Constant? && (l in WrittenBy(site, i, s) || (l.Slot? && site.NextAt(i) <= l.key.0 < site.NextAt(i) + GroupModels(site.gs[i])))
  {
    hide Models.Valid, Schedules, Passes, Ready, HousedBy, BoundaryReads, CodeSize, ModelCount, GroupModels, WrittenBy, GroupFits, BranchSite, Rest, Outside, Keys, BranchEntered;
    var sub := BranchSite(site, i, taken);
    var outs := sub.m.outputIndexes;
    forall l | l in OwnPlaces(sub, s1)
      ensures !l.Constant? && (l in WrittenBy(site, i, s) || (l.Slot? && site.NextAt(i) <= l.key.0 < site.NextAt(i) + GroupModels(site.gs[i])))
    {
      if x :| x in outs && (sub.mi, x) in s1.locations && s1.locations[(sub.mi, x)] == l {
        var j :| 0 <= j < |outs| && outs[j] == x;
        BranchOutput(site, i, taken, s, s1, env, j);
      } else {
        assert exists x :: 0 <= x < |sub.m.operands| && l == Slot((sub.mi, x), false);
      }
    }
  }

  /** The other branch has not noticed. */
  lemma OtherBranchRests(site: Site, i: nat, taken: bool, s: State, s1: State, s2: State, env: Env, vals: seq<Bytes>)
    requires site.Valid() && IsBranch(site, i) && Ready(site, i, s, env)
    requires Within(site, i, BranchSite(site, i, taken)) && Within(site, i, BranchSite(site, i, !taken))
    requires BranchEntered(site, i, taken, s, s1)
    requires Left(BranchSite(site, i, taken), s1, s2, vals)
    ensures var other := BranchSite(site, i, !taken);
            Rest(other.m, other.gs, other.mi, other.base, other.next, s2)
    ensures OutputsWritable(BranchSite(site, i, !taken).m, BranchSite(site, i, !taken).mi, s2)
    ensures NothingOmitted(BranchSite(site, i, !taken).m, BranchSite(site, i, !taken).mi, s2)
  {
    hide Models.Valid, Schedules, Passes, HousedBy, BoundaryReads, CodeSize, ModelCount, GroupModels, WrittenBy, GroupFits, Rest, OwnPlaces, Outside, Keys, Placed, Remaining, Faithful, OutputsWritable, ValuesAre;
    var sub, other := BranchSite(site, i, taken), BranchSite(site, i, !taken);
    BranchAtRest(site, i, !taken, s);
    BranchStale(site, i, !taken, s);
    assert Changes(sub.mi, sub.mi + 1, 0, 0, {}, s, s1);
    ElsewhereKeepsRest(other, sub.mi, sub.mi + 1, 0, 0, {}, s, s1);
    BranchOwnPlaces(site, i, taken, s, s1, env);
    ElsewhereKeepsRest(other, sub.next, sub.Top(), sub.base, sub.End(), OwnPlaces(sub, s1), s1, s2);
    forall key: Key | key.0 == other.mi ensures SameAt(s.locations, s2.locations, key) {
      assert SameAt(s.locations, s1.locations, key) && SameAt(s1.locations, s2.locations, key);
    }
    OutputsWritableIsKept(other.m, other.mi, s, s2);
    OmittedIsKept(other.m, other.mi, s, s2);
  }

  lemma TakenBranchIsWritable(site: Site, i: nat, taken: bool, s: State, s1: State, s2: State, env: Env, vals: seq<Bytes>)
    requires site.Valid() && IsBranch(site, i) && Ready(site, i, s, env)
    requires Within(site, i, BranchSite(site, i, taken))
    requires BranchEntered(site, i, taken, s, s1)
    requires Left(BranchSite(site, i, taken), s1, s2, vals)
    ensures OutputsWritable(BranchSite(site, i, taken).m, BranchSite(site, i, taken).mi, s2)
    ensures NothingOmitted(BranchSite(site, i, taken).m, BranchSite(site, i, taken).mi, s2)
    ensures ValuesAre(s2, Keys(site.mi, OperationAt(site, i).outputs), vals)
  {
    hide Models.Valid, Schedules, Passes, Ready, HousedBy, BoundaryReads, CodeSize, ModelCount, GroupModels, WrittenBy, GroupFits, BranchSite, Rest, OwnPlaces, Outside, BranchEntered, Changes;
    var sub, op := BranchSite(site, i, taken), OperationAt(site, i);
    var outs := sub.m.outputIndexes;
    BranchChanges(site, i, taken, s, s1, s2, env, vals);
    OwnLocationsStay(site, i, s, s2);
    WithinIsValid(site, i, sub);
    OwnPlacesStay(sub, s1, s2);
    BranchOmits(site, i, taken, s, s1, env);
    OmittedIsKept(sub.m, sub.mi, s1, s2);
    forall x | x in outs && (sub.mi, x) in s2.locations ensures Writable(s2.locations[(sub.mi, x)]) {
      var j :| 0 <= j < |outs| && outs[j] == x;
      BranchOutput(site, i, taken, s, s1, env, j);
      assert SameAt(s1.locations, s2.locations, (sub.mi, x));
    }
    forall j | 0 <= j < |outs|
      ensures |op.outputs| == |outs| && Read(s2, Keys(site.mi, op.outputs)[j]) == Some(vals[j])
    {
      BranchOutput(site, i, taken, s, s1, env, j);
      assert SameAt(s1.locations, s2.locations, (sub.mi, outs[j]));
      assert SameAt(s.locations, s2.locations, (site.mi, op.outputs[j]));
      assert Read(s2, Keys(sub.mi, outs)[j]) == Some(vals[j]);
    }
    BranchEnteredLengths(site, i, taken, s, s1);
  }

  lemma BranchEnteredLengths(site: Site, i: nat, taken: bool, s: State, s1: State)
    requires IsBranch(site, i) && BranchEntered(site, i, taken, s, s1)
    ensures |OperationAt(site, i).outputs| == |BranchSite(site, i, taken).m.outputIndexes|
  {
  }

  /** The branch has run and control has come to the end of the group. */
  lemma BranchIsLeft(site: Site, i: nat, taken: bool, s: State, s1: State, s2: State, s': State, env: Env, vals: seq<Bytes>)
    requires site.Valid() && IsBranch(site, i) && Ready(site, i, s, env)
    requires Within(site, i, BranchSite(site, i, taken)) && Within(site, i, BranchSite(site, i, !taken))
    requires BranchEntered(site, i, taken, s, s1)
    requires Left(BranchSite(site, i, taken), s1, s2, vals)
    requires s' == s2.(pc := site.BaseAt(i) + GroupSize(site.gs[i]))
    ensures |vals| == |OperationAt(site, i).outputs|
    ensures GroupDone(site, i, s, s', env, Bind(env, OperationAt(site, i).outputs, vals))
  {
    hide Models.Valid, Schedules, Passes, Ready, HousedBy, BoundaryReads, CodeSize, ModelCount, GroupModels, WrittenBy, GroupFits, Rest, OwnPlaces, Outside, BranchEntered, Keys, Within, Housed, ConstantsInPlace, OutputsWritable, NothingOmitted, GroupSize, BranchSite;
    BranchChanges(site, i, taken, s, s1, s2, env, vals);
    OtherBranchRests(site, i, taken, s, s1, s2, env, vals);
    TakenBranchIsWritable(site, i, taken, s, s1, s2, env, vals);
    OwnPartStays(site, i, s, s2, env);
    BranchRest(site, i, s2, s');
    ControlFlowIsDone(site, i, s, s', env, vals);
  }

  lemma BranchRest(site: Site, i: nat, s: State, s': State)
    requires site.Valid() && IsBranch(site, i)
    requires s' == s.(pc := s'.pc)
    requires Housed(site.m, site.Boundary(), site.gs[i], site.mi, s) && ConstantsInPlace(site.m, site.gs[i], site.mi, s)
    requires forall taken ::
               var sub := BranchSite(site, i, taken);
               OutputsWritable(sub.m, sub.mi, s) && NothingOmitted(sub.m, sub.mi, s) && Rest(sub.m, sub.gs, sub.mi, sub.base, sub.next, s)
    ensures RestGroup(site.m, site.Boundary(), site.gs[i], site.mi, site.BaseAt(i), site.NextAt(i), s')
  {
    hide Schedules, Passes, BoundaryReads, CodeSize, ModelCount, GroupModels, GroupSize, Housed, ConstantsInPlace, OutputsWritable, NothingOmitted, Rest, Models.Valid;
    var t, e := BranchSite(site, i, true), BranchSite(site, i, false);
    assert RestGroup(site.m, site.Boundary(), site.gs[i], site.mi, site.BaseAt(i), site.NextAt(i), s);
    RestGroupIsKept(site.m, site.Boundary(), site.gs[i], site.mi, site.BaseAt(i), site.NextAt(i), s, s');
  }
}
