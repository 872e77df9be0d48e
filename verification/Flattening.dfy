/** Flattening preserves meaning: the interpreter of flat plans computes what the
    nested run computes. */
module Flattening {
  import opened Options
  import opened Models
  import opened Semantics
  import opened Scheduling
  import opened FlatPlans
  import opened Machine
  import opened Invariants
  import opened Simulation
  import opened PartitionSteps
  import opened Sites
  import opened Passing
  import opened Branches
  import opened Loops

  /** `n` steps from `s` agree with the result `r` of a nested run: they lead to `s'`,
      or to a failure, or are as many as there was fuel and still go on. */
  ghost predicate Follows<T>(k: Kernels, code: seq<LogicalStep>, s: State, n: nat, s': State, fuel: nat, r: Outcome<T>) {
    match r
    case Done(_) => Steps(k, code, s, n) == To(s')
    case Failed => Steps(k, code, s, n) == Crashed
    case OutOfFuel => n >= fuel && Steps(k, code, s, n).To?
  }

  lemma FollowsAfter<T>(k: Kernels, code: seq<LogicalStep>, s: State, a: nat, s1: State, n: nat, s': State, fuel: nat, fuel': nat, r: Outcome<T>)
    requires Steps(k, code, s, a) == To(s1)
    requires Follows(k, code, s1, n, s', fuel, r) && fuel' <= fuel + a
    ensures Follows(k, code, s, a + n, s', fuel', r)
  {
    StepsCompose(k, code, s, a, s1, n);
  }

  lemma OneStep(k: Kernels, code: seq<LogicalStep>, s: State, s1: State)
    requires MicroStep(k, code, s) == To(s1)
    ensures Steps(k, code, s, 1) == To(s1)
  {
    assert Steps(k, code, s1, 0) == To(s1);
  }

  lemma Jump(k: Kernels, code: seq<LogicalStep>, s: State, target: nat)
    requires s.pc < |code| && code[s.pc] == GotoStep(target)
    ensures Steps(k, code, s, 1) == To(s.(pc := target))
  {
    OneStep(k, code, s, s.(pc := target));
  }

  /** The steps of one source model compute what its nested run computes. */
  lemma {:induction false} SiteRuns(k: Kernels, fuel: nat, code: seq<LogicalStep>, site: Site, s: State, args: seq<Bytes>)
    returns (n: nat, s': State)
    requires Installed(code, site) && Entered(site, s, args)
    ensures Follows(k, code, s, n, s', fuel, RunPlan(k, fuel, site.m, site.gs, args))
    ensures var r := RunPlan(k, fuel, site.m, site.gs, args); r.Done? ==> Left(site, s, s', r.value)
    decreases site.gs, 3
  {
    hide Models.Valid, Schedules, Passes, Entered, Ready, CodeAt, SiteChanges, Left, Bind, Follows, RunGroups;
    StartSite(site, s, args);
    var env := Bind(Constants(site.m), site.m.inputIndexes, args);
    assert site.gs[0..] == site.gs;
    n, s' := GroupsRun(k, fuel, code, site, 0, s, env);
    var r := RunGroups(k, fuel, site.m, site.gs, env);
    if r.Done? {
      FinishSite(site, s, s', r.value);
    }
    FollowsAlike(k, code, s, n, s', fuel, r, RunPlan(k, fuel, site.m, site.gs, args));
  }

  lemma FollowsAlike<T, U>(k: Kernels, code: seq<LogicalStep>, s: State, n: nat, s': State, fuel: nat, r: Outcome<T>, r': Outcome<U>)
    requires Follows(k, code, s, n, s', fuel, r)
    requires r.Done? <==> r'.Done?
    requires r.Failed? <==> r'.Failed?
    ensures Follows(k, code, s, n, s', fuel, r')
  {
  }

  lemma {:induction false} GroupsRun(k: Kernels, fuel: nat, code: seq<LogicalStep>, site: Site, i: nat, s: State, env: Env)
    returns (n: nat, s': State)
    requires Installed(code, site) && i <= |site.gs| && Ready(site, i, s, env)
    ensures var r := RunGroups(k, fuel, site.m, site.gs[i..], env);
            && Follows(k, code, s, n, s', fuel, r)
            && (r.Done? ==> SiteChanges(site, s, s') && Ready(site, |site.gs|, s', r.value))
    decreases site.gs, 2, |site.gs| - i
  {
    hide Models.Valid, Schedules, Passes, Ready, CodeAt, SiteChanges, Follows, RunGroup, GroupDone, GroupChanges;
    if i == |site.gs| {
      n, s' := 0, s;
      SiteUnchanged(site, s);
      assert Follows(k, code, s, 0, s, fuel, RunGroups(k, fuel, site.m, site.gs[i..], env)) by { EmptyRun(k, code, s, fuel, Done(env)); }
    } else {
      assert site.gs[i..][0] == site.gs[i] && site.gs[i..][1..] == site.gs[i + 1..];
      var a, s1 := GroupRuns(k, fuel, code, site, i, s, env);
      var r1 := RunGroup(k, fuel, site.m, site.gs[i], env);
      if r1.Done? {
        GroupLeavesReady(site, i, s, s1, env, r1.value);
        assert GroupChanges(site, i, s, s1) by { GroupDoneChanges(site, i, s, s1, env, r1.value); }
        GroupChangesAreSiteChanges(site, i, s, s1, env);
        var b;
        b, s' := GroupsRun(k, fuel, code, site, i + 1, s1, r1.value);
        n := a + b;
        var r := RunGroups(k, fuel, site.m, site.gs[i + 1..], r1.value);
        FollowsDone(k, code, s, a, s1, fuel, r1);
        FollowsAfter(k, code, s, a, s1, b, s', fuel, fuel, r);
        if r.Done? {
          SiteChangesCompose(site, s, s1, s');
        }
      } else {
        n, s' := a, s1;
        FollowsAlike(k, code, s, n, s', fuel, r1, RunGroups(k, fuel, site.m, site.gs[i..], env));
      }
    }
  }

  lemma FollowsDone<T>(k: Kernels, code: seq<LogicalStep>, s: State, n: nat, s': State, fuel: nat, r: Outcome<T>)
    requires Follows(k, code, s, n, s', fuel, r) && r.Done?
    ensures Steps(k, code, s, n) == To(s')
  {
  }

  lemma EmptyRun<T>(k: Kernels, code: seq<LogicalStep>, s: State, fuel: nat, r: Outcome<T>)
    requires r.Done?
    ensures Follows(k, code, s, 0, s, fuel, r)
  {
  }

  lemma SiteUnchanged(site: Site, s: State)
    ensures SiteChanges(site, s, s)
  {
  }

  lemma GroupDoneChanges(site: Site, i: nat, s: State, s': State, env: Env, env': Env)
    requires GroupDone(site, i, s, s', env, env')
    ensures GroupChanges(site, i, s, s')
  {
  }

  lemma {:induction false} GroupRuns(k: Kernels, fuel: nat, code: seq<LogicalStep>, site: Site, i: nat, s: State, env: Env)
    returns (n: nat, s': State)
    requires Installed(code, site) && i < |site.gs| && Ready(site, i, s, env)
    ensures var r := RunGroup(k, fuel, site.m, site.gs[i], env);
            && Follows(k, code, s, n, s', fuel, r)
            && (r.Done? ==> GroupDone(site, i, s, s', env, r.value))
    decreases site.gs, 1
  {
    hide Models.Valid, Schedules, Passes, Ready, CodeAt, RunGroup, GroupDone, Steps, MicroStep;
    assert GroupFits(site.gs[i], site.m) by { GroupInstalled(code, site, i); }
    match site.gs[i] {
      case Partition(_, _) =>
        s' := PartitionRuns(k, fuel, code, site, i, s, env);
        n := 1;
        StepFollows(k, code, s, s', fuel, RunGroup(k, fuel, site.m, site.gs[i], env));
      case Branch(_, _, _) =>
        if Passable(OperationAt(site, i), site.m.operands) {
          n, s' := BranchRuns(k, fuel, code, site, i, s, env);
        } else {
          BlockedBranch(k, code, site, i, s, env);
          n, s' := 1, s;
          BlockedFails(k, fuel, site, i, env);
          StepFollows(k, code, s, s, fuel, RunGroup(k, fuel, site.m, site.gs[i], env));
        }
      case Loop(_, _, _) =>
        if Passable(OperationAt(site, i), site.m.operands) {
          n, s' := LoopRuns(k, fuel, code, site, i, s, env);
        } else {
          BlockedLoop(k, code, site, i, s, env);
          n, s' := 1, s;
          BlockedFails(k, fuel, site, i, env);
          StepFollows(k, code, s, s, fuel, RunGroup(k, fuel, site.m, site.gs[i], env));
        }
    }
  }

  lemma BlockedFails(k: Kernels, fuel: nat, site: Site, i: nat, env: Env)
    requires i < |site.gs| && GroupFits(site.gs[i], site.m) && !site.gs[i].Partition?
    requires !Passable(OperationAt(site, i), site.m.operands)
    ensures RunGroup(k, fuel, site.m, site.gs[i], env).Failed?
  {
    hide GroupFits;
  }

  lemma StepFollows<T>(k: Kernels, code: seq<LogicalStep>, s: State, s': State, fuel: nat, r: Outcome<T>)
    requires match r
             case Done(_) => MicroStep(k, code, s) == To(s')
             case Failed => MicroStep(k, code, s) == Crashed
             case OutOfFuel => false
    ensures Follows(k, code, s, 1, s', fuel, r)
  {
    hide MicroStep;
    if r.Done? { OneStep(k, code, s, s'); }
  }

  lemma {:induction false} BranchRuns(k: Kernels, fuel: nat, code: seq<LogicalStep>, site: Site, i: nat, s: State, env: Env)
    returns (n: nat, s': State)
    requires Installed(code, site) && IsBranch(site, i) && Ready(site, i, s, env)
    requires Passable(OperationAt(site, i), site.m.operands)
    ensures var r := RunGroup(k, fuel, site.m, site.gs[i], env);
            && Follows(k, code, s, n, s', fuel, r)
            && (r.Done? ==> GroupDone(site, i, s, s', env, r.value))
    decreases site.gs, 0, 1
  {
    hide Models.Valid, Schedules, Passes, Ready, CodeAt, RunGroup, GroupDone, Steps, MicroStep, Follows, Installed, IsBranch, AllSafe, Safe, BranchSite, BranchEntered, Entered, RunPlan, Within, Bind, Keys;
    var op := OperationAt(site, i);
    IfReads(site, i, s, env);
    var taken := IsTrue(env[op.inputs[IF_CONDITION]]);
    BranchLies(code, site, i, taken);
    var s1 := TakesBranch(k, code, site, i, s, env);
    BranchIsEntered(site, i, taken, s, s1, env);
    BranchResult(k, fuel, site, i, env, taken);
    n, s' := BranchGoesOn(k, fuel, code, site, i, s, s1, env, taken, Get(env, op.inputs)[IF_FIRST_INPUT..]);
  }

  /** What the group makes of the result of the branch taken. */
  ghost predicate BranchYields(site: Site, i: nat, env: Env, r: Outcome<Env>, r1: Outcome<seq<Bytes>>)
    requires IsBranch(site, i)
  {
    var op := OperationAt(site, i);
    && (r1.Failed? ==> r.Failed?) && (r1.OutOfFuel? ==> r.OutOfFuel?)
    && (r1.Done? && |r1.value| == |op.outputs| ==> r == Done(Bind(env, op.outputs, r1.value)))
  }

  lemma BranchOutcome(site: Site, i: nat, env: Env, r: Outcome<Env>, r1: Outcome<seq<Bytes>>)
    requires IsBranch(site, i) && BranchYields(site, i, env, r, r1)
    ensures (r1.Failed? ==> r.Failed?) && (r1.OutOfFuel? ==> r.OutOfFuel?)
    ensures r1.Done? && |r1.value| == |OperationAt(site, i).outputs| ==> r == Done(Bind(env, OperationAt(site, i).outputs, r1.value))
  {
  }

  /** The branch has been entered. */
  lemma {:induction false} BranchGoesOn(k: Kernels, fuel: nat, code: seq<LogicalStep>, site: Site, i: nat, s: State, s1: State, env: Env, taken: bool, args: seq<Bytes>)
    returns (n: nat, s': State)
    requires Installed(code, site) && IsBranch(site, i) && Ready(site, i, s, env)
    requires MicroStep(k, code, s) == To(s1) && BranchEntered(site, i, taken, s, s1)
    requires var sub := BranchSite(site, i, taken);
             && Entered(sub, s1, args)
             && BranchYields(site, i, env, RunGroup(k, fuel, site.m, site.gs[i], env), RunPlan(k, fuel, sub.m, sub.gs, args))
    ensures var r := RunGroup(k, fuel, site.m, site.gs[i], env);
            && Follows(k, code, s, n, s', fuel, r)
            && (r.Done? ==> GroupDone(site, i, s, s', env, r.value))
    decreases site.gs, 0, 0
  {
    hide *;
    var sub := BranchSite(site, i, taken);
    BranchShape(site, i, taken);
    BranchLies(code, site, i, taken);
    BranchLies(code, site, i, !taken);
    OneStep(k, code, s, s1);
    var a, s2 := SiteRuns(k, fuel, code, sub, s1, args);
    var r, r1 := RunGroup(k, fuel, site.m, site.gs[i], env), RunPlan(k, fuel, sub.m, sub.gs, args);
    BranchOutcome(site, i, env, r, r1);
    FollowsAfter(k, code, s, 1, s1, a, s2, fuel, fuel, r1);
    n, s' := 1 + a, s2;
    if r1.Done? {
      FollowsDone(k, code, s, n, s2, fuel, r1);
      s' := s2.(pc := site.BaseAt(i) + GroupSize(site.gs[i]));
      LeftIsAtEnd(sub, s1, s2, r1.value);
      if taken {
        Jump(k, code, s2, site.BaseAt(i) + GroupSize(site.gs[i]));
        StepsCompose(k, code, s, n, s2, 1);
        n := n + 1;
      }
      BranchIsLeft(site, i, taken, s, s1, s2, s', env, r1.value);
      DoneFollows(k, code, s, n, s', fuel, r);
    } else {
      FollowsAlike(k, code, s, n, s', fuel, r1, r);
    }
  }

  lemma LeftIsAtEnd(site: Site, s: State, s': State, vals: seq<Bytes>)
    requires Left(site, s, s', vals)
    ensures s'.pc == site.End()
    ensures |vals| == |site.m.outputIndexes|
  {
  }

  lemma DoneFollows<T>(k: Kernels, code: seq<LogicalStep>, s: State, n: nat, s': State, fuel: nat, r: Outcome<T>)
    requires Steps(k, code, s, n) == To(s') && r.Done?
    ensures Follows(k, code, s, n, s', fuel, r)
  {
  }

  lemma BranchResult(k: Kernels, fuel: nat, site: Site, i: nat, env: Env, taken: bool)
    requires site.Valid() && IsBranch(site, i) && Passable(OperationAt(site, i), site.m.operands)
    requires var op := OperationAt(site, i);
             Knows(env, op.inputs) && |op.inputs| >= IF_FIRST_INPUT && taken == IsTrue(env[op.inputs[IF_CONDITION]])
    ensures var op, sub := OperationAt(site, i), BranchSite(site, i, taken);
            BranchYields(site, i, env, RunGroup(k, fuel, site.m, site.gs[i], env),
                         RunPlan(k, fuel, sub.m, sub.gs, Get(env, op.inputs)[IF_FIRST_INPUT..]))
  {
    hide Models.Valid, Schedules, Passes, Passable, RunPlan, Bind, CodeSize, ModelCount;
  }

  lemma {:induction false} LoopRuns(k: Kernels, fuel: nat, code: seq<LogicalStep>, site: Site, i: nat, s: State, env: Env)
    returns (n: nat, s': State)
    requires Installed(code, site) && IsLoop(site, i) && Ready(site, i, s, env)
    requires Passable(OperationAt(site, i), site.m.operands)
    ensures var r := RunGroup(k, fuel, site.m, site.gs[i], env);
            && Follows(k, code, s, n, s', fuel, r)
            && (r.Done? ==> GroupDone(site, i, s, s', env, r.value))
    decreases site.gs, 0, fuel + 1
  {
    hide Models.Valid, Schedules, Passes, Ready, CodeAt, RunGroup, GroupDone, Follows, Within, AtCondition, IterateGroup, ShallowValid, OperationFits;
    LoopLies(code, site, i);
    LoopStarts(site, i, s, env);
    var init := Get(env, OperationAt(site, i).inputs)[WHILE_FIRST_INPUT..];
    n, s' := LoopGoesOn(k, fuel, fuel, code, site, i, s, env, s, 0, init, init);
    LoopResult(k, fuel, site, i, env);
    FollowsAlike(k, code, s, n, s', fuel, IterateGroup(k, fuel, fuel, OperationAt(site, i), site.gs[i], init),
                 RunGroup(k, fuel, site.m, site.gs[i], env));
  }

  lemma LoopResult(k: Kernels, fuel: nat, site: Site, i: nat, env: Env)
    requires site.Valid() && IsLoop(site, i) && Passable(OperationAt(site, i), site.m.operands)
    requires var op := OperationAt(site, i); Knows(env, op.inputs) && |op.inputs| >= WHILE_FIRST_INPUT
    ensures var op := OperationAt(site, i);
            var r, r1 := RunGroup(k, fuel, site.m, site.gs[i], env), IterateGroup(k, fuel, fuel, op, site.gs[i], Get(env, op.inputs)[WHILE_FIRST_INPUT..]);
            && (r1.Failed? ==> r.Failed?) && (r1.OutOfFuel? ==> r.OutOfFuel?)
            && (r1.Done? && |r1.value| == |op.outputs| ==> r == Done(Bind(env, op.outputs, r1.value)))
  {
    hide Models.Valid, Schedules, Passes, Passable, IterateGroup, Bind, CodeSize, ModelCount;
  }

  /** What the loop makes of a state for which the condition was true. */
  ghost function AfterBody(k: Kernels, left: nat, fuel: nat, op: Operation, g: Group, state: seq<Bytes>): Outcome<seq<Bytes>>
    requires g.Loop? && op.placement.InterpretWhile? && left > 0
  {
    match RunPlan(k, fuel, op.placement.bodyModel, g.bodyPlan, state)
    case Failed => Failed
    case OutOfFuel => OutOfFuel
    case Done(b) => if |b| > |state| then Failed else IterateGroup(k, left - 1, fuel, op, g, b + state[|b|..])
  }

  lemma BranchShape(site: Site, i: nat, taken: bool)
    requires IsBranch(site, i)
    ensures site.gs[i].Branch?
    ensures BranchSite(site, i, taken).gs == if taken then site.gs[i].thenPlan else site.gs[i].elsePlan
  {
  }

  lemma LoopUnfolds(k: Kernels, left: nat, fuel: nat, site: Site, i: nat, state: seq<Bytes>)
    requires IsLoop(site, i) && left > 0
    ensures var op, c := OperationAt(site, i), CondSite(site, i);
            var r, r1 := IterateGroup(k, left, fuel, op, site.gs[i], state), RunPlan(k, fuel, c.m, c.gs, state);
            && (r1.Failed? ==> r.Failed?) && (r1.OutOfFuel? ==> r.OutOfFuel?)
            && (r1.Done? && |r1.value| == 1 && IsTrue(r1.value[0]) ==> r == AfterBody(k, left, fuel, op, site.gs[i], state))
            && (r1.Done? && |r1.value| == 1 && !IsTrue(r1.value[0]) && |op.outputs| <= |state| ==> r == Done(state[..|op.outputs|]))
  {
    hide RunPlan, Schedules, CodeSize, ModelCount;
  }

  lemma LoopStops(k: Kernels, fuel: nat, site: Site, i: nat, state: seq<Bytes>)
    requires IsLoop(site, i)
    ensures IterateGroup(k, 0, fuel, OperationAt(site, i), site.gs[i], state).OutOfFuel?
  {
  }

  lemma BodyUnfolds(k: Kernels, left: nat, fuel: nat, site: Site, i: nat, state: seq<Bytes>)
    requires IsLoop(site, i) && left > 0
    ensures var op, b := OperationAt(site, i), BodySite(site, i);
            var r, r1 := AfterBody(k, left, fuel, op, site.gs[i], state), RunPlan(k, fuel, b.m, b.gs, state);
            && (r1.Failed? ==> r.Failed?) && (r1.OutOfFuel? ==> r.OutOfFuel?)
            && (r1.Done? && |r1.value| <= |state| ==>
                  r == IterateGroup(k, left - 1, fuel, op, site.gs[i], r1.value + state[|r1.value|..]))
  {
    hide RunPlan, IterateGroup, Schedules, CodeSize, ModelCount;
  }

  lemma AtConditionIsAtHead(site: Site, i: nat, s0: State, s: State, it: nat, state: seq<Bytes>, init: seq<Bytes>)
    requires LoopFits(site, i)
    requires AtCondition(site, i, s0, s, it, state, init) || AtBody(site, i, s0, s, it, state, init)
    ensures s.pc == site.BaseAt(i) && Looping(site, i, s0, s)
  {
    hide Models.Valid, Schedules, Passes, Within, ShallowValid, OperationFits, GroupFits;
  }

  lemma NoFuel<T>(k: Kernels, code: seq<LogicalStep>, s: State, r: Outcome<T>)
    requires r.OutOfFuel?
    ensures Follows(k, code, s, 0, s, 0, r)
  {
  }

  /** The loop from iteration `it` on, `left` of which are followed. */
  lemma {:induction false} LoopGoesOn(k: Kernels, left: nat, fuel: nat, code: seq<LogicalStep>, site: Site, i: nat, s0: State, env: Env,
                                      s: State, it: nat, state: seq<Bytes>, init: seq<Bytes>)
    returns (n: nat, s': State)
    requires Installed(code, site) && LoopFits(site, i) && Ready(site, i, s0, env)
    requires AtCondition(site, i, s0, s, it, state, init)
    requires left <= fuel
    ensures var op := OperationAt(site, i);
            var r := IterateGroup(k, left, fuel, op, site.gs[i], state);
            && Follows(k, code, s, n, s', left, r)
            && (r.Done? ==> |r.value| == |op.outputs| && GroupDone(site, i, s0, s', env, Bind(env, op.outputs, r.value)))
    decreases site.gs, 0, left, 1
  {
    hide *;
    var op := OperationAt(site, i);
    LoopShape(site, i);
    var r := IterateGroup(k, left, fuel, op, site.gs[i], state);
    if left == 0 {
      n, s' := 0, s;
      LoopStops(k, fuel, site, i, state);
      NoFuel(k, code, s, r);
    } else {
      LoopUnfolds(k, left, fuel, site, i, state);
      LoopLies(code, site, i);
      AtConditionIsAtHead(site, i, s0, s, it, state, init);
      var c := CondSite(site, i);
      var s1 := EntersCondition(k, code, site, i, s0, s, it, state, init);
      ConditionIsEntered(site, i, s0, s, s1, it, state, init);
      OneStep(k, code, s, s1);
      var x, s2 := SiteRuns(k, fuel, code, c, s1, state);
      var r1 := RunPlan(k, fuel, c.m, c.gs, state);
      FollowsAfter(k, code, s, 1, s1, x, s2, fuel, left, r1);
      n, s' := 1 + x, s2;
      if r1.Done? {
        var s3 := ConditionIsLeft(site, i, s0, s, s1, s2, it, state, init, r1.value);
        assert r1.value == [r1.value[0]];
        BackToLoop(k, code, site, i, c, s, n, s1, s2, s3, left, r1);
        n, s' := CondGoesOn(k, left, fuel, code, site, i, s0, env, s, n + 1, s3, it, state, init, r1.value[0]);
      } else {
        FollowsAlike(k, code, s, n, s', left, r1, r);
      }
    }
  }

  /** The jump from the end of the condition or the body back to the loop. */
  lemma BackToLoop(k: Kernels, code: seq<LogicalStep>, site: Site, i: nat, sub: Site, s: State, n: nat, s1: State, s2: State, s3: State, left: nat, r: Outcome<seq<Bytes>>)
    requires i <= |site.gs|
    requires sub.End() < |code| && code[sub.End()] == GotoStep(site.BaseAt(i))
    requires r.Done? && Left(sub, s1, s2, r.value)
    requires Follows(k, code, s, n, s2, left, r)
    requires s3 == s2.(pc := site.BaseAt(i))
    ensures Steps(k, code, s, n + 1) == To(s3)
  {
    hide Left, MicroStep, Steps, CodeSize;
    LeftIsAtEnd(sub, s1, s2, r.value);
    Jump(k, code, s2, site.BaseAt(i));
    StepsCompose(k, code, s, n, s2, 1);
  }

  /** `a` steps after `s` the condition has been evaluated to `v`. */
  lemma {:induction false} CondGoesOn(k: Kernels, left: nat, fuel: nat, code: seq<LogicalStep>, site: Site, i: nat, s0: State, env: Env,
                                      s: State, a: nat, s3: State, it: nat, state: seq<Bytes>, init: seq<Bytes>, v: Bytes)
    returns (n: nat, s': State)
    requires Installed(code, site) && LoopFits(site, i) && Ready(site, i, s0, env)
    requires AtBody(site, i, s0, s3, it, state, init)
    requires Steps(k, code, s, a) == To(s3)
    requires 0 < left <= fuel
    requires var c := CondSite(site, i);
             && |c.m.outputIndexes| == 1 && Read(s3, (c.mi, c.m.outputIndexes[0])) == Some(v)
             && RunPlan(k, fuel, c.m, c.gs, state) == Done([v])
    ensures var op := OperationAt(site, i);
            var r := IterateGroup(k, left, fuel, op, site.gs[i], state);
            && Follows(k, code, s, n, s', left, r)
            && (r.Done? ==> |r.value| == |op.outputs| && GroupDone(site, i, s0, s', env, Bind(env, op.outputs, r.value)))
    decreases site.gs, 0, left, 0, 1
  {
    hide *;
    var op := OperationAt(site, i);
    LoopShape(site, i);
    var r := IterateGroup(k, left, fuel, op, site.gs[i], state);
    LoopUnfolds(k, left, fuel, site, i, state);
    LoopLies(code, site, i);
    AtConditionIsAtHead(site, i, s0, s3, it, state, init);
    if IsTrue(v) {
      n, s' := BodyGoesOn(k, left, fuel, code, site, i, s0, env, s3, it, state, init, v);
      FollowsAfter(k, code, s, a, s3, n, s', left, left, r);
      n := a + n;
    } else {
      s' := LeavesLoop(k, code, site, i, s0, s3, env, it, state, init, v);
      LoopIsLeft(site, i, s0, s3, s', env, state[..|op.outputs|]);
      OneStep(k, code, s3, s');
      StepsCompose(k, code, s, a, s3, 1);
      n := a + 1;
      DoneFollows(k, code, s, n, s', left, r);
    }
  }

  lemma {:induction false} BodyGoesOn(k: Kernels, left: nat, fuel: nat, code: seq<LogicalStep>, site: Site, i: nat, s0: State, env: Env,
                                      s: State, it: nat, state: seq<Bytes>, init: seq<Bytes>, v: Bytes)
    returns (n: nat, s': State)
    requires Installed(code, site) && LoopFits(site, i) && Ready(site, i, s0, env)
    requires AtBody(site, i, s0, s, it, state, init)
    requires 0 < left <= fuel
    requires var c := CondSite(site, i);
             |c.m.outputIndexes| == 1 && Read(s, (c.mi, c.m.outputIndexes[0])) == Some(v) && IsTrue(v)
    ensures var op := OperationAt(site, i);
            var r := AfterBody(k, left, fuel, op, site.gs[i], state);
            && Follows(k, code, s, n, s', left, r)
            && (r.Done? ==> |r.value| == |op.outputs| && GroupDone(site, i, s0, s', env, Bind(env, op.outputs, r.value)))
    decreases site.gs, 0, left, 0, 0
  {
    hide *;
    var op, b := OperationAt(site, i), BodySite(site, i);
    LoopShape(site, i);
    var r := AfterBody(k, left, fuel, op, site.gs[i], state);
    BodyUnfolds(k, left, fuel, site, i, state);
    LoopLies(code, site, i);
    AtConditionIsAtHead(site, i, s0, s, it, state, init);
    var s1 := EntersBody(k, code, site, i, s0, s, it, state, init, v);
    BodyIsEntered(site, i, s0, s, s1, it, state, init);
    OneStep(k, code, s, s1);
    var x, s2 := SiteRuns(k, fuel, code, b, s1, state);
    var r1 := RunPlan(k, fuel, b.m, b.gs, state);
    FollowsAfter(k, code, s, 1, s1, x, s2, fuel, left, r1);
    n, s' := 1 + x, s2;
    if r1.Done? {
      var s3 := BodyIsLeft(site, i, s0, s, s1, s2, it, state, init, r1.value);
      BackToLoop(k, code, site, i, b, s, n, s1, s2, s3, left, r1);
      var a := n + 1;
      n, s' := LoopGoesOn(k, left - 1, fuel, code, site, i, s0, env, s3, it + 1, r1.value + state[|r1.value|..], init);
      FollowsAfter(k, code, s, a, s3, n, s', left - 1, left, r);
      n := a + n;
    } else {
      FollowsAlike(k, code, s, n, s', left, r1, r);
    }
  }
}
