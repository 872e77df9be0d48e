/** Every call of the interpreter comes to an execution step or to the end: a rank
    that every control flow step lowers, in spite of the jumps back. */
module Progress {
  import opened Models
  import opened Semantics
  import opened Scheduling
  import opened FlatPlans
  import opened Machine
  import opened Invariants

  /** The plan and all plans inside of it have at least one group. */
  predicate Nonempty(gs: seq<Group>)
    decreases gs, 1
  {
    |gs| > 0 && forall i :: 0 <= i < |gs| ==> NonemptyInside(gs[i])
  }

  predicate NonemptyInside(g: Group)
    decreases g, 0
  {
    match g
    case Partition(_, _) => true
    case Branch(_, t, e) => Nonempty(t) && Nonempty(e)
    case Loop(_, c, b) => Nonempty(c) && Nonempty(b)
  }

  function Max(a: nat, b: nat): nat { if a < b then b else a }

  /** Control flow steps from the start of a group to its first execution step. */
  function FirstOf(g: Group): nat
    decreases g
  {
    match g
    case Partition(_, _) => 0
    case Branch(_, t, e) => 1 + Max(First(t), First(e))
    case Loop(_, c, _) => 1 + First(c)
  }

  function First(gs: seq<Group>): nat
    decreases gs
  {
    if gs == [] then 0 else FirstOf(gs[0])
  }

  /** The rank at the start of `gs`, where `k` is the rank past its end. */
  function Entry(gs: seq<Group>, k: nat): nat {
    if gs == [] then k else FirstOf(gs[0])
  }

  /** A bound on the control flow steps from `pc` to the next execution step. The
      direction that a loop takes next depends on its stage. */
  function Rank(gs: seq<Group>, base: nat, k: nat, pc: nat, s: State): nat
    requires base <= pc <= base + CodeSize(gs)
    decreases gs, 1
  {
    if gs == [] then k
    else if pc < base + GroupSize(gs[0]) then RankIn(gs[0], base, Entry(gs[1..], k), pc, s)
    else Rank(gs[1..], base + GroupSize(gs[0]), k, pc, s)
  }

  function RankIn(g: Group, base: nat, after: nat, pc: nat, s: State): nat
    requires base <= pc < base + GroupSize(g)
    decreases g, 0
  {
    match g
    case Partition(_, _) => 0
    case Branch(_, t, e) =>
      if pc == base then FirstOf(g)
      else if pc <= base + 1 + CodeSize(t) then Rank(t, base + 1, 1 + after, pc, s)
      else Rank(e, base + 2 + CodeSize(t), after, pc, s)
    case Loop(_, c, b) =>
      if pc == base then
        if LoopState(s, base).stage == EvaluateCondition then FirstOf(g) else 1 + Max(First(b), after)
      else if pc <= base + 1 + CodeSize(c) then Rank(c, base + 1, 2 + Max(First(b), after), pc, s)
      else Rank(b, base + 2 + CodeSize(c), 2 + First(c), pc, s)
  }

  /** A loop waits for its condition exactly while control is in its condition. */
  ghost predicate Staged(gs: seq<Group>, base: nat, s: State)
    decreases gs, 1
  {
    forall i :: 0 <= i < |gs| ==> StagedIn(gs[i], base + CodeSize(gs[..i]), s)
  }

  ghost predicate StagedIn(g: Group, base: nat, s: State)
    decreases g, 0
  {
    match g
    case Partition(_, _) => true
    case Branch(_, t, e) => Staged(t, base + 1, s) && Staged(e, base + 2 + CodeSize(t), s)
    case Loop(_, c, b) =>
      && (s.pc != base ==> (LoopState(s, base).stage == EvaluateBody <==> base < s.pc <= base + 1 + CodeSize(c)))
      && Staged(c, base + 1, s)
      && Staged(b, base + 2 + CodeSize(c), s)
  }

  // ----- control outside of a plan leaves its stages alone -----

  ghost predicate Elsewhere(lo: nat, hi: nat, s: State, s': State) {
    && !(lo <= s.pc < hi) && !(lo <= s'.pc < hi)
    && forall p: nat :: lo <= p < hi ==> LoopState(s, p) == LoopState(s', p)
  }

  lemma {:induction false} StagedElsewhere(gs: seq<Group>, base: nat, s: State, s': State)
    requires Staged(gs, base, s)
    requires Elsewhere(base, base + CodeSize(gs), s, s')
    ensures Staged(gs, base, s')
    decreases gs, 1
  {
    hide StagedIn;
    forall i | 0 <= i < |gs| ensures StagedIn(gs[i], base + CodeSize(gs[..i]), s') {
      SizesSplit(gs, i);
      StagedInElsewhere(gs[i], base + CodeSize(gs[..i]), s, s');
    }
  }

  lemma {:induction false} StagedInElsewhere(g: Group, base: nat, s: State, s': State)
    requires StagedIn(g, base, s)
    requires Elsewhere(base, base + GroupSize(g), s, s')
    ensures StagedIn(g, base, s')
    decreases g, 0
  {
    hide Staged;
    match g {
      case Partition(_, _) =>
      case Branch(_, t, e) =>
        StagedElsewhere(t, base + 1, s, s');
        StagedElsewhere(e, base + 2 + CodeSize(t), s, s');
      case Loop(_, c, b) =>
        StagedElsewhere(c, base + 1, s, s');
        StagedElsewhere(b, base + 2 + CodeSize(c), s, s');
    }
  }

  /** Control comes to the start of a plan from outside of it. */
  ghost predicate Arriving(lo: nat, hi: nat, s: State, s': State) {
    && !(lo <= s.pc < hi) && s'.pc == lo
    && forall p: nat :: lo <= p < hi ==> LoopState(s, p) == LoopState(s', p)
  }

  lemma StagedArriving(gs: seq<Group>, base: nat, s: State, s': State)
    requires Staged(gs, base, s) && gs != []
    requires Arriving(base, base + CodeSize(gs), s, s')
    ensures Staged(gs, base, s')
    ensures gs[0].Loop? ==> LoopState(s', base).stage == EvaluateCondition
  {
    hide Staged;
    forall i | 0 <= i < |gs| ensures StagedIn(gs[i], base + CodeSize(gs[..i]), s') {
      SizesSplit(gs, i);
      StagedHas(gs, base, s, i);
      if i == 0 {
        FirstStagedArriving(gs[0], base, s, s');
      } else {
        SizesOrdered(gs, 0, i);
        GroupIsNotEmpty(gs[0]);
        StagedInElsewhere(gs[i], base + CodeSize(gs[..i]), s, s');
      }
    }
    StagedFrom(gs, base, s');
    SizesSplit(gs, 0);
    StagedHas(gs, base, s, 0);
  }

  lemma GroupIsNotEmpty(g: Group)
    ensures GroupSize(g) > 0
  {
  }

  lemma StagedHas(gs: seq<Group>, base: nat, s: State, i: nat)
    requires Staged(gs, base, s) && i < |gs|
    ensures StagedIn(gs[i], base + CodeSize(gs[..i]), s)
    ensures i == 0 ==> StagedIn(gs[0], base, s)
  {
    hide StagedIn;
    if i == 0 { assert CodeSize(gs[..0]) == 0; }
  }

  lemma StagedFrom(gs: seq<Group>, base: nat, s: State)
    requires forall i :: 0 <= i < |gs| ==> StagedIn(gs[i], base + CodeSize(gs[..i]), s)
    ensures Staged(gs, base, s)
  {
    hide StagedIn;
  }

  lemma FirstStagedArriving(g: Group, base: nat, s: State, s': State)
    requires StagedIn(g, base, s)
    requires !(base <= s.pc < base + GroupSize(g)) && s'.pc == base
    requires forall p: nat :: base <= p < base + GroupSize(g) ==> LoopState(s, p) == LoopState(s', p)
    ensures StagedIn(g, base, s')
  {
    hide Staged;
    match g {
      case Partition(_, _) =>
      case Branch(_, t, e) =>
        StagedElsewhere(t, base + 1, s, s');
        StagedElsewhere(e, base + 2 + CodeSize(t), s, s');
      case Loop(_, c, b) =>
        StagedElsewhere(c, base + 1, s, s');
        StagedElsewhere(b, base + 2 + CodeSize(c), s, s');
    }
  }

  // ----- ranks at the ends of a plan -----

  lemma {:induction false} RankAtEnd(gs: seq<Group>, base: nat, k: nat, s: State)
    ensures Rank(gs, base, k, base + CodeSize(gs), s) == k
  {
    if gs != [] {
      GroupIsNotEmpty(gs[0]);
      RankAtEnd(gs[1..], base + GroupSize(gs[0]), k, s);
    }
  }

  lemma RankAtStart(gs: seq<Group>, base: nat, k: nat, s: State)
    requires gs != [] && gs[0].Loop? ==> LoopState(s, base).stage == EvaluateCondition
    ensures Rank(gs, base, k, base, s) == Entry(gs, k)
  {
    if gs != [] { GroupIsNotEmpty(gs[0]); }
  }

  // ----- what the steps do to the program counter and the loops -----

  /** Where control may go from a step, whatever the values are that it reads. */
  ghost predicate Moves(code: seq<LogicalStep>, s: State, s': State) {
    && s.pc < |code|
    && match code[s.pc]
       case ExecutionStep(_, _, _, _, _) => s'.pc == s.pc + 1 && s'.loops == s.loops
       case IfStep(_, t, e, _, _, _, _, _, _) => (s'.pc == t || s'.pc == e) && s'.loops == s.loops
       case GotoStep(target) => s'.pc == target && s'.loops == s.loops
       case WhileStep(c, b, x, _, _, _, _, _, _) =>
         && (forall p :: p != s.pc ==> LoopState(s', p) == LoopState(s, p))
         && if LoopState(s, s.pc).stage == EvaluateCondition then
              s'.pc == c && LoopState(s', s.pc).stage == EvaluateBody
            else
              (s'.pc == b || s'.pc == x) && LoopState(s', s.pc).stage == EvaluateCondition
  }

  lemma MicroStepMoves(k: Kernels, code: seq<LogicalStep>, s: State, s': State)
    requires MicroStep(k, code, s) == To(s')
    ensures Moves(code, s, s')
  {
    hide SetInputs, SetOutputs, Sources, Read, CopyAll, Locate, Exchange, AllWritable, RunOperations, Bind, Constants, ReadAll, Readable, Keys;
  }

  lemma IfMoves(code: seq<LogicalStep>, s: State, s': State)
    requires Moves(code, s, s') && code[s.pc].IfStep?
    ensures s'.pc == code[s.pc].thenStepIndex || s'.pc == code[s.pc].elseStepIndex
    ensures s'.loops == s.loops
  {
  }

  lemma WhileMoves(code: seq<LogicalStep>, s: State, s': State)
    requires Moves(code, s, s') && code[s.pc].WhileStep?
    ensures forall p :: p != s.pc ==> LoopState(s', p) == LoopState(s, p)
    ensures if LoopState(s, s.pc).stage == EvaluateCondition then
              s'.pc == code[s.pc].condStepIndex && LoopState(s', s.pc).stage == EvaluateBody
            else
              && (s'.pc == code[s.pc].bodyStepIndex || s'.pc == code[s.pc].exitStepIndex)
              && LoopState(s', s.pc).stage == EvaluateCondition
  {
  }

  lemma ExecutionMoves(code: seq<LogicalStep>, s: State, s': State)
    requires Moves(code, s, s') && code[s.pc].ExecutionStep?
    ensures s'.pc == s.pc + 1 && s'.loops == s.loops
  {
  }

  lemma GotoMoves(code: seq<LogicalStep>, s: State, s': State)
    requires Moves(code, s, s') && code[s.pc].GotoStep?
    ensures s'.pc == code[s.pc].target && s'.loops == s.loops
  {
  }

  // ----- one step within a plan -----

  /** The step stayed within lo..hi or came to hi, and touched no other loop. */
  ghost predicate StaysWithin(lo: nat, hi: nat, s: State, s': State) {
    && lo <= s'.pc <= hi
    && forall p: nat :: !(lo <= p < hi) ==> LoopState(s', p) == LoopState(s, p)
  }

  ghost predicate Fit(gs: seq<Group>, m: Model) {
    forall i :: 0 <= i < |gs| ==> GroupFits(gs[i], m)
  }

  ghost predicate PlanAt(code: seq<LogicalStep>, m: Model, boundary: set<nat>, gs: seq<Group>, mi: nat, base: nat, next: nat)
    ensures PlanAt(code, m, boundary, gs, mi, base, next) ==> Fit(gs, m) && base + CodeSize(gs) <= |code|
  {
    Fit(gs, m) && CodeAt(code, base, EmitGroups(m, boundary, gs, mi, base, next))
  }

  ghost predicate GroupAt(code: seq<LogicalStep>, m: Model, boundary: set<nat>, g: Group, mi: nat, base: nat, next: nat)
    ensures GroupAt(code, m, boundary, g, mi, base, next) ==> GroupFits(g, m) && base + GroupSize(g) <= |code|
  {
    GroupFits(g, m) && CodeAt(code, base, EmitGroup(m, boundary, g, mi, base, next))
  }

  lemma PlanSplits(code: seq<LogicalStep>, m: Model, boundary: set<nat>, gs: seq<Group>, mi: nat, base: nat, next: nat)
    requires gs != [] && PlanAt(code, m, boundary, gs, mi, base, next)
    ensures GroupAt(code, m, boundary, gs[0], mi, base, next)
    ensures PlanAt(code, m, boundary, gs[1..], mi, base + GroupSize(gs[0]), next + GroupModels(gs[0]))
  {
    hide EmitGroup, GroupFits, CodeAt, GroupSize, GroupModels;
    assert Fit(gs[1..], m);
    var first, rest := EmitGroup(m, boundary, gs[0], mi, base, next),
                       EmitGroups(m, boundary, gs[1..], mi, base + GroupSize(gs[0]), next + GroupModels(gs[0]));
    assert EmitGroups(m, boundary, gs, mi, base, next) == first + rest;
    hide EmitGroups, Fit;
    CodeAtParts(code, base, first, rest);
  }

  lemma EmittedPlan(code: seq<LogicalStep>, m: Model, gs: seq<Group>, mi: nat, base: nat, next: nat)
    requires Schedules(gs, m) && CodeAt(code, base, Emit(m, gs, mi, base, next))
    ensures PlanAt(code, m, BoundaryReads(m, gs), gs, mi, base, next)
  {
    hide EmitGroups, GroupFits, Ordered, IsPermutation;
  }

  lemma PartsAt(code: seq<LogicalStep>, base: nat, head: LogicalStep, first: seq<LogicalStep>, jump: LogicalStep, second: seq<LogicalStep>, tail: seq<LogicalStep>)
    requires CodeAt(code, base, [head] + first + [jump] + second + tail)
    ensures base + 2 + |first| + |second| + |tail| <= |code|
    ensures code[base] == head && code[base + 1 + |first|] == jump
    ensures CodeAt(code, base + 1, first) && CodeAt(code, base + 2 + |first|, second)
    ensures CodeAt(code, base + 2 + |first| + |second|, tail)
  {
    CodeAtParts(code, base, [head] + first + [jump] + second, tail);
    CodeAtParts(code, base, [head] + first + [jump], second);
    CodeAtParts(code, base, [head] + first, [jump]);
    CodeAtParts(code, base, [head], first);
    var j := base + 1 + |first|;
    assert code[base] == code[base..base + 1][0] && code[j] == code[j..j + 1][0];
  }

  lemma InnerFits(m: Model, g: Group)
    requires GroupFits(g, m)
    ensures !g.Partition? ==> g.op < |m.operations|
    ensures g.Branch? ==>
              && m.operations[g.op].placement.InterpretIf?
              && Schedules(g.thenPlan, m.operations[g.op].placement.thenModel)
              && Schedules(g.elsePlan, m.operations[g.op].placement.elseModel)
    ensures g.Loop? ==>
              && m.operations[g.op].placement.InterpretWhile?
              && Schedules(g.condPlan, m.operations[g.op].placement.condModel)
              && Schedules(g.bodyPlan, m.operations[g.op].placement.bodyModel)
  {
    hide Schedules;
  }

  lemma BranchCode(code: seq<LogicalStep>, m: Model, boundary: set<nat>, g: Group, mi: nat, base: nat, next: nat)
    requires g.Branch? && GroupAt(code, m, boundary, g, mi, base, next)
    requires g.op < |m.operations| && m.operations[g.op].placement.InterpretIf?
    requires Schedules(g.thenPlan, m.operations[g.op].placement.thenModel) && Schedules(g.elsePlan, m.operations[g.op].placement.elseModel)
    ensures var op, t, e := m.operations[g.op], g.thenPlan, g.elsePlan;
            && GroupSize(g) == 2 + CodeSize(t) + CodeSize(e)
            && code[base] == IfHead(op, t, mi, base, next) && code[base + 1 + CodeSize(t)] == GotoStep(base + GroupSize(g))
            && CodeAt(code, base + 1, Emit(op.placement.thenModel, t, next, base + 1, next + 2))
            && CodeAt(code, base + 2 + CodeSize(t), Emit(op.placement.elseModel, e, next + 1, base + 2 + CodeSize(t), next + 2 + ModelCount(t)))
  {
    hide Emit, EmitGroups, IfHead, CodeAt, Schedules;
    var op, t, e := m.operations[g.op], g.thenPlan, g.elsePlan;
    var first, second := Emit(op.placement.thenModel, t, next, base + 1, next + 2), Emit(op.placement.elseModel, e, next + 1, base + 2 + CodeSize(t), next + 2 + ModelCount(t));
    assert EmitGroup(m, boundary, g, mi, base, next) == [IfHead(op, t, mi, base, next)] + first + [GotoStep(base + GroupSize(g))] + second + [];
    PartsAt(code, base, IfHead(op, t, mi, base, next), first, GotoStep(base + GroupSize(g)), second, []);
  }

  lemma BranchParts(code: seq<LogicalStep>, m: Model, boundary: set<nat>, g: Group, mi: nat, base: nat, next: nat)
    requires g.Branch? && GroupAt(code, m, boundary, g, mi, base, next)
    ensures g.op < |m.operations| && m.operations[g.op].placement.InterpretIf?
    ensures var p := m.operations[g.op].placement;
            && PlanAt(code, p.thenModel, BoundaryReads(p.thenModel, g.thenPlan), g.thenPlan, next, base + 1, next + 2)
            && PlanAt(code, p.elseModel, BoundaryReads(p.elseModel, g.elsePlan), g.elsePlan, next + 1, base + 2 + CodeSize(g.thenPlan), next + 2 + ModelCount(g.thenPlan))
            && code[base].IfStep? && code[base].thenStepIndex == base + 1 && code[base].elseStepIndex == base + 2 + CodeSize(g.thenPlan)
            && code[base + 1 + CodeSize(g.thenPlan)] == GotoStep(base + GroupSize(g))
            && GroupSize(g) == 2 + CodeSize(g.thenPlan) + CodeSize(g.elsePlan)
  {
    hide Emit, EmitGroups, EmitGroup, BoundaryReads, Keys, CodeAt, PlanAt, GroupAt, Schedules, GroupFits, GroupSize, CodeSize, ModelCount;
    InnerFits(m, g);
    var op, t, e := m.operations[g.op], g.thenPlan, g.elsePlan;
    BranchCode(code, m, boundary, g, mi, base, next);
    EmittedPlan(code, op.placement.thenModel, t, next, base + 1, next + 2);
    EmittedPlan(code, op.placement.elseModel, e, next + 1, base + 2 + CodeSize(t), next + 2 + ModelCount(t));
  }

  lemma LoopCode(code: seq<LogicalStep>, m: Model, boundary: set<nat>, g: Group, mi: nat, base: nat, next: nat)
    requires g.Loop? && GroupAt(code, m, boundary, g, mi, base, next)
    requires g.op < |m.operations| && m.operations[g.op].placement.InterpretWhile?
    requires Schedules(g.condPlan, m.operations[g.op].placement.condModel) && Schedules(g.bodyPlan, m.operations[g.op].placement.bodyModel)
    ensures var op, c, b := m.operations[g.op], g.condPlan, g.bodyPlan;
            && GroupSize(g) == 3 + CodeSize(c) + CodeSize(b)
            && code[base] == WhileHead(op, c, b, mi, base, next)
            && code[base + 1 + CodeSize(c)] == GotoStep(base) && code[base + 2 + CodeSize(c) + CodeSize(b)] == GotoStep(base)
            && CodeAt(code, base + 1, Emit(op.placement.condModel, c, next, base + 1, next + 2))
            && CodeAt(code, base + 2 + CodeSize(c), Emit(op.placement.bodyModel, b, next + 1, base + 2 + CodeSize(c), next + 2 + ModelCount(c)))
  {
    hide Emit, EmitGroups, WhileHead, CodeAt, Schedules;
    var op, c, b := m.operations[g.op], g.condPlan, g.bodyPlan;
    var head, jump := WhileHead(op, c, b, mi, base, next), GotoStep(base);
    var first, second := Emit(op.placement.condModel, c, next, base + 1, next + 2), Emit(op.placement.bodyModel, b, next + 1, base + 2 + CodeSize(c), next + 2 + ModelCount(c));
    assert EmitGroup(m, boundary, g, mi, base, next) == [head] + first + [jump] + second + [jump];
    PartsAt(code, base, head, first, jump, second, [jump]);
    LastAt(code, base + 2 + CodeSize(c) + CodeSize(b), jump);
  }

  lemma LoopParts(code: seq<LogicalStep>, m: Model, boundary: set<nat>, g: Group, mi: nat, base: nat, next: nat)
    requires g.Loop? && GroupAt(code, m, boundary, g, mi, base, next)
    ensures g.op < |m.operations| && m.operations[g.op].placement.InterpretWhile?
    ensures var p := m.operations[g.op].placement;
            && PlanAt(code, p.condModel, BoundaryReads(p.condModel, g.condPlan), g.condPlan, next, base + 1, next + 2)
            && PlanAt(code, p.bodyModel, BoundaryReads(p.bodyModel, g.bodyPlan), g.bodyPlan, next + 1, base + 2 + CodeSize(g.condPlan), next + 2 + ModelCount(g.condPlan))
            && code[base].WhileStep? && code[base].condStepIndex == base + 1 && code[base].bodyStepIndex == base + 2 + CodeSize(g.condPlan)
            && code[base].exitStepIndex == base + GroupSize(g)
            && code[base + 1 + CodeSize(g.condPlan)] == GotoStep(base)
            && code[base + 2 + CodeSize(g.condPlan) + CodeSize(g.bodyPlan)] == GotoStep(base)
            && GroupSize(g) == 3 + CodeSize(g.condPlan) + CodeSize(g.bodyPlan)
  {
    hide Emit, EmitGroups, EmitGroup, BoundaryReads, Keys, CodeAt, PlanAt, GroupAt, Schedules, GroupFits, GroupSize, CodeSize, ModelCount;
    InnerFits(m, g);
    var op, c, b := m.operations[g.op], g.condPlan, g.bodyPlan;
    LoopCode(code, m, boundary, g, mi, base, next);
    EmittedPlan(code, op.placement.condModel, c, next, base + 1, next + 2);
    EmittedPlan(code, op.placement.bodyModel, b, next + 1, base + 2 + CodeSize(c), next + 2 + ModelCount(c));
  }

  lemma LastAt(code: seq<LogicalStep>, p: nat, step: LogicalStep)
    requires CodeAt(code, p, [step])
    ensures p < |code| && code[p] == step
  {
    assert code[p] == code[p..p + 1][0];
  }

  /** The rank within a group, and past its end. */
  function RankOver(g: Group, base: nat, after: nat, pc: nat, s: State): nat
    requires base <= pc <= base + GroupSize(g)
  {
    if pc == base + GroupSize(g) then after else RankIn(g, base, after, pc, s)
  }

  /** A step of a plan stays within it, keeps its loops staged and lowers the rank,
      unless it is an execution step. */
  lemma {:induction false} StepInPlan(code: seq<LogicalStep>, m: Model, boundary: set<nat>, gs: seq<Group>, mi: nat, base: nat, next: nat,
                                      after: nat, s: State, s': State)
    requires PlanAt(code, m, boundary, gs, mi, base, next)
    requires forall i :: 0 <= i < |gs| ==> NonemptyInside(gs[i])
    requires base <= s.pc < base + CodeSize(gs)
    requires Staged(gs, base, s) && Moves(code, s, s')
    ensures StaysWithin(base, base + CodeSize(gs), s, s') && Staged(gs, base, s')
    ensures !code[s.pc].ExecutionStep? ==> Rank(gs, base, after, s'.pc, s') < Rank(gs, base, after, s.pc, s)
    decreases gs, 1
  {
    hide Moves, PlanAt, GroupAt, NonemptyInside, Staged, RankIn, Fit;
    var g, rest := gs[0], gs[1..];
    var mid := base + GroupSize(g);
    GroupIsNotEmpty(g);
    PlanSplits(code, m, boundary, gs, mi, base, next);
    StagedSplits(gs, base, s);
    if s.pc < mid {
      var entry := Entry(rest, after);
      StepInGroup(code, m, boundary, g, mi, base, next, entry, s, s');
      if s'.pc == mid && rest != [] {
        StagedArriving(rest, mid, s, s');
        RankAtStart(rest, mid, after, s');
      } else {
        StagedElsewhere(rest, mid, s, s');
        RankAtStart([], mid, after, s');
      }
    } else {
      StepInPlan(code, m, boundary, rest, mi, mid, next + GroupModels(g), after, s, s');
      StagedInStays(g, base, s, s');
    }
    StagedJoins(gs, base, s');
  }

  lemma StagedSplits(gs: seq<Group>, base: nat, s: State)
    requires gs != [] && Staged(gs, base, s)
    ensures StagedIn(gs[0], base, s) && Staged(gs[1..], base + GroupSize(gs[0]), s)
  {
    hide Staged, StagedIn;
    StagedHas(gs, base, s, 0);
    forall i | 0 <= i < |gs[1..]| ensures StagedIn(gs[1..][i], base + GroupSize(gs[0]) + CodeSize(gs[1..][..i]), s) {
      StagedHas(gs, base, s, i + 1);
      assert gs[..i + 1][1..] == gs[1..][..i];
    }
    StagedFrom(gs[1..], base + GroupSize(gs[0]), s);
  }

  lemma StagedJoins(gs: seq<Group>, base: nat, s: State)
    requires gs != [] && StagedIn(gs[0], base, s) && Staged(gs[1..], base + GroupSize(gs[0]), s)
    ensures Staged(gs, base, s)
  {
    hide Staged, StagedIn;
    forall i | 0 <= i < |gs| ensures StagedIn(gs[i], base + CodeSize(gs[..i]), s) {
      if i == 0 {
        assert CodeSize(gs[..0]) == 0;
      } else {
        StagedHas(gs[1..], base + GroupSize(gs[0]), s, i - 1);
        assert gs[..i][1..] == gs[1..][..i - 1];
      }
    }
    StagedFrom(gs, base, s);
  }

  lemma StagedInStays(g: Group, base: nat, s: State, s': State)
    requires StagedIn(g, base, s)
    requires s.pc >= base + GroupSize(g) && s'.pc >= base + GroupSize(g)
    requires forall p: nat :: base <= p < base + GroupSize(g) ==> LoopState(s', p) == LoopState(s, p)
    ensures StagedIn(g, base, s')
  {
    hide StagedIn;
    StagedInElsewhere(g, base, s, s');
  }

  lemma {:induction false} StepInGroup(code: seq<LogicalStep>, m: Model, boundary: set<nat>, g: Group, mi: nat, base: nat, next: nat,
                                       after: nat, s: State, s': State)
    requires GroupAt(code, m, boundary, g, mi, base, next) && NonemptyInside(g)
    requires base <= s.pc < base + GroupSize(g)
    requires StagedIn(g, base, s) && Moves(code, s, s')
    ensures StaysWithin(base, base + GroupSize(g), s, s') && StagedIn(g, base, s')
    ensures !code[s.pc].ExecutionStep? ==> RankOver(g, base, after, s'.pc, s') < RankIn(g, base, after, s.pc, s)
    decreases g, 1
  {
    match g {
      case Partition(_, _) =>
        hide Moves;
        assert code[base] == code[base..base + 1][0];
        ExecutionMoves(code, s, s');
      case Branch(_, _, _) => StepInBranch(code, m, boundary, g, mi, base, next, after, s, s');
      case Loop(_, _, _) => StepInLoop(code, m, boundary, g, mi, base, next, after, s, s');
    }
  }

  lemma {:induction false} StepInBranch(code: seq<LogicalStep>, m: Model, boundary: set<nat>, g: Group, mi: nat, base: nat, next: nat,
                                        after: nat, s: State, s': State)
    requires g.Branch? && GroupAt(code, m, boundary, g, mi, base, next) && NonemptyInside(g)
    requires base <= s.pc < base + GroupSize(g)
    requires StagedIn(g, base, s) && Moves(code, s, s')
    ensures StaysWithin(base, base + GroupSize(g), s, s') && StagedIn(g, base, s')
    ensures !code[s.pc].ExecutionStep? ==> RankOver(g, base, after, s'.pc, s') < RankIn(g, base, after, s.pc, s)
    decreases g, 0
  {
    hide *;
    var t, e := g.thenPlan, g.elsePlan;
    var second := base + 2 + CodeSize(t);
    BranchParts(code, m, boundary, g, mi, base, next);
    var p := m.operations[g.op].placement;
    InsidePlans(g);
    StagedInside(g, base, s);
    if s.pc == base {
      IfMoves(code, s, s');
      TakeBranchLowers(g, base, after, s, s');
    } else if s.pc < base + 1 + CodeSize(t) {
      StepInPlan(code, p.thenModel, BoundaryReads(p.thenModel, t), t, next, base + 1, next + 2, 1 + after, s, s');
      InThenPlan(g, base, after, s, s');
    } else if s.pc == base + 1 + CodeSize(t) {
      GotoMoves(code, s, s');
      PastThenPlan(g, base, after, s, s');
    } else {
      StepInPlan(code, p.elseModel, BoundaryReads(p.elseModel, e), e, next + 1, second, next + 2 + ModelCount(t), after, s, s');
      InElsePlan(g, base, after, s, s');
    }
  }

  lemma InThenPlan(g: Group, base: nat, after: nat, s: State, s': State)
    requires g.Branch? && StagedIn(g, base, s)
    requires base + 1 <= s.pc < base + 1 + CodeSize(g.thenPlan) && StaysWithin(base + 1, base + 1 + CodeSize(g.thenPlan), s, s')
    requires Staged(g.thenPlan, base + 1, s')
    ensures StaysWithin(base, base + GroupSize(g), s, s') && s'.pc < base + GroupSize(g) && StagedIn(g, base, s')
    ensures RankIn(g, base, after, s.pc, s) == Rank(g.thenPlan, base + 1, 1 + after, s.pc, s)
    ensures RankOver(g, base, after, s'.pc, s') == Rank(g.thenPlan, base + 1, 1 + after, s'.pc, s')
  {
    hide Staged, Rank, LoopState;
    StagedElsewhere(g.elsePlan, base + 2 + CodeSize(g.thenPlan), s, s');
  }

  lemma PastThenPlan(g: Group, base: nat, after: nat, s: State, s': State)
    requires g.Branch? && StagedIn(g, base, s)
    requires s.pc == base + 1 + CodeSize(g.thenPlan) && s'.pc == base + GroupSize(g) && s'.loops == s.loops
    ensures StaysWithin(base, base + GroupSize(g), s, s') && StagedIn(g, base, s')
    ensures RankOver(g, base, after, s'.pc, s') < RankIn(g, base, after, s.pc, s)
  {
    hide Staged, Rank, LoopState;
    forall p: nat ensures LoopState(s', p) == LoopState(s, p) { SameLoops(s, s', p); }
    StagedElsewhere(g.thenPlan, base + 1, s, s');
    StagedElsewhere(g.elsePlan, base + 2 + CodeSize(g.thenPlan), s, s');
    RankAtEnd(g.thenPlan, base + 1, 1 + after, s);
  }

  lemma InElsePlan(g: Group, base: nat, after: nat, s: State, s': State)
    requires g.Branch? && StagedIn(g, base, s)
    requires base + 2 + CodeSize(g.thenPlan) <= s.pc < base + GroupSize(g)
    requires StaysWithin(base + 2 + CodeSize(g.thenPlan), base + GroupSize(g), s, s')
    requires Staged(g.elsePlan, base + 2 + CodeSize(g.thenPlan), s')
    ensures StaysWithin(base, base + GroupSize(g), s, s') && StagedIn(g, base, s')
    ensures RankIn(g, base, after, s.pc, s) == Rank(g.elsePlan, base + 2 + CodeSize(g.thenPlan), after, s.pc, s)
    ensures RankOver(g, base, after, s'.pc, s') == Rank(g.elsePlan, base + 2 + CodeSize(g.thenPlan), after, s'.pc, s')
  {
    hide Staged, Rank, LoopState;
    StagedElsewhere(g.thenPlan, base + 1, s, s');
    RankAtEnd(g.elsePlan, base + 2 + CodeSize(g.thenPlan), after, s');
  }

  /** From the start of a group into one of the plans inside of it. */
  lemma TakeBranchLowers(g: Group, base: nat, after: nat, s: State, s': State)
    requires g.Branch? && NonemptyInside(g) && StagedIn(g, base, s) && s.pc == base
    requires s'.pc == base + 1 || s'.pc == base + 2 + CodeSize(g.thenPlan)
    requires s'.loops == s.loops
    ensures StaysWithin(base, base + GroupSize(g), s, s') && StagedIn(g, base, s')
    ensures RankOver(g, base, after, s'.pc, s') < RankIn(g, base, after, s.pc, s)
  {
    hide Staged, NonemptyInside, Rank, LoopState;
    var t, e := g.thenPlan, g.elsePlan;
    var second := base + 2 + CodeSize(t);
    InsidePlans(g);
    PlanIsNotEmpty(t);
    PlanIsNotEmpty(e);
    forall p: nat ensures LoopState(s', p) == LoopState(s, p) { SameLoops(s, s', p); }
    if s'.pc == base + 1 {
      StagedArriving(t, base + 1, s, s');
      RankAtStart(t, base + 1, 1 + after, s');
      StagedElsewhere(e, second, s, s');
      assert RankIn(g, base, after, base + 1, s') == Rank(t, base + 1, 1 + after, base + 1, s') == First(t);
    } else {
      StagedArriving(e, second, s, s');
      RankAtStart(e, second, after, s');
      StagedElsewhere(t, base + 1, s, s');
      assert RankIn(g, base, after, second, s') == Rank(e, second, after, second, s') == First(e);
    }
  }

  lemma PlanIsNotEmpty(gs: seq<Group>)
    requires gs != []
    ensures CodeSize(gs) > 0
  {
    GroupIsNotEmpty(gs[0]);
  }

  lemma InsidePlans(g: Group)
    requires NonemptyInside(g)
    ensures g.Branch? ==>
              && g.thenPlan != [] && g.elsePlan != []
              && (forall i :: 0 <= i < |g.thenPlan| ==> NonemptyInside(g.thenPlan[i]))
              && (forall i :: 0 <= i < |g.elsePlan| ==> NonemptyInside(g.elsePlan[i]))
    ensures g.Loop? ==>
              && g.condPlan != [] && g.bodyPlan != []
              && (forall i :: 0 <= i < |g.condPlan| ==> NonemptyInside(g.condPlan[i]))
              && (forall i :: 0 <= i < |g.bodyPlan| ==> NonemptyInside(g.bodyPlan[i]))
  {
  }

  lemma StagedInside(g: Group, base: nat, s: State)
    requires StagedIn(g, base, s)
    ensures g.Branch? ==> Staged(g.thenPlan, base + 1, s) && Staged(g.elsePlan, base + 2 + CodeSize(g.thenPlan), s)
    ensures g.Loop? ==> Staged(g.condPlan, base + 1, s) && Staged(g.bodyPlan, base + 2 + CodeSize(g.condPlan), s)
  {
    hide Staged;
  }

  lemma {:induction false} StepInLoop(code: seq<LogicalStep>, m: Model, boundary: set<nat>, g: Group, mi: nat, base: nat, next: nat,
                                      after: nat, s: State, s': State)
    requires g.Loop? && GroupAt(code, m, boundary, g, mi, base, next) && NonemptyInside(g)
    requires base <= s.pc < base + GroupSize(g)
    requires StagedIn(g, base, s) && Moves(code, s, s')
    ensures StaysWithin(base, base + GroupSize(g), s, s') && StagedIn(g, base, s')
    ensures !code[s.pc].ExecutionStep? ==> RankOver(g, base, after, s'.pc, s') < RankIn(g, base, after, s.pc, s)
    decreases g, 0
  {
    hide *;
    var c, b := g.condPlan, g.bodyPlan;
    var body := base + 2 + CodeSize(c);
    LoopParts(code, m, boundary, g, mi, base, next);
    var p := m.operations[g.op].placement;
    InsidePlans(g);
    StagedInside(g, base, s);
    if s.pc == base {
      WhileMoves(code, s, s');
      LoopHeadLowers(g, base, after, s, s');
    } else if s.pc < base + 1 + CodeSize(c) {
      StepInPlan(code, p.condModel, BoundaryReads(p.condModel, c), c, next, base + 1, next + 2, 2 + Max(First(b), after), s, s');
      InCondPlan(g, base, after, s, s');
    } else if s.pc < body || s.pc == body + CodeSize(b) {
      GotoMoves(code, s, s');
      BackToHead(g, base, after, s, s');
    } else {
      StepInPlan(code, p.bodyModel, BoundaryReads(p.bodyModel, b), b, next + 1, body, next + 2 + ModelCount(c), 2 + First(c), s, s');
      InBodyPlan(g, base, after, s, s');
    }
  }

  /** At a loop the stage decides between condition on the one hand, body and exit on
      the other. */
  lemma LoopHeadLowers(g: Group, base: nat, after: nat, s: State, s': State)
    requires g.Loop? && NonemptyInside(g) && StagedIn(g, base, s) && s.pc == base
    requires forall p :: p != s.pc ==> LoopState(s', p) == LoopState(s, p)
    requires if LoopState(s, base).stage == EvaluateCondition then
               s'.pc == base + 1 && LoopState(s', base).stage == EvaluateBody
             else
               && (s'.pc == base + 2 + CodeSize(g.condPlan) || s'.pc == base + GroupSize(g))
               && LoopState(s', base).stage == EvaluateCondition
    ensures StaysWithin(base, base + GroupSize(g), s, s') && StagedIn(g, base, s')
    ensures RankOver(g, base, after, s'.pc, s') < RankIn(g, base, after, s.pc, s)
  {
    hide Staged, NonemptyInside, Rank, LoopState;
    var c, b := g.condPlan, g.bodyPlan;
    var body := base + 2 + CodeSize(c);
    InsidePlans(g);
    PlanIsNotEmpty(c);
    PlanIsNotEmpty(b);
    if s'.pc == base + 1 {
      StagedArriving(c, base + 1, s, s');
      RankAtStart(c, base + 1, 2 + Max(First(b), after), s');
      StagedElsewhere(b, body, s, s');
    } else if s'.pc == body {
      StagedArriving(b, body, s, s');
      RankAtStart(b, body, 2 + First(c), s');
      StagedElsewhere(c, base + 1, s, s');
    } else {
      StagedElsewhere(c, base + 1, s, s');
      StagedElsewhere(b, body, s, s');
    }
  }

  lemma InCondPlan(g: Group, base: nat, after: nat, s: State, s': State)
    requires g.Loop? && StagedIn(g, base, s)
    requires base + 1 <= s.pc < base + 1 + CodeSize(g.condPlan) && StaysWithin(base + 1, base + 1 + CodeSize(g.condPlan), s, s')
    requires Staged(g.condPlan, base + 1, s')
    ensures StaysWithin(base, base + GroupSize(g), s, s') && s'.pc < base + GroupSize(g) && StagedIn(g, base, s')
    ensures var k := 2 + Max(First(g.bodyPlan), after);
            && RankIn(g, base, after, s.pc, s) == Rank(g.condPlan, base + 1, k, s.pc, s)
            && RankOver(g, base, after, s'.pc, s') == Rank(g.condPlan, base + 1, k, s'.pc, s')
  {
    hide Staged, Rank, LoopState;
    StagedElsewhere(g.bodyPlan, base + 2 + CodeSize(g.condPlan), s, s');
  }

  lemma InBodyPlan(g: Group, base: nat, after: nat, s: State, s': State)
    requires g.Loop? && StagedIn(g, base, s)
    requires var body := base + 2 + CodeSize(g.condPlan);
             body <= s.pc < body + CodeSize(g.bodyPlan) && StaysWithin(body, body + CodeSize(g.bodyPlan), s, s')
    requires Staged(g.bodyPlan, base + 2 + CodeSize(g.condPlan), s')
    ensures StaysWithin(base, base + GroupSize(g), s, s') && s'.pc < base + GroupSize(g) && StagedIn(g, base, s')
    ensures var body := base + 2 + CodeSize(g.condPlan);
            && RankIn(g, base, after, s.pc, s) == Rank(g.bodyPlan, body, 2 + First(g.condPlan), s.pc, s)
            && RankOver(g, base, after, s'.pc, s') == Rank(g.bodyPlan, body, 2 + First(g.condPlan), s'.pc, s')
  {
    hide Staged, Rank, LoopState;
    StagedElsewhere(g.condPlan, base + 1, s, s');
  }

  lemma BackToHead(g: Group, base: nat, after: nat, s: State, s': State)
    requires g.Loop? && StagedIn(g, base, s)
    requires s.pc == base + 1 + CodeSize(g.condPlan) || s.pc == base + 2 + CodeSize(g.condPlan) + CodeSize(g.bodyPlan)
    requires s'.pc == base && s'.loops == s.loops
    ensures StaysWithin(base, base + GroupSize(g), s, s') && StagedIn(g, base, s')
    ensures RankOver(g, base, after, s'.pc, s') < RankIn(g, base, after, s.pc, s)
  {
    hide Staged, Rank, LoopState;
    var c, b := g.condPlan, g.bodyPlan;
    var body := base + 2 + CodeSize(c);
    forall p: nat ensures LoopState(s', p) == LoopState(s, p) { SameLoops(s, s', p); }
    StagedElsewhere(c, base + 1, s, s');
    StagedElsewhere(b, body, s, s');
    RankAtEnd(c, base + 1, 2 + Max(First(b), after), s);
    RankAtEnd(b, body, 2 + First(c), s);
  }

  lemma SameLoops(s: State, s': State, p: nat)
    requires s.loops == s'.loops
    ensures LoopState(s, p) == LoopState(s', p)
  {
  }

  // ----- whole runs -----

  /** A schedule of a valid model has a group, and so has every plan inside of it. */
  lemma {:induction false} ScheduleIsNonempty(m: Model, gs: seq<Group>)
    requires Models.Valid(m) && Schedules(gs, m)
    ensures Nonempty(gs)
    decreases gs, 1
  {
    hide Ordered, GroupFits, NonemptyInside, ShallowValid;
    assert |m.operations| > 0 by { ValidHasOperations(m); }
    assert 0 in Order(gs);
    hide Models.Valid, IsPermutation;
    forall i | 0 <= i < |gs| ensures NonemptyInside(gs[i]) {
      GroupIsNonempty(m, gs[i]);
    }
  }

  lemma ValidHasOperations(m: Model)
    requires Models.Valid(m)
    ensures |m.operations| > 0
  {
  }

  lemma {:induction false} GroupIsNonempty(m: Model, g: Group)
    requires Models.Valid(m) && GroupFits(g, m)
    ensures NonemptyInside(g)
    decreases g, 0
  {
    hide Schedules, Nonempty, Models.Valid;
    if !g.Partition? {
      InnerFits(m, g);
      ValidAt(m, g.op);
      var p := m.operations[g.op].placement;
      if g.Branch? {
        ScheduleIsNonempty(p.thenModel, g.thenPlan);
        ScheduleIsNonempty(p.elseModel, g.elsePlan);
      } else {
        ScheduleIsNonempty(p.condModel, g.condPlan);
        ScheduleIsNonempty(p.bodyModel, g.bodyPlan);
      }
    }
  }

  ghost predicate InstalledPlan(code: seq<LogicalStep>, m: Model, gs: seq<Group>)
    ensures InstalledPlan(code, m, gs) ==> |code| == CodeSize(gs)
  {
    Models.Valid(m) && Schedules(gs, m) && code == Emit(m, gs, 0, 0, 1)
  }

  /** Control is in the plan or at its end, and the loops are staged. */
  ghost predicate Coherent(gs: seq<Group>, s: State)
    ensures Coherent(gs, s) ==> s.pc <= CodeSize(gs)
  {
    s.pc <= CodeSize(gs) && Staged(gs, 0, s)
  }

  lemma {:induction false} FreshIsStaged(gs: seq<Group>, base: nat, s: State)
    requires s.loops == map[] && !(base < s.pc < base + CodeSize(gs))
    ensures Staged(gs, base, s)
    decreases gs, 1
  {
    hide Staged;
    forall i | 0 <= i < |gs| ensures StagedIn(gs[i], base + CodeSize(gs[..i]), s) {
      SizesSplit(gs, i);
      match gs[i] {
        case Partition(_, _) =>
        case Branch(_, t, e) =>
          FreshIsStaged(t, base + CodeSize(gs[..i]) + 1, s);
          FreshIsStaged(e, base + CodeSize(gs[..i]) + 2 + CodeSize(t), s);
        case Loop(_, c, b) =>
          FreshIsStaged(c, base + CodeSize(gs[..i]) + 1, s);
          FreshIsStaged(b, base + CodeSize(gs[..i]) + 2 + CodeSize(c), s);
      }
    }
    StagedFrom(gs, base, s);
  }

  lemma StartIsCoherent(gs: seq<Group>, s: State)
    requires s.pc == 0 && s.loops == map[]
    ensures Coherent(gs, s)
  {
    FreshIsStaged(gs, 0, s);
  }

  /** Every step, whatever it reads, keeps the interpreter coherent, and every control
      flow step lowers the rank. */
  lemma StepKeepsCoherent(code: seq<LogicalStep>, m: Model, gs: seq<Group>, s: State, s': State)
    requires InstalledPlan(code, m, gs) && Coherent(gs, s)
    requires Moves(code, s, s')
    ensures s.pc < |code| && Coherent(gs, s')
    ensures !code[s.pc].ExecutionStep? ==> Rank(gs, 0, 0, s'.pc, s') < Rank(gs, 0, 0, s.pc, s)
  {
    hide Rank, Staged, Schedules, Models.Valid, Emit, CodeSize, PlanAt;
    assert s.pc < |code|;
    hide Moves;
    PlanIsAt(code, m, gs);
    StepInPlan(code, m, BoundaryReads(m, gs), gs, 0, 0, 1, 0, s, s');
  }

  lemma PlanIsAt(code: seq<LogicalStep>, m: Model, gs: seq<Group>)
    requires InstalledPlan(code, m, gs)
    ensures PlanAt(code, m, BoundaryReads(m, gs), gs, 0, 0, 1)
    ensures forall i :: 0 <= i < |gs| ==> NonemptyInside(gs[i])
  {
    hide Emit, EmitGroups, Models.Valid, Schedules, NonemptyInside, GroupFits;
    assert code[0..|code|] == code;
    EmittedPlan(code, m, gs, 0, 0, 1);
    ScheduleIsNonempty(m, gs);
  }

  // What a call of the interpreter comes to: a step to execute or the end, a
  // failure, or nothing within so many steps.
  datatype Advance = Stopped(state: State) | Broken | Unfinished

  function AdvanceBy(k: Kernels, code: seq<LogicalStep>, s: State, n: nat): Advance
    decreases n
  {
    if s.pc == |code| || (s.pc < |code| && code[s.pc].ExecutionStep?) then Stopped(s)
    else if n == 0 then Unfinished
    else
      match MicroStep(k, code, s)
      case To(s') => AdvanceBy(k, code, s', n - 1)
      case Ended(_) => Broken
      case Crashed => Broken
  }

  /** From every coherent state, a call of the interpreter ends after no more control
      flow steps than its rank, and the state it stops in is coherent again. */
  lemma {:induction false} EveryCallEnds(k: Kernels, code: seq<LogicalStep>, m: Model, gs: seq<Group>, s: State, n: nat)
    requires InstalledPlan(code, m, gs) && Coherent(gs, s)
    requires Rank(gs, 0, 0, s.pc, s) < n
    ensures var r := AdvanceBy(k, code, s, n); !r.Unfinished? && (r.Stopped? ==> Coherent(gs, r.state))
    decreases n
  {
    hide Rank, Coherent, InstalledPlan, MicroStep, Moves;
    if s.pc < |code| && !code[s.pc].ExecutionStep? {
      match MicroStep(k, code, s) {
        case To(s') =>
          MicroStepMoves(k, code, s, s');
          StepKeepsCoherent(code, m, gs, s, s');
          EveryCallEnds(k, code, m, gs, s', n - 1);
        case _ =>
      }
    }
  }

  /** A call that stops has taken steps of the machine. */
  lemma {:induction false} CallTakesSteps(k: Kernels, code: seq<LogicalStep>, s: State, n: nat) returns (j: nat)
    ensures match AdvanceBy(k, code, s, n)
            case Stopped(t) => Steps(k, code, s, j) == To(t) && t.pc <= |code| && (t.pc < |code| ==> code[t.pc].ExecutionStep?)
            case Broken => Steps(k, code, s, j) == Crashed
            case Unfinished => true
    decreases n
  {
    hide MicroStep;
    if s.pc == |code| || (s.pc < |code| && code[s.pc].ExecutionStep?) {
      j := 0;
    } else if n == 0 {
      j := 0;
    } else {
      NotEndedEarly(k, code, s);
      match MicroStep(k, code, s) {
        case To(s') =>
          j := CallTakesSteps(k, code, s', n - 1);
          j := j + 1;
        case Crashed => j := 1;
      }
    }
  }

  lemma NotEndedEarly(k: Kernels, code: seq<LogicalStep>, s: State)
    requires s.pc != |code|
    ensures !MicroStep(k, code, s).Ended?
  {
    hide RunOperations, Bind, Locate, ReadAll, SetInputs, SetOutputs, Sources, Exchange, CopyAll, Read, AllWritable, Readable, Constants, Keys;
  }

  /** What a call in a coherent state comes to, in steps of the machine. */
  lemma CallComesTo(k: Kernels, code: seq<LogicalStep>, m: Model, gs: seq<Group>, s: State) returns (bound: nat, t: State, j: nat)
    requires InstalledPlan(code, m, gs) && Coherent(gs, s)
    ensures || (Steps(k, code, s, j) == Crashed && AdvanceBy(k, code, s, bound).Broken?)
            || (&& AdvanceBy(k, code, s, bound) == Stopped(t) && Steps(k, code, s, j) == To(t)
                && t.pc <= |code| && (t.pc < |code| ==> code[t.pc].ExecutionStep?))
  {
    hide Rank, Coherent, InstalledPlan, MicroStep, AdvanceBy, Steps;
    bound := Rank(gs, 0, 0, s.pc, s) + 1;
    EveryCallEnds(k, code, m, gs, s, bound);
    j := CallTakesSteps(k, code, s, bound);
    t := match AdvanceBy(k, code, s, bound) case Stopped(x) => x case _ => s;
  }

  /** A run that has an end does not crash on the way. */
  lemma EndingRunGoesOn(k: Kernels, code: seq<LogicalStep>, s: State, a: nat, n: nat)
    requires Steps(k, code, s, n).Ended?
    ensures Steps(k, code, s, a) != Crashed
  {
    StepsAreStable(k, code, s, a, if a <= n then n else a);
    StepsAreStable(k, code, s, n, if a <= n then n else a);
  }

  lemma OneMoreStep(k: Kernels, code: seq<LogicalStep>, s: State, a: nat, t: State)
    requires Steps(k, code, s, a) == To(t)
    ensures Steps(k, code, s, a + 1) == MicroStep(k, code, t)
  {
    hide MicroStep;
    StepsCompose(k, code, s, a, t, 1);
    assert Steps(k, code, t, 1) == MicroStep(k, code, t) by {
      match MicroStep(k, code, t) {
        case To(x) => assert Steps(k, code, x, 0) == To(x);
        case _ =>
      }
    }
  }

  lemma EndIsReached(k: Kernels, code: seq<LogicalStep>, s: State, a: nat, t: State, n: nat)
    requires Steps(k, code, s, a) == To(t) && t.pc == |code|
    requires Steps(k, code, s, n).Ended?
    ensures Steps(k, code, s, n) == Ended(t)
  {
    hide Steps;
    OneMoreStep(k, code, s, a, t);
    StepsAreStable(k, code, s, a + 1, if n <= a + 1 then a + 1 else n);
    StepsAreStable(k, code, s, n, if n <= a + 1 then a + 1 else n);
  }

  lemma ExecutionGoesOn(k: Kernels, code: seq<LogicalStep>, s: State, a: nat, t: State, n: nat)
    requires Steps(k, code, s, a) == To(t) && t.pc < |code|
    requires Steps(k, code, s, n).Ended?
    ensures MicroStep(k, code, t).To? && Steps(k, code, s, a + 1) == MicroStep(k, code, t)
  {
    hide Steps, MicroStep;
    OneMoreStep(k, code, s, a, t);
    EndingRunGoesOn(k, code, s, a + 1, n);
    NotEndedEarly(k, code, t);
  }

  lemma ExecutionKeepsCoherent(code: seq<LogicalStep>, m: Model, gs: seq<Group>, s: State, s': State)
    requires InstalledPlan(code, m, gs) && Coherent(gs, s)
    requires s.pc < |code| && code[s.pc].ExecutionStep? && s'.pc == s.pc + 1 && s'.loops == s.loops
    ensures Coherent(gs, s')
  {
    hide Coherent, InstalledPlan;
    StepKeepsCoherent(code, m, gs, s, s');
  }
}
