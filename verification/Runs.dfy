/** Whole runs of a plan: where the controller puts every operand before the first
    step, and the theorem that relates the run from there to the nested run. */
module Runs {
  import opened Options
  import opened Models
  import opened Semantics
  import opened Scheduling
  import opened Blocking
  import opened FlatPlans
  import opened Machine
  import opened Invariants
  import opened PartitionSteps
  import opened Sites
  import opened Passing
  import opened Branches
  import opened Loops
  import opened Flattening

  // ----- source models -----

  /** The source models that are added while the plan of a model is emitted. */
  function AddedModels(m: Model, gs: seq<Group>): (r: seq<Model>)
    requires forall i :: 0 <= i < |gs| ==> GroupFits(gs[i], m)
    ensures |r| == ModelCount(gs)
    decreases gs, 0
  {
    if gs == [] then [] else ModelsOfGroup(m, gs[0]) + AddedModels(m, gs[1..])
  }

  function ModelsOfGroup(m: Model, g: Group): (r: seq<Model>)
    requires GroupFits(g, m)
    ensures |r| == GroupModels(g)
    decreases g, 1
  {
    match g
    case Partition(_, _) => []
    case Branch(o, t, e) =>
      var p := m.operations[o].placement;
      assert Schedules(t, p.thenModel) && Schedules(e, p.elseModel);
      [p.thenModel, p.elseModel] + AddedModels(p.thenModel, t) + AddedModels(p.elseModel, e)
    case Loop(o, c, b) =>
      var p := m.operations[o].placement;
      assert Schedules(c, p.condModel) && Schedules(b, p.bodyModel);
      [p.condModel, p.bodyModel] + AddedModels(p.condModel, c) + AddedModels(p.bodyModel, b)
  }

  ghost predicate Has(sources: seq<Model>, at: nat, part: seq<Model>) {
    at + |part| <= |sources| && sources[at..at + |part|] == part
  }

  ghost predicate Sourced(sources: seq<Model>, site: Site)
    ensures Sourced(sources, site) ==> site.Valid()
  {
    && site.Valid() && site.mi < |sources| && sources[site.mi] == site.m
    && Has(sources, site.next, AddedModels(site.m, site.gs))
  }

  predicate HasLifetime(sources: seq<Model>, k: Key, l: Lifetime) {
    k.0 < |sources| && k.1 < |sources[k.0].operands| && sources[k.0].operands[k.1].lifetime == l
  }

  predicate IsConstantKey(sources: seq<Model>, k: Key) {
    k.0 < |sources| && k.1 < |sources[k.0].operands| && IsConstant(sources[k.0].operands[k.1].lifetime)
  }

  // ----- what each step needs laid out -----

  /** Operands that get a temporary because of a step. */
  function HomesFor(step: LogicalStep, sources: seq<Model>): (r: set<Key>) {
    match step
    case ExecutionStep(mi, _, _, _, outs) => set k | k in Keys(mi, outs) && HasLifetime(sources, k, TemporaryVariable)
    case IfStep(_, _, _, _, outs, _, _, _, _) => set k | k in outs && HasLifetime(sources, k, TemporaryVariable)
    case WhileStep(_, _, _, _, outs, _, condOutput, _, bodyOutputs) =>
      (set k | k in outs && HasLifetime(sources, k, TemporaryVariable)) + AsSet(bodyOutputs) + {condOutput}
    case GotoStep(_) => {}
  }

  /** Operands that get a second temporary. */
  function SecondsFor(step: LogicalStep): (r: set<Key>) {
    if step.WhileStep? then AsSet(step.bodyOutputs) else {}
  }

  /** Constants that control flow passes on. */
  function ConstantsFor(step: LogicalStep, sources: seq<Model>): (r: set<Key>) {
    match step
    case IfStep(c, _, _, ins, _, _, _, _, _) => set k | k in [c] + ins && IsConstantKey(sources, k)
    case WhileStep(_, _, _, ins, _, _, _, _, _) => set k | k in ins && IsConstantKey(sources, k)
    case _ => {}
  }

  function HomeKeys(code: seq<LogicalStep>, sources: seq<Model>): set<Key> {
    set p, k | 0 <= p < |code| && k in HomesFor(code[p], sources) :: k
  }

  function SecondKeys(code: seq<LogicalStep>): set<Key> {
    set p, k | 0 <= p < |code| && k in SecondsFor(code[p]) :: k
  }

  function ConstantKeys(code: seq<LogicalStep>, sources: seq<Model>): set<Key> {
    set p, k | 0 <= p < |code| && k in ConstantsFor(code[p], sources) :: k
  }

  // ----- the state before the first step -----

  function MainInputs(n: nat): seq<Location> { seq(n, j requires 0 <= j => MainInput(j)) }
  function MainOutputs(n: nat): seq<Location> { seq(n, j requires 0 <= j => MainOutput(j)) }

  function InitialLocations(code: seq<LogicalStep>, sources: seq<Model>, m: Model): Locations {
    var temporaries := map k | k in HomeKeys(code, sources) :: Slot(k, false);
    var constants := map k | k in ConstantKeys(code, sources) :: Constant(k);
    Bind(Bind(temporaries + constants, Keys(0, m.inputIndexes), MainInputs(|m.inputIndexes|)),
         Keys(0, m.outputIndexes), MainOutputs(|m.outputIndexes|))
  }

  function InitialStore(code: seq<LogicalStep>, sources: seq<Model>, args: seq<Bytes>): map<Location, Bytes> {
    var constants := map k | k in ConstantKeys(code, sources) ::
      Constant(k) := if IsConstantKey(sources, k) then sources[k.0].operands[k.1].value else [];
    Bind(constants, MainInputs(|args|), args)
  }

  function InitialState(code: seq<LogicalStep>, sources: seq<Model>, m: Model, args: seq<Bytes>): State {
    State(0, InitialLocations(code, sources, m), map k | k in SecondKeys(code) :: Slot(k, true), map[],
          InitialStore(code, sources, args))
  }

  // ----- what the steps of a site need is in the initial state -----

  /** What a step needs is laid out. */
  ghost predicate Laid(step: LogicalStep, sources: seq<Model>, s: State) {
    && (forall k :: k in HomesFor(step, sources) ==> AtHome(k, s))
    && (forall k :: k in SecondsFor(step) ==> k in s.locations2 && s.locations2[k] == Slot(k, true))
    && (forall k :: k in ConstantsFor(step, sources) ==>
          && IsConstantKey(sources, k) && k in s.locations && s.locations[k] == Constant(k)
          && Constant(k) in s.store && s.store[Constant(k)] == sources[k.0].operands[k.1].value)
  }

  /** Everything is laid out, and nothing else has a place that cannot be written. */
  ghost predicate AllLaid(code: seq<LogicalStep>, sources: seq<Model>, s: State) {
    && s.loops == map[]
    && (forall p :: 0 <= p < |code| ==> Laid(code[p], sources, s))
    && (forall k :: k in s.locations && k.0 > 0 ==> Writable(s.locations[k]) || IsConstantKey(sources, k))
    && (forall k :: k in s.locations ==> MayHavePlace(sources, k))
  }

  predicate MayHavePlace(sources: seq<Model>, k: Key) {
    k.0 < |sources| && k.1 < |sources[k.0].operands| ==> HasLocation(sources[k.0].operands[k.1].lifetime)
  }

  lemma LaidOmitsNothing(sources: seq<Model>, site: Site, code: seq<LogicalStep>, s: State)
    requires Sourced(sources, site) && AllLaid(code, sources, s)
    ensures NothingOmitted(site.m, site.mi, s)
  {
    hide Laid, AddedModels, Models.Valid, Schedules;
    forall x: nat | x < |site.m.operands| && !HasLocation(site.m.operands[x].lifetime) ensures (site.mi, x) !in s.locations {
      assert !MayHavePlace(sources, (site.mi, x));
    }
  }

  lemma LaidPartition(code: seq<LogicalStep>, sources: seq<Model>, site: Site, i: nat, s: State)
    requires Installed(code, site) && Sourced(sources, site) && i < |site.gs| && site.gs[i].Partition?
    requires AllLaid(code, sources, s)
    ensures RestGroup(site.m, site.Boundary(), site.gs[i], site.mi, site.BaseAt(i), site.NextAt(i), s)
  {
    hide StepInputs, StepOutputs, BoundaryReads, Emit, EmitGroups, Models.Valid, Schedules, Passes, CodeSize, ModelCount;
    StepIsInstalled(code, site, i);
    var step := code[site.BaseAt(i)];
    assert Laid(step, sources, s);
    forall x | x in HousedBy(site.m, site.Boundary(), site.gs[i]) && IsTemp(site.m, x) ensures AtHome((site.mi, x), s) {
      assert (site.mi, x) in Keys(site.mi, step.stepOutputs);
      assert (site.mi, x) in HomesFor(step, sources);
    }
  }

  lemma HasParts(sources: seq<Model>, at: nat, a: seq<Model>, b: seq<Model>)
    requires Has(sources, at, a + b)
    ensures Has(sources, at, a) && Has(sources, at + |a|, b)
  {
    assert sources[at..at + |a|] == sources[at..at + |a + b|][..|a|];
    assert sources[at + |a|..at + |a| + |b|] == sources[at..at + |a + b|][|a|..];
  }

  lemma {:induction false} GroupSourced(sources: seq<Model>, m: Model, gs: seq<Group>, next: nat, i: nat)
    requires forall j :: 0 <= j < |gs| ==> GroupFits(gs[j], m)
    requires i < |gs|
    requires Has(sources, next, AddedModels(m, gs))
    ensures Has(sources, next + ModelCount(gs[..i]), ModelsOfGroup(m, gs[i]))
  {
    hide ModelsOfGroup, GroupFits;
    HasParts(sources, next, ModelsOfGroup(m, gs[0]), AddedModels(m, gs[1..]));
    if i > 0 {
      GroupSourced(sources, m, gs[1..], next + GroupModels(gs[0]), i - 1);
      assert gs[..i][1..] == gs[1..][..i - 1];
    }
  }

  lemma GroupIsSourced(sources: seq<Model>, site: Site, i: nat)
    requires Sourced(sources, site) && i < |site.gs|
    ensures GroupFits(site.gs[i], site.m) && Has(sources, site.NextAt(i), ModelsOfGroup(site.m, site.gs[i]))
  {
    hide Models.Valid, CodeSize, ModelCount, Ordered, IsPermutation, AddedModels, ModelsOfGroup, GroupFits;
    GroupSourced(sources, site.m, site.gs, site.next, i);
  }

  lemma IsSourced(sources: seq<Model>, sub: Site)
    requires sub.Valid() && sub.mi < |sources| && sources[sub.mi] == sub.m
    requires forall j :: 0 <= j < |sub.gs| ==> GroupFits(sub.gs[j], sub.m)
    requires Has(sources, sub.next, AddedModels(sub.m, sub.gs))
    ensures Sourced(sources, sub)
  {
  }

  lemma BranchSourced(sources: seq<Model>, site: Site, i: nat, taken: bool)
    requires Sourced(sources, site) && IsBranch(site, i)
    requires BranchSite(site, i, taken).Valid()
    ensures Sourced(sources, BranchSite(site, i, taken))
  {
    hide Models.Valid, Schedules, CodeSize, ModelCount, AddedModels, ModelsOfGroup, Sourced, Has, GroupFits, IsBranch;
    GroupIsSourced(sources, site, i);
    PairSourced(sources, site.m, site.gs[i], site.NextAt(i));
    IsSourced(sources, BranchSite(site, i, taken));
  }

  lemma LoopSourced(sources: seq<Model>, site: Site, i: nat)
    requires Sourced(sources, site) && IsLoop(site, i)
    requires CondSite(site, i).Valid() && BodySite(site, i).Valid()
    ensures Sourced(sources, CondSite(site, i)) && Sourced(sources, BodySite(site, i))
  {
    hide Models.Valid, Schedules, CodeSize, ModelCount, AddedModels, ModelsOfGroup, Sourced, Has, GroupFits, IsLoop;
    GroupIsSourced(sources, site, i);
    PairSourced(sources, site.m, site.gs[i], site.NextAt(i));
    IsSourced(sources, CondSite(site, i));
    IsSourced(sources, BodySite(site, i));
  }

  lemma PairSourced(sources: seq<Model>, m: Model, g: Group, next: nat)
    requires GroupFits(g, m) && Has(sources, next, ModelsOfGroup(m, g))
    ensures match g
            case Partition(_, _) => true
            case Branch(o, t, e) =>
              var p := m.operations[o].placement;
              && next + 1 < |sources| && sources[next] == p.thenModel && sources[next + 1] == p.elseModel
              && (forall j :: 0 <= j < |t| ==> GroupFits(t[j], p.thenModel))
              && (forall j :: 0 <= j < |e| ==> GroupFits(e[j], p.elseModel))
              && Has(sources, next + 2, AddedModels(p.thenModel, t)) && Has(sources, next + 2 + ModelCount(t), AddedModels(p.elseModel, e))
            case Loop(o, c, b) =>
              var p := m.operations[o].placement;
              && next + 1 < |sources| && sources[next] == p.condModel && sources[next + 1] == p.bodyModel
              && (forall j :: 0 <= j < |c| ==> GroupFits(c[j], p.condModel))
              && (forall j :: 0 <= j < |b| ==> GroupFits(b[j], p.bodyModel))
              && Has(sources, next + 2, AddedModels(p.condModel, c)) && Has(sources, next + 2 + ModelCount(c), AddedModels(p.bodyModel, b))
  {
    hide Ordered, IsPermutation, ModelCount, CodeSize, AddedModels, Has;
    match g {
      case Partition(_, _) =>
      case Branch(o, t, e) =>
        var p := m.operations[o].placement;
        assert Schedules(t, p.thenModel) && Schedules(e, p.elseModel);
        TwoSourced(sources, next, p.thenModel, p.elseModel, AddedModels(p.thenModel, t), AddedModels(p.elseModel, e));
      case Loop(o, c, b) =>
        var p := m.operations[o].placement;
        assert Schedules(c, p.condModel) && Schedules(b, p.bodyModel);
        TwoSourced(sources, next, p.condModel, p.bodyModel, AddedModels(p.condModel, c), AddedModels(p.bodyModel, b));
    }
  }

  lemma TwoSourced(sources: seq<Model>, next: nat, m0: Model, m1: Model, a: seq<Model>, b: seq<Model>)
    requires Has(sources, next, [m0, m1] + a + b)
    ensures next + 1 < |sources| && sources[next] == m0 && sources[next + 1] == m1
    ensures Has(sources, next + 2, a) && Has(sources, next + 2 + |a|, b)
  {
    HasParts(sources, next, [m0, m1] + a, b);
    HasParts(sources, next, [m0, m1], a);
    assert sources[next] == sources[next..next + 2][0] && sources[next + 1] == sources[next..next + 2][1];
  }

  lemma LaidBranchOwn(code: seq<LogicalStep>, sources: seq<Model>, site: Site, i: nat, s: State)
    requires Sourced(sources, site) && IsBranch(site, i) && OperationFits(OperationAt(site, i), site.m.operands)
    requires site.BaseAt(i) < |code| && code[site.BaseAt(i)] == IfHead(OperationAt(site, i), site.gs[i].thenPlan, site.mi, site.BaseAt(i), site.NextAt(i))
    requires AllLaid(code, sources, s)
    ensures Housed(site.m, site.Boundary(), site.gs[i], site.mi, s) && ConstantsInPlace(site.m, site.gs[i], site.mi, s)
  {
    hide BoundaryReads, Models.Valid, Schedules, Passes, CodeSize, ModelCount, Keys, AddedModels, Sourced, HousedBy, GroupReads, Housed, ConstantsInPlace, HomesFor, ConstantsFor, Laid, IfHead, GroupFits;
    var step, op := code[site.BaseAt(i)], OperationAt(site, i);
    BranchOperandLists(sources, site, i);
    assert Laid(step, sources, s);
    OwnPartIsLaid(sources, site, i, s, step, op.outputs, [op.inputs[IF_CONDITION]] + op.inputs[IF_FIRST_INPUT..]);
  }

  lemma BranchOperandLists(sources: seq<Model>, site: Site, i: nat)
    requires IsBranch(site, i) && OperationFits(OperationAt(site, i), site.m.operands)
    ensures var op := OperationAt(site, i);
            var step := IfHead(op, site.gs[i].thenPlan, site.mi, site.BaseAt(i), site.NextAt(i));
            && |op.inputs| >= IF_FIRST_INPUT
            && var passed := [op.inputs[IF_CONDITION]] + op.inputs[IF_FIRST_INPUT..];
            && (forall x :: x in HousedBy(site.m, site.Boundary(), site.gs[i]) ==> x in op.outputs)
            && (forall x :: x in GroupReads(site.m, site.gs[i]) ==> x in passed)
            && (forall k :: k in Keys(site.mi, op.outputs) && HasLifetime(sources, k, TemporaryVariable) ==> k in HomesFor(step, sources))
            && (forall k :: k in Keys(site.mi, passed) && IsConstantKey(sources, k) ==> k in ConstantsFor(step, sources))
  {
    hide BoundaryReads, Schedules, CodeSize, ModelCount, Keys, HasLifetime, IsConstantKey, HomesFor, ConstantsFor, IfHead, HousedBy, GroupReads;
    var op := OperationAt(site, i);
    BranchOwnLists(site, i);
    IfHeadLists(sources, op, site.gs[i].thenPlan, site.mi, site.BaseAt(i), site.NextAt(i));
  }

  lemma BranchOwnLists(site: Site, i: nat)
    requires IsBranch(site, i) && OperationFits(OperationAt(site, i), site.m.operands)
    ensures var op := OperationAt(site, i);
            && op.placement.InterpretIf? && |op.inputs| >= IF_FIRST_INPUT
            && HousedBy(site.m, site.Boundary(), site.gs[i]) == AsSet(op.outputs)
            && GroupReads(site.m, site.gs[i]) == {op.inputs[IF_CONDITION]} + AsSet(op.inputs[IF_FIRST_INPUT..])
  {
    hide BoundaryReads, Schedules;
  }

  lemma IfHeadLists(sources: seq<Model>, op: Operation, thenPlan: seq<Group>, mi: nat, base: nat, next: nat)
    requires op.placement.InterpretIf? && |op.inputs| >= IF_FIRST_INPUT
    ensures var step := IfHead(op, thenPlan, mi, base, next);
            var passed := [op.inputs[IF_CONDITION]] + op.inputs[IF_FIRST_INPUT..];
            && (forall k :: k in Keys(mi, op.outputs) && HasLifetime(sources, k, TemporaryVariable) ==> k in HomesFor(step, sources))
            && (forall k :: k in Keys(mi, passed) && IsConstantKey(sources, k) ==> k in ConstantsFor(step, sources))
  {
    hide CodeSize, Keys, HasLifetime, IsConstantKey, HomesFor, ConstantsFor;
    var step := IfHead(op, thenPlan, mi, base, next);
    PrependKey(mi, op.inputs[IF_CONDITION], op.inputs[IF_FIRST_INPUT..]);
    StepLists(step, sources);
  }

  lemma PrependKey(mi: nat, x: nat, xs: seq<nat>)
    ensures [(mi, x)] + Keys(mi, xs) == Keys(mi, [x] + xs)
  {
    hide Keys;
    var a, b := [(mi, x)] + Keys(mi, xs), Keys(mi, [x] + xs);
    forall j | 0 <= j < |b| ensures a[j] == b[j] {
      assert j > 0 ==> a[j] == Keys(mi, xs)[j - 1];
    }
  }

  lemma StepLists(step: LogicalStep, sources: seq<Model>)
    requires step.IfStep?
    ensures forall k :: k in step.outerOutputs && HasLifetime(sources, k, TemporaryVariable) ==> k in HomesFor(step, sources)
    ensures forall k :: k in [step.condition] + step.outerInputs && IsConstantKey(sources, k) ==> k in ConstantsFor(step, sources)
  {
    hide HasLifetime, IsConstantKey;
  }

  /** Temporaries that the group writes and constants that it passes on. */
  lemma OwnPartIsLaid(sources: seq<Model>, site: Site, i: nat, s: State, step: LogicalStep, outs: seq<nat>, passed: seq<nat>)
    requires Sourced(sources, site) && i < |site.gs| && Laid(step, sources, s)
    requires forall x :: x in HousedBy(site.m, site.Boundary(), site.gs[i]) ==> x in outs
    requires forall x :: x in GroupReads(site.m, site.gs[i]) ==> x in passed
    requires forall k :: k in Keys(site.mi, outs) && HasLifetime(sources, k, TemporaryVariable) ==> k in HomesFor(step, sources)
    requires forall k :: k in Keys(site.mi, passed) && IsConstantKey(sources, k) ==> k in ConstantsFor(step, sources)
    ensures Housed(site.m, site.Boundary(), site.gs[i], site.mi, s) && ConstantsInPlace(site.m, site.gs[i], site.mi, s)
  {
    hide BoundaryReads, Models.Valid, Schedules, Passes, CodeSize, ModelCount, Keys, HousedBy, GroupReads, HomesFor, ConstantsFor, AddedModels;
    forall x | x in HousedBy(site.m, site.Boundary(), site.gs[i]) && IsTemp(site.m, x) ensures AtHome((site.mi, x), s) {
      assert (site.mi, x) in Keys(site.mi, outs);
    }
    forall x | x in GroupReads(site.m, site.gs[i]) && x < |site.m.operands| && IsConstant(site.m.operands[x].lifetime)
      ensures (site.mi, x) in ConstantsFor(step, sources)
    {
      assert (site.mi, x) in Keys(site.mi, passed);
    }
  }

  lemma LaidLoopOwn(code: seq<LogicalStep>, sources: seq<Model>, site: Site, i: nat, s: State)
    requires Sourced(sources, site) && LoopFits(site, i)
    requires site.BaseAt(i) < |code| && code[site.BaseAt(i)] == Head(site, i)
    requires AllLaid(code, sources, s)
    ensures Housed(site.m, site.Boundary(), site.gs[i], site.mi, s) && ConstantsInPlace(site.m, site.gs[i], site.mi, s)
    ensures LoopBuffers(OperationAt(site, i), site.NextAt(i), s)
  {
    hide BoundaryReads, Models.Valid, Schedules, Passes, CodeSize, ModelCount, Keys, Head, Within, ShallowValid, GroupFits, AddedModels, OperationFits, CondSite, BodySite;
    HeadTargets(site, i);
    HeadOperands(site, i);
    var step, op := code[site.BaseAt(i)], OperationAt(site, i);
    assert Laid(step, sources, s);
    OwnPartIsLaid(sources, site, i, s, step, op.outputs, op.inputs[WHILE_FIRST_INPUT..]);
    LaidLoopBuffers(sources, site, i, s);
  }

  lemma LaidBodyOutput(sources: seq<Model>, site: Site, i: nat, s: State, x: nat)
    requires LoopFits(site, i) && Laid(Head(site, i), sources, s) && x in BodySite(site, i).m.outputIndexes
    ensures DoubleBuffered((site.NextAt(i) + 1, x), s)
  {
    hide BoundaryReads, Models.Valid, Schedules, CodeSize, ModelCount, Keys, Head, Within, ShallowValid, GroupFits, OperationFits;
    HeadTargets(site, i);
    var step, b := Head(site, i), BodySite(site, i);
    assert (b.mi, x) in Keys(b.mi, b.m.outputIndexes);
    assert (b.mi, x) in HomesFor(step, sources) && (b.mi, x) in SecondsFor(step);
    hide HomesFor, SecondsFor;
    assert s.locations[(b.mi, x)] == Slot((b.mi, x), false) && s.locations2[(b.mi, x)] == Slot((b.mi, x), !false);
  }

  lemma LaidCondOutput(sources: seq<Model>, site: Site, i: nat, s: State, x: nat)
    requires LoopFits(site, i) && Laid(Head(site, i), sources, s) && x in CondSite(site, i).m.outputIndexes
    ensures AtHome((site.NextAt(i), x), s)
  {
    hide BoundaryReads, Models.Valid, Schedules, CodeSize, ModelCount, Keys, Head, Within, ShallowValid, GroupFits, OperationFits;
    HeadTargets(site, i);
    var step, c := Head(site, i), CondSite(site, i);
    assert (c.mi, x) in HomesFor(step, sources);
    hide HomesFor, SecondsFor;
  }

  lemma LaidLoopBuffers(sources: seq<Model>, site: Site, i: nat, s: State)
    requires LoopFits(site, i) && Laid(Head(site, i), sources, s)
    ensures LoopBuffers(OperationAt(site, i), site.NextAt(i), s)
  {
    hide BoundaryReads, Models.Valid, Schedules, CodeSize, ModelCount, Keys, Head, Within, ShallowValid, GroupFits, OperationFits, DoubleBuffered, AtHome, Laid;
    var c, b := CondSite(site, i), BodySite(site, i);
    forall x | x in b.m.outputIndexes ensures DoubleBuffered((site.NextAt(i) + 1, x), s) {
      LaidBodyOutput(sources, site, i, s, x);
    }
    forall x | x in c.m.outputIndexes ensures AtHome((site.NextAt(i), x), s) {
      LaidCondOutput(sources, site, i, s, x);
    }
  }

  /** A branch has not been taken yet, so its outputs have no place. */
  lemma LaidBranchOutputs(sources: seq<Model>, sub: Site, code: seq<LogicalStep>, s: State)
    requires Sourced(sources, sub) && sub.mi > 0 && AllLaid(code, sources, s)
    ensures OutputsWritable(sub.m, sub.mi, s)
  {
    hide Schedules, Passes, Laid, AddedModels;
    ValidIsShallow(sub.m);
    forall x | x in sub.m.outputIndexes && (sub.mi, x) in s.locations ensures Writable(s.locations[(sub.mi, x)]) {
      assert sub.m.operands[x].lifetime == SubgraphOutput;
    }
  }

  lemma {:induction false} LaidSiteRests(code: seq<LogicalStep>, sources: seq<Model>, site: Site, s: State)
    requires Installed(code, site) && Sourced(sources, site) && AllLaid(code, sources, s)
    ensures Rest(site.m, site.gs, site.mi, site.base, site.next, s)
    decreases site.gs, 1
  {
    hide Models.Valid, Schedules, Passes, AllLaid, Installed, Sourced, RestGroup, CodeSize, ModelCount, BoundaryReads;
    forall i | 0 <= i < |site.gs|
      ensures RestGroup(site.m, site.Boundary(), site.gs[i], site.mi, site.BaseAt(i), site.NextAt(i), s)
    {
      LaidGroupRests(code, sources, site, i, s);
    }
  }

  lemma {:induction false} LaidGroupRests(code: seq<LogicalStep>, sources: seq<Model>, site: Site, i: nat, s: State)
    requires Installed(code, site) && Sourced(sources, site) && AllLaid(code, sources, s) && i < |site.gs|
    ensures RestGroup(site.m, site.Boundary(), site.gs[i], site.mi, site.BaseAt(i), site.NextAt(i), s)
    decreases site.gs, 0
  {
    hide *;
    GroupInstalled(code, site, i);
    match site.gs[i] {
      case Partition(_, _) => LaidPartition(code, sources, site, i, s);
      case Branch(_, _, _) =>
        IsBranchHere(site, i);
        BranchShape(site, i, true);
        BranchShape(site, i, false);
        LaidBranch(code, sources, site, i, true, s);
        LaidSiteRests(code, sources, BranchSite(site, i, true), s);
        LaidBranch(code, sources, site, i, false, s);
        LaidSiteRests(code, sources, BranchSite(site, i, false), s);
        LaidBranchRests(code, sources, site, i, s);
      case Loop(_, _, _) =>
        IsLoopHere(site, i);
        LoopShape(site, i);
        LaidLoop(code, sources, site, i, s);
        LaidSiteRests(code, sources, CondSite(site, i), s);
        LaidSiteRests(code, sources, BodySite(site, i), s);
        LaidLoopRests(code, sources, site, i, s);
    }
  }

  lemma IsBranchHere(site: Site, i: nat)
    requires i < |site.gs| && site.gs[i].Branch? && GroupFits(site.gs[i], site.m)
    ensures IsBranch(site, i)
  {
  }

  lemma IsLoopHere(site: Site, i: nat)
    requires i < |site.gs| && site.gs[i].Loop? && GroupFits(site.gs[i], site.m)
    ensures IsLoop(site, i)
  {
  }

  lemma LaidBranch(code: seq<LogicalStep>, sources: seq<Model>, site: Site, i: nat, taken: bool, s: State)
    requires Installed(code, site) && Sourced(sources, site) && AllLaid(code, sources, s) && IsBranch(site, i)
    ensures Installed(code, BranchSite(site, i, taken)) && Sourced(sources, BranchSite(site, i, taken))
    ensures OutputsWritable(BranchSite(site, i, taken).m, BranchSite(site, i, taken).mi, s)
    ensures NothingOmitted(BranchSite(site, i, taken).m, BranchSite(site, i, taken).mi, s)
  {
    hide AllLaid, Sourced, OutputsWritable, NothingOmitted, Within, Installed, BranchSite, Models.Valid, Schedules;
    BranchLies(code, site, i, taken);
    var sub := BranchSite(site, i, taken);
    WithinIsValid(site, i, sub);
    BranchSourced(sources, site, i, taken);
    LaidBranchOutputs(sources, sub, code, s);
    LaidOmitsNothing(sources, sub, code, s);
  }

  lemma LaidBranchRests(code: seq<LogicalStep>, sources: seq<Model>, site: Site, i: nat, s: State)
    requires Installed(code, site) && Sourced(sources, site) && AllLaid(code, sources, s) && IsBranch(site, i)
    requires forall taken ::
               var sub := BranchSite(site, i, taken);
               OutputsWritable(sub.m, sub.mi, s) && NothingOmitted(sub.m, sub.mi, s) && Rest(sub.m, sub.gs, sub.mi, sub.base, sub.next, s)
    ensures RestGroup(site.m, site.Boundary(), site.gs[i], site.mi, site.BaseAt(i), site.NextAt(i), s)
  {
    hide AllLaid, Sourced, OutputsWritable, NothingOmitted, Within, Installed, BranchSite, Models.Valid, Schedules, RestGroup, Rest, OperationFits, Housed, ConstantsInPlace;
    ValidFits(site.m, site.gs[i].op) by { BranchIsInRange(site, i); }
    BranchLies(code, site, i, true);
    LaidBranchOwn(code, sources, site, i, s);
    BranchRest(site, i, s, s);
  }

  lemma BranchIsInRange(site: Site, i: nat)
    requires IsBranch(site, i)
    ensures site.gs[i].op < |site.m.operations|
  {
  }

  lemma LaidLoop(code: seq<LogicalStep>, sources: seq<Model>, site: Site, i: nat, s: State)
    requires Installed(code, site) && Sourced(sources, site) && IsLoop(site, i)
    ensures Installed(code, CondSite(site, i)) && Installed(code, BodySite(site, i))
    ensures Sourced(sources, CondSite(site, i)) && Sourced(sources, BodySite(site, i))
  {
    hide Sourced, Within, Installed, CondSite, BodySite, Models.Valid, Schedules, ShallowValid, OperationFits, Head;
    LoopLies(code, site, i);
    LoopSourced(sources, site, i);
  }

  lemma LaidLoopRests(code: seq<LogicalStep>, sources: seq<Model>, site: Site, i: nat, s: State)
    requires Installed(code, site) && Sourced(sources, site) && AllLaid(code, sources, s) && IsLoop(site, i)
    requires var c := CondSite(site, i); Sourced(sources, c) && Rest(c.m, c.gs, c.mi, c.base, c.next, s)
    requires var b := BodySite(site, i); Sourced(sources, b) && Rest(b.m, b.gs, b.mi, b.base, b.next, s)
    ensures RestGroup(site.m, site.Boundary(), site.gs[i], site.mi, site.BaseAt(i), site.NextAt(i), s)
  {
    hide Laid, Installed, Sourced, BoundaryReads, Housed, ConstantsInPlace, NothingOmitted, LoopBuffers, Rest, CodeSize, ModelCount, Within, OperationFits, Models.Valid, Schedules, ShallowValid, Head;
    LoopLies(code, site, i);
    LaidLoopOwn(code, sources, site, i, s);
    LaidOmitsNothing(sources, CondSite(site, i), code, s);
    LaidOmitsNothing(sources, BodySite(site, i), code, s);
  }

  // ----- keys that the steps mention -----

  /** A loop's own outputs belong to a source model other than the main one. */
  ghost predicate InnerOutputs(step: LogicalStep, sources: seq<Model>) {
    step.WhileStep? ==>
      && (forall k :: k in step.bodyOutputs ==> k.0 > 0 && HasLifetime(sources, k, SubgraphOutput))
      && Distinct(step.bodyOutputs)
      && step.condOutput.0 > 0 && HasLifetime(sources, step.condOutput, SubgraphOutput)
  }

  lemma {:induction false} PositionInGroup(gs: seq<Group>, base: nat, p: nat) returns (i: nat)
    requires base <= p < base + CodeSize(gs)
    ensures i < |gs| && base + CodeSize(gs[..i]) <= p < base + CodeSize(gs[..i]) + GroupSize(gs[i])
  {
    if p < base + GroupSize(gs[0]) {
      i := 0;
    } else {
      i := PositionInGroup(gs[1..], base + GroupSize(gs[0]), p);
      assert gs[..i + 1][1..] == gs[1..][..i];
      i := i + 1;
    }
  }

  lemma {:induction false} SiteHasInnerOutputs(code: seq<LogicalStep>, sources: seq<Model>, site: Site, p: nat)
    requires Installed(code, site) && Sourced(sources, site)
    requires site.base <= p < site.End()
    ensures p < |code| && InnerOutputs(code[p], sources)
    decreases site.gs
  {
    hide Models.Valid, Schedules, InnerOutputs, Installed, Sourced, CodeSize, ModelCount, GroupFits, IsBranch, IsLoop, EmitGroup, CodeAt;
    var i := PositionInGroup(site.gs, site.base, p);
    GroupInstalled(code, site, i);
    match site.gs[i] {
      case Partition(_, _) =>
        PartitionHasInnerOutputs(code, sources, site, i);
      case Branch(_, _, _) =>
        IsBranchHere(site, i);
        BranchHasInnerOutputs(code, sources, site, i, p);
      case Loop(_, _, _) =>
        IsLoopHere(site, i);
        LoopHasInnerOutputs(code, sources, site, i, p);
    }
  }

  lemma PartitionHasInnerOutputs(code: seq<LogicalStep>, sources: seq<Model>, site: Site, i: nat)
    requires Installed(code, site) && i < |site.gs| && site.gs[i].Partition?
    ensures site.BaseAt(i) < |code| && InnerOutputs(code[site.BaseAt(i)], sources)
  {
    hide Installed, Schedules, Models.Valid;
    StepIsInstalled(code, site, i);
    NotALoop(code[site.BaseAt(i)], sources);
  }

  lemma NotALoop(step: LogicalStep, sources: seq<Model>)
    requires !step.WhileStep?
    ensures InnerOutputs(step, sources)
  {
  }

  lemma {:induction false} BranchHasInnerOutputs(code: seq<LogicalStep>, sources: seq<Model>, site: Site, i: nat, p: nat)
    requires Installed(code, site) && Sourced(sources, site) && IsBranch(site, i)
    requires site.BaseAt(i) <= p < site.BaseAt(i) + GroupSize(site.gs[i])
    ensures p < |code| && InnerOutputs(code[p], sources)
    decreases site.gs, 0
  {
    hide Models.Valid, Schedules, Passes, InnerOutputs, Installed, Sourced, CodeSize, ModelCount, OperationFits;
    BranchLies(code, site, i, true);
    BranchLies(code, site, i, false);
    BranchSourced(sources, site, i, true);
    BranchSourced(sources, site, i, false);
    var t, e := BranchSite(site, i, true), BranchSite(site, i, false);
    if p == site.BaseAt(i) || p == t.End() {
      NotALoop(code[p], sources);
    } else if p < t.End() {
      SiteHasInnerOutputs(code, sources, t, p);
    } else {
      SiteHasInnerOutputs(code, sources, e, p);
    }
  }

  lemma {:induction false} LoopHasInnerOutputs(code: seq<LogicalStep>, sources: seq<Model>, site: Site, i: nat, p: nat)
    requires Installed(code, site) && Sourced(sources, site) && IsLoop(site, i)
    requires site.BaseAt(i) <= p < site.BaseAt(i) + GroupSize(site.gs[i])
    ensures p < |code| && InnerOutputs(code[p], sources)
    decreases site.gs, 0
  {
    hide Models.Valid, Schedules, Passes, InnerOutputs, Installed, Sourced, CodeSize, ModelCount, OperationFits, ShallowValid, Head;
    LoopLies(code, site, i);
    LoopSourced(sources, site, i);
    var c, b := CondSite(site, i), BodySite(site, i);
    if p == site.BaseAt(i) {
      HeadHasInnerOutputs(sources, site, i);
    } else if p == c.End() || p == b.End() {
      NotALoop(code[p], sources);
    } else if p < c.End() {
      SiteHasInnerOutputs(code, sources, c, p);
    } else {
      SiteHasInnerOutputs(code, sources, b, p);
    }
  }

  lemma HeadHasInnerOutputs(sources: seq<Model>, site: Site, i: nat)
    requires LoopFits(site, i) && Sourced(sources, CondSite(site, i)) && Sourced(sources, BodySite(site, i))
    ensures InnerOutputs(Head(site, i), sources)
  {
    hide Models.Valid, Schedules, Passes, CodeSize, ModelCount, OperationFits, Head, AddedModels, Ordered, GroupFits;
    HeadTargets(site, i);
    var c, b := CondSite(site, i), BodySite(site, i);
    assert c.m.outputIndexes[0] in c.m.outputIndexes;
    WithinIsValid(site, i, c);
    WithinIsValid(site, i, b);
  }

  // ----- the initial state -----

  lemma InitialLocation(code: seq<LogicalStep>, sources: seq<Model>, m: Model, k: Key)
    requires k !in Keys(0, m.inputIndexes) && k !in Keys(0, m.outputIndexes)
    ensures var ls := InitialLocations(code, sources, m);
            && (k in ls <==> k in HomeKeys(code, sources) || k in ConstantKeys(code, sources))
            && (k in ls ==> ls[k] == if k in ConstantKeys(code, sources) then Constant(k) else Slot(k, false))
  {
    hide HomeKeys, ConstantKeys, Keys, Bind;
  }

  ghost predicate WellFormed(code: seq<LogicalStep>, sources: seq<Model>, m: Model) {
    && ShallowValid(m) && |sources| > 0 && sources[0] == m
    && forall p :: 0 <= p < |code| ==> InnerOutputs(code[p], sources)
  }

  /** What is laid out by a step is no operand that the caller provides. */
  lemma HomesAreNotGiven(code: seq<LogicalStep>, sources: seq<Model>, m: Model, p: nat, k: Key)
    requires WellFormed(code, sources, m) && p < |code| && k in HomesFor(code[p], sources)
    ensures k !in Keys(0, m.inputIndexes) && k !in Keys(0, m.outputIndexes) && !IsConstantKey(sources, k)
  {
    hide Keys, Ordered, OperationFits;
    assert InnerOutputs(code[p], sources);
  }

  lemma ConstantsAreNotGiven(sources: seq<Model>, m: Model, k: Key)
    requires ShallowValid(m) && |sources| > 0 && sources[0] == m && IsConstantKey(sources, k)
    ensures k !in Keys(0, m.inputIndexes) && k !in Keys(0, m.outputIndexes)
  {
    hide Keys, Ordered, OperationFits;
  }

  lemma ConstantKeysAreConstant(code: seq<LogicalStep>, sources: seq<Model>, k: Key)
    requires k in ConstantKeys(code, sources)
    ensures IsConstantKey(sources, k)
  {
    hide IsConstantKey;
  }

  lemma InitialStepIsLaid(code: seq<LogicalStep>, sources: seq<Model>, m: Model, args: seq<Bytes>, p: nat)
    requires WellFormed(code, sources, m) && p < |code|
    ensures Laid(code[p], sources, InitialState(code, sources, m, args))
  {
    hide Keys, WellFormed, InitialLocations, InitialStore, HomesFor, ConstantsFor, SecondsFor, IsConstantKey;
    var s := InitialState(code, sources, m, args);
    assert WellFormed(code, sources, m);
    forall k | k in HomesFor(code[p], sources) ensures AtHome(k, s) {
      HomesAreNotGiven(code, sources, m, p, k);
      InitialLocation(code, sources, m, k);
      assert k in HomeKeys(code, sources);
      if k in ConstantKeys(code, sources) { ConstantKeysAreConstant(code, sources, k); }
    }
    forall k | k in SecondsFor(code[p]) ensures k in s.locations2 && s.locations2[k] == Slot(k, true) {
      assert k in SecondKeys(code);
    }
    forall k | k in ConstantsFor(code[p], sources)
      ensures && IsConstantKey(sources, k) && k in s.locations && s.locations[k] == Constant(k)
              && Constant(k) in s.store && InitialConstant(s, sources, k)
    {
      assert k in ConstantKeys(code, sources);
      ConstantKeysAreConstant(code, sources, k);
      SourcesAreWellFormed(code, sources, m);
      ConstantsAreNotGiven(sources, m, k);
      InitialLocation(code, sources, m, k);
      InitialConstants(code, sources, m, args, k);
    }
    LaidFrom(code[p], sources, s);
  }

  lemma SourcesAreWellFormed(code: seq<LogicalStep>, sources: seq<Model>, m: Model)
    requires WellFormed(code, sources, m)
    ensures ShallowValid(m) && |sources| > 0 && sources[0] == m
  {
  }

  ghost predicate InitialConstant(s: State, sources: seq<Model>, k: Key)
    requires Constant(k) in s.store
  {
    IsConstantKey(sources, k) && s.store[Constant(k)] == sources[k.0].operands[k.1].value
  }

  lemma LaidFrom(step: LogicalStep, sources: seq<Model>, s: State)
    requires forall k :: k in HomesFor(step, sources) ==> AtHome(k, s)
    requires forall k :: k in SecondsFor(step) ==> k in s.locations2 && s.locations2[k] == Slot(k, true)
    requires forall k :: k in ConstantsFor(step, sources) ==>
               && IsConstantKey(sources, k) && k in s.locations && s.locations[k] == Constant(k)
               && Constant(k) in s.store && InitialConstant(s, sources, k)
    ensures Laid(step, sources, s)
  {
    hide HomesFor, SecondsFor, ConstantsFor;
  }

  lemma InitialConstants(code: seq<LogicalStep>, sources: seq<Model>, m: Model, args: seq<Bytes>, k: Key)
    requires k in ConstantKeys(code, sources) && IsConstantKey(sources, k)
    ensures var s := InitialState(code, sources, m, args); Constant(k) in s.store && InitialConstant(s, sources, k)
  {
    hide ConstantKeys, Bind, InitialLocations;
    assert Constant(k) !in MainInputs(|args|);
  }

  lemma InitialIsLaid(code: seq<LogicalStep>, sources: seq<Model>, m: Model, args: seq<Bytes>)
    requires WellFormed(code, sources, m)
    ensures AllLaid(code, sources, InitialState(code, sources, m, args))
  {
    hide Keys, WellFormed, InitialLocations, InitialStore, HomeKeys, ConstantKeys, IsConstantKey, Laid;
    var s := InitialState(code, sources, m, args);
    forall p: nat | p < |code| ensures Laid(code[p], sources, s) {
      InitialStepIsLaid(code, sources, m, args, p);
    }
    forall k | k in s.locations && k.0 > 0 ensures Writable(s.locations[k]) || IsConstantKey(sources, k) {
      InitialLocation(code, sources, m, k);
      if k in ConstantKeys(code, sources) { ConstantKeysAreConstant(code, sources, k); }
    }
    forall k | k in s.locations ensures MayHavePlace(sources, k) {
      InitialMayHavePlace(code, sources, m, k);
    }
  }

  lemma InitialMayHavePlace(code: seq<LogicalStep>, sources: seq<Model>, m: Model, k: Key)
    requires WellFormed(code, sources, m)
    requires k in InitialLocations(code, sources, m)
    ensures MayHavePlace(sources, k)
  {
    hide Keys, InitialLocations, Ordered, OperationFits, ConstantKeys, InnerOutputs;
    if k in Keys(0, m.inputIndexes) || k in Keys(0, m.outputIndexes) {
    } else {
      InitialLocation(code, sources, m, k);
      if k in ConstantKeys(code, sources) {
        ConstantKeysAreConstant(code, sources, k);
      } else {
        var p: nat :| p < |code| && k in HomesFor(code[p], sources);
        HomesHavePlaces(code[p], sources, k);
      }
    }
  }

  lemma HomesHavePlaces(step: LogicalStep, sources: seq<Model>, k: Key)
    requires InnerOutputs(step, sources) && k in HomesFor(step, sources)
    ensures HasLifetime(sources, k, TemporaryVariable) || HasLifetime(sources, k, SubgraphOutput)
  {
    hide Keys;
  }

  lemma InitialBoundary(code: seq<LogicalStep>, sources: seq<Model>, m: Model, args: seq<Bytes>)
    requires ShallowValid(m) && |args| == |m.inputIndexes|
    ensures var s := InitialState(code, sources, m, args);
            && (forall j :: 0 <= j < |m.inputIndexes| ==>
                  && (0, m.inputIndexes[j]) in s.locations && s.locations[(0, m.inputIndexes[j])] == MainInput(j)
                  && MainInput(j) in s.store && s.store[MainInput(j)] == args[j])
            && (forall j :: 0 <= j < |m.outputIndexes| ==>
                  (0, m.outputIndexes[j]) in s.locations && s.locations[(0, m.outputIndexes[j])] == MainOutput(j))
  {
    hide HomeKeys, ConstantKeys, Keys, Bind, Ordered, OperationFits;
    DistinctInputs(m);
    var ins, outs := Keys(0, m.inputIndexes), Keys(0, m.outputIndexes);
    forall j | 0 <= j < |ins| ensures ins[j] !in outs && m.inputIndexes[j] in m.inputIndexes {
    }
    assert Distinct(MainInputs(|args|)) && Distinct(ins) && Distinct(outs);
    var ls := InitialLocations(code, sources, m);
    forall j | 0 <= j < |ins| ensures ins[j] in ls && ls[ins[j]] == MainInput(j) {
      assert ins[j] in ins;
    }
    forall j | 0 <= j < |outs| ensures outs[j] in ls && ls[outs[j]] == MainOutput(j) {
      assert outs[j] in outs;
    }
    forall j | 0 <= j < |args| ensures MainInput(j) in InitialStore(code, sources, args) && InitialStore(code, sources, args)[MainInput(j)] == args[j] {
      assert MainInputs(|args|)[j] == MainInput(j);
    }
  }

  lemma InitialIsEntered(code: seq<LogicalStep>, sources: seq<Model>, site: Site, args: seq<Bytes>)
    requires Installed(code, site) && Sourced(sources, site) && WellFormed(code, sources, site.m)
    requires site.mi == 0 && site.base == 0 && |args| == |site.m.inputIndexes|
    ensures Entered(site, InitialState(code, sources, site.m, args), args)
  {
    hide Keys, InitialState, InitialLocations, InitialStore, WellFormed, Models.Valid, Schedules, Passes, Rest, Ordered, OperationFits, CodeSize, ModelCount;
    var s := InitialState(code, sources, site.m, args);
    SourcesAreWellFormed(code, sources, site.m);
    InitialIsLaid(code, sources, site.m, args);
    LaidSiteRests(code, sources, site, s);
    LaidOmitsNothing(sources, site, code, s);
    InitialBoundary(code, sources, site.m, args);
    assert s.pc == 0 by { InitialCounter(code, sources, site.m, args); }
    var ins, outs := site.m.inputIndexes, site.m.outputIndexes;
    forall x | x in ins ensures (0, x) in s.locations && s.locations[(0, x)].MainInput? {
      var j :| 0 <= j < |ins| && ins[j] == x;
    }
    forall x | x in outs ensures (0, x) in s.locations && s.locations[(0, x)].MainOutput? {
      var j :| 0 <= j < |outs| && outs[j] == x;
    }
    forall x, y | x in outs && y in outs && x != y ensures s.locations[(0, x)] != s.locations[(0, y)] {
      var a :| 0 <= a < |outs| && outs[a] == x;
      var b :| 0 <= b < |outs| && outs[b] == y;
    }
    forall j | 0 <= j < |ins| ensures Read(s, Keys(0, ins)[j]) == Some(args[j]) {
      assert Keys(0, ins)[j] == (0, ins[j]);
    }
  }

  lemma InitialCounter(code: seq<LogicalStep>, sources: seq<Model>, m: Model, args: seq<Bytes>)
    ensures InitialState(code, sources, m, args).pc == 0
  {
  }

  // ----- whole runs -----

  /** The plan of a main model. */
  ghost function Plan(m: Model, gs: seq<Group>): seq<LogicalStep>
    requires Schedules(gs, m)
  {
    Emit(m, gs, 0, 0, 1)
  }

  ghost function Start(m: Model, gs: seq<Group>, args: seq<Bytes>): State
    requires Schedules(gs, m)
  {
    InitialState(Plan(m, gs), [m] + AddedModels(m, gs), m, args)
  }

  /** The run came to its end within `n` steps and left `vals` in the main outputs. */
  ghost predicate EndsWith(k: Kernels, m: Model, gs: seq<Group>, args: seq<Bytes>, n: nat, vals: seq<Bytes>)
    requires Schedules(gs, m)
  {
    var r := Steps(k, Plan(m, gs), Start(m, gs, args), n);
    && r.Ended?
    && |vals| == |m.outputIndexes|
    && forall j :: 0 <= j < |vals| ==> MainOutput(j) in r.final.store && r.final.store[MainOutput(j)] == vals[j]
  }

  ghost predicate Crashes(k: Kernels, m: Model, gs: seq<Group>, args: seq<Bytes>, n: nat)
    requires Schedules(gs, m)
  {
    Steps(k, Plan(m, gs), Start(m, gs, args), n) == Crashed
  }

  lemma PlanIsEntered(m: Model, gs: seq<Group>, args: seq<Bytes>) returns (site: Site)
    requires Models.Valid(m) && Schedules(gs, m) && |args| == |m.inputIndexes|
    ensures site == Site(m, gs, 0, 0, 1)
    ensures Installed(Plan(m, gs), site)
    ensures Entered(site, Start(m, gs, args), args)
    ensures |Plan(m, gs)| == site.End()
    ensures forall j :: 0 <= j < |m.outputIndexes| ==>
              var key := (0, m.outputIndexes[j]);
              key in Start(m, gs, args).locations && Start(m, gs, args).locations[key] == MainOutput(j)
  {
    hide Passes, Models.Valid, Emit, AddedModels, InitialState, Entered, IsPermutation, Ordered, GroupFits;
    site := Site(m, gs, 0, 0, 1);
    var code, sources := Plan(m, gs), [m] + AddedModels(m, gs);
    assert code[0..|code|] == code;
    assert sources[1..|sources|] == AddedModels(m, gs);
    assert Sourced(sources, site);
    ValidIsShallow(m);
    forall p: nat | p < |code| ensures InnerOutputs(code[p], sources) {
      SiteHasInnerOutputs(code, sources, site, p);
    }
    InitialIsEntered(code, sources, site, args);
    InitialBoundary(code, sources, m, args);
  }

  /** One nested run, with however much fuel, and the flat run beside it. */
  lemma RunsAgree(k: Kernels, fuel: nat, m: Model, gs: seq<Group>, args: seq<Bytes>) returns (n: nat)
    requires Models.Valid(m) && Schedules(gs, m) && |args| == |m.inputIndexes|
    ensures match RunPlan(k, fuel, m, gs, args)
            case Done(vals) => EndsWith(k, m, gs, args, n, vals)
            case Failed => Crashes(k, m, gs, args, n)
            case OutOfFuel => n >= fuel && Steps(k, Plan(m, gs), Start(m, gs, args), n).To?
  {
    hide Passes, Models.Valid, Schedules, RunPlan, Entered, Plan, Start, MicroStep, CodeSize, ModelCount, Installed;
    var site := PlanIsEntered(m, gs, args);
    var s := Start(m, gs, args);
    var s';
    n, s' := SiteRuns(k, fuel, Plan(m, gs), site, s, args);
    var r := RunPlan(k, fuel, m, gs, args);
    if r.Done? {
      StepAtEnd(k, Plan(m, gs), site, s, s', r.value);
      StepsCompose(k, Plan(m, gs), s, n, s', 1);
      MainOutputsAreRead(site, s, s', r.value);
      n := n + 1;
    }
  }

  lemma StepAtEnd(k: Kernels, code: seq<LogicalStep>, site: Site, s: State, s': State, vals: seq<Bytes>)
    requires |code| == site.End() && Left(site, s, s', vals)
    ensures Steps(k, code, s', 1) == Ended(s')
  {
    hide Rest, SiteChanges;
  }

  lemma MainOutputsAreRead(site: Site, s: State, s': State, vals: seq<Bytes>)
    requires site.Valid() && site.mi == 0 && Left(site, s, s', vals)
    requires forall j :: 0 <= j < |site.m.outputIndexes| ==>
               (0, site.m.outputIndexes[j]) in s.locations && s.locations[(0, site.m.outputIndexes[j])] == MainOutput(j)
    ensures |vals| == |site.m.outputIndexes|
    ensures forall j :: 0 <= j < |vals| ==> MainOutput(j) in s'.store && s'.store[MainOutput(j)] == vals[j]
  {
    hide Rest, Models.Valid, Schedules, Passes, OwnPlaces, CodeSize, ModelCount;
    OwnPlacesStay(site, s, s');
    var outs := site.m.outputIndexes;
    forall j | 0 <= j < |vals| ensures MainOutput(j) in s'.store && s'.store[MainOutput(j)] == vals[j] {
      assert Read(s', Keys(0, outs)[j]) == Some(vals[j]);
      assert SameAt(s.locations, s'.locations, (0, outs[j]));
    }
  }

  /** A run has one end. */
  lemma OneEnd(k: Kernels, m: Model, gs: seq<Group>, args: seq<Bytes>, a: nat, b: nat)
    requires Schedules(gs, m)
    requires !Steps(k, Plan(m, gs), Start(m, gs, args), a).To? && !Steps(k, Plan(m, gs), Start(m, gs, args), b).To?
    ensures Steps(k, Plan(m, gs), Start(m, gs, args), a) == Steps(k, Plan(m, gs), Start(m, gs, args), b)
  {
    hide Plan, Start;
    if a <= b {
      StepsAreStable(k, Plan(m, gs), Start(m, gs, args), a, b);
    } else {
      StepsAreStable(k, Plan(m, gs), Start(m, gs, args), b, a);
    }
  }

  /** Flattening preserves meaning, for every valid tree of models, every choice of
      devices and every schedule: the flat run ends with given outputs exactly if
      the nested run does, given enough fuel for its loops, and does not come to an
      interpreted operation that is not passable. */
  lemma FlatteningPreservesMeaning(k: Kernels, m: Model, gs: seq<Group>, args: seq<Bytes>, vals: seq<Bytes>)
    requires Models.Valid(m) && Schedules(gs, m) && |args| == |m.inputIndexes|
    ensures (exists fuel: nat :: RunModel(k, fuel, m, args) == Done(vals) && !ModelBlocks(k, fuel, m, args))
       <==> (exists n: nat :: EndsWith(k, m, gs, args, n, vals))
  {
    hide Models.Valid, Schedules, RunPlan, RunModel, ModelBlocks, Plan, Start, Steps, EndsWith;
    if fuel: nat :| RunModel(k, fuel, m, args) == Done(vals) && !ModelBlocks(k, fuel, m, args) {
      PlanMeansModel(k, fuel, m, gs, args);
      var n := RunsAgree(k, fuel, m, gs, args);
    }
    if n: nat :| EndsWith(k, m, gs, args, n, vals) {
      var fuel := EndIsMeant(k, m, gs, args, n, vals);
    }
  }

  /** What a caller can tell before the run. Where everything is passable the flat run
      ends exactly as the nested run does. Where a blocked operation cannot be avoided the
      flat run never ends. These are all cases if only the main model, and none that it
      refers to, has operations that are not passable. */
  lemma CheckedBeforeTheRun(k: Kernels, m: Model, gs: seq<Group>, args: seq<Bytes>, vals: seq<Bytes>)
    requires Models.Valid(m) && Schedules(gs, m) && |args| == |m.inputIndexes|
    ensures Passes(m) ==>
              ((exists n: nat :: EndsWith(k, m, gs, args, n, vals)) <==> (exists fuel: nat :: RunModel(k, fuel, m, args) == Done(vals)))
    ensures AlwaysBlocks(m) ==> forall n: nat :: !EndsWith(k, m, gs, args, n, vals)
    ensures (forall i :: 0 <= i < |m.operations| ==> PlacementPasses(m.operations[i].placement)) ==>
              ((exists n: nat :: EndsWith(k, m, gs, args, n, vals)) <==>
               (exists fuel: nat :: RunModel(k, fuel, m, args) == Done(vals)) && AllPassable(m))
  {
    hide Models.Valid, Schedules, RunPlan, RunModel, ModelBlocks, Plan, Start, Steps, EndsWith, PlacementPasses, Passable;
    FlatteningPreservesMeaning(k, m, gs, args, vals);
    if Passes(m) {
      forall fuel: nat ensures !ModelBlocks(k, fuel, m, args) { PassingModel(k, fuel, m, args); }
    }
    if AlwaysBlocks(m) {
      forall fuel: nat | RunModel(k, fuel, m, args) == Done(vals) ensures ModelBlocks(k, fuel, m, args) {
        AlwaysMeansHere(k, fuel, m, args);
      }
    }
  }

  ghost predicate AllPassable(m: Model) {
    forall i :: 0 <= i < |m.operations| ==> Passable(m.operations[i], m.operands)
  }

  lemma EndIsMeant(k: Kernels, m: Model, gs: seq<Group>, args: seq<Bytes>, n: nat, vals: seq<Bytes>) returns (fuel: nat)
    requires Models.Valid(m) && Schedules(gs, m) && |args| == |m.inputIndexes|
    requires EndsWith(k, m, gs, args, n, vals)
    ensures RunModel(k, fuel, m, args) == Done(vals) && !ModelBlocks(k, fuel, m, args)
  {
    hide Models.Valid, Schedules, RunPlan, RunModel, ModelBlocks, Plan, Start, Steps;
    fuel := n + 1;
    var n' := RunsAgree(k, fuel, m, gs, args);
    StepsAreStable(k, Plan(m, gs), Start(m, gs, args), n, if n <= n' then n' else n);
    var r := RunPlan(k, fuel, m, gs, args);
    assert !r.OutOfFuel?;
    OneEnd(k, m, gs, args, n, n');
    assert r.Done? && r.value == vals;
    PlanMeansModel(k, fuel, m, gs, args);
  }

  /** A flat run crashes exactly if the nested run, in the order of the schedule,
      comes to an operation that fails. */
  lemma CrashesAreFailures(k: Kernels, m: Model, gs: seq<Group>, args: seq<Bytes>)
    requires Models.Valid(m) && Schedules(gs, m) && |args| == |m.inputIndexes|
    ensures (exists fuel: nat :: RunPlan(k, fuel, m, gs, args).Failed?) <==> (exists n: nat :: Crashes(k, m, gs, args, n))
  {
    hide Models.Valid, Schedules, RunPlan, Plan, Start, Steps;
    if fuel: nat :| RunPlan(k, fuel, m, gs, args).Failed? {
      var n := RunsAgree(k, fuel, m, gs, args);
    }
    if n: nat :| Crashes(k, m, gs, args, n) {
      var fuel := n + 1;
      var n' := RunsAgree(k, fuel, m, gs, args);
      StepsAreStable(k, Plan(m, gs), Start(m, gs, args), n, if n <= n' then n' else n);
      assert !RunPlan(k, fuel, m, gs, args).OutOfFuel?;
      OneEnd(k, m, gs, args, n, n');
      assert RunPlan(k, fuel, m, gs, args).Failed?;
    }
  }

  /** A flat run crashes where the nested run ends but has come to an operation that is not
      passable. */
  lemma BlockedRunsCrash(k: Kernels, fuel: nat, m: Model, gs: seq<Group>, args: seq<Bytes>) returns (n: nat)
    requires Models.Valid(m) && Schedules(gs, m) && |args| == |m.inputIndexes|
    requires RunModel(k, fuel, m, args).Done? && ModelBlocks(k, fuel, m, args)
    ensures Crashes(k, m, gs, args, n)
  {
    hide Models.Valid, Schedules, RunPlan, RunModel, ModelBlocks, Plan, Start, Steps;
    PlanMeansModel(k, fuel, m, gs, args);
    n := RunsAgree(k, fuel, m, gs, args);
  }
}
