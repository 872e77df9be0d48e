/** The last pass of the partitioner: temporaries that another step reads become outputs
    of the step that writes them. */
module Temporaries {
  import opened Options
  import opened Models
  import opened Scheduling
  import opened FlatPlans
  import opened Partitions
  import opened Runs
  import opened Queues
  import opened Partitioner

  // ----- what steps read and define -----

  // The operands that a step reads and that may be temporaries of another step.
  function ReadList(step: LogicalStep): seq<Key> {
    match step
    case ExecutionStep(mi, m, _, ins, _) => Keys(mi, Only(ins, m, TemporaryVariable))
    case IfStep(c, _, _, ins, _, _, _, _, _) => [c] + ins
    case WhileStep(_, _, _, ins, _, _, _, _, _) => ins
    case GotoStep(_) => []
  }

  // The temporaries that a step defines.
  function DefinedList(step: LogicalStep): seq<Key> {
    match step
    case ExecutionStep(mi, m, ops, _, _) => Keys(mi, Only(Written(ops), m, TemporaryVariable))
    case _ => []
  }

  function ReadKeys(code: seq<LogicalStep>): (r: set<Key>) {
    if code == [] then {} else AsSet(ReadList(code[0])) + ReadKeys(code[1..])
  }

  function DefinedKeys(code: seq<LogicalStep>): (r: set<Key>) {
    if code == [] then {} else AsSet(DefinedList(code[0])) + DefinedKeys(code[1..])
  }

  /** No temporary is defined by two steps. */
  ghost predicate DefinedOnce(code: seq<LogicalStep>) {
    code != [] ==> AsSet(DefinedList(code[0])) !! DefinedKeys(code[1..]) && DefinedOnce(code[1..])
  }

  // The temporaries that a step defines and that are used.
  function TempsUsed(step: LogicalStep, used: set<Key>): set<nat> {
    set k | k in DefinedList(step) && k in used :: k.1
  }

  /** The step with those temporaries that it defines and that are read added to its outputs. */
  function Completed(step: LogicalStep, used: set<Key>): LogicalStep {
    if step.ExecutionStep? then
      step.(stepOutputs := step.stepOutputs + Ascending(|step.model.operands|, TempsUsed(step, used)))
    else step
  }

  function Complete(code: seq<LogicalStep>, used: set<Key>): (r: seq<LogicalStep>)
    ensures |r| == |code| && forall p :: 0 <= p < |code| ==> r[p] == Completed(code[p], used)
  {
    seq(|code|, p requires 0 <= p < |code| => Completed(code[p], used))
  }

  lemma {:induction false} ReadsOfConcatenation(a: seq<LogicalStep>, b: seq<LogicalStep>)
    ensures ReadKeys(a + b) == ReadKeys(a) + ReadKeys(b)
  {
    hide ReadList;
    if a == [] {
      assert a + b == b;
    } else {
      assert (a + b)[1..] == a[1..] + b;
      ReadsOfConcatenation(a[1..], b);
    }
  }

  lemma {:induction false} DefinedConcatenation(a: seq<LogicalStep>, b: seq<LogicalStep>)
    ensures DefinedKeys(a + b) == DefinedKeys(a) + DefinedKeys(b)
    ensures DefinedOnce(a) && DefinedOnce(b) && DefinedKeys(a) !! DefinedKeys(b) ==> DefinedOnce(a + b)
  {
    hide DefinedList;
    if a == [] {
      assert a + b == b;
    } else {
      assert (a + b)[1..] == a[1..] + b;
      DefinedConcatenation(a[1..], b);
    }
  }

  lemma CompleteConcatenation(a: seq<LogicalStep>, b: seq<LogicalStep>, used: set<Key>)
    ensures Complete(a + b, used) == Complete(a, used) + Complete(b, used)
  {
    hide Completed;
  }

  lemma {:induction false} DraftReads(code: seq<LogicalStep>)
    ensures ReadKeys(Draft(code)) == ReadKeys(code) && DefinedKeys(Draft(code)) == DefinedKeys(code)
    ensures DefinedOnce(code) ==> DefinedOnce(Draft(code))
  {
    if code != [] {
      assert Draft(code)[1..] == Draft(code[1..]);
      assert Draft(code)[0] == Drafted(code[0]);
      DraftReads(code[1..]);
    }
  }

  // ----- reads of the code of a model -----

  predicate IsTemporary(m: Model, x: nat) {
    x < |m.operands| && m.operands[x].lifetime == TemporaryVariable
  }

  /** The reads are operands in `own` of the model with index `mi`, all its temporaries
      there among them, and operands of the models from `next` on. */
  ghost predicate ReadsWithin(used: set<Key>, m: Model, mi: nat, own: set<nat>, next: nat, top: nat) {
    && (forall k :: k in used ==> (k.0 == mi && k.1 in own) || next <= k.0 < top)
    && (forall x :: x in own && IsTemporary(m, x) ==> (mi, x) in used)
  }

  lemma {:induction false} GroupsReads(m: Model, boundary: set<nat>, gs: seq<Group>, mi: nat, base: nat, next: nat)
    requires Valid(m) && AllFit(gs, m) && mi < next
    ensures ReadsWithin(ReadKeys(EmitGroups(m, boundary, gs, mi, base, next)), m, mi, BoundaryReads(m, gs), next, next + ModelCount(gs))
    decreases gs, 1
  {
    hide Valid, EmitGroup, EmitGroups, GroupFits, GroupReads, GroupModels, GroupSize, ReadKeys;
    if gs == [] {
      NothingEmitted(m, boundary, mi, base, next);
      NothingRead();
    } else {
      var g, base', next' := gs[0], base + GroupSize(gs[0]), next + GroupModels(gs[0]);
      EmitSplits(m, boundary, gs, mi, base, next);
      GroupReadsWithin(m, boundary, g, mi, base, next);
      GroupsReads(m, boundary, gs[1..], mi, base', next');
      ReadsOfConcatenation(EmitGroup(m, boundary, g, mi, base, next), EmitGroups(m, boundary, gs[1..], mi, base', next'));
    }
  }

  lemma NothingRead()
    ensures ReadKeys([]) == {} && DefinedKeys([]) == {} && DefinedOnce([])
  {
  }

  lemma {:induction false} SiteReads(m: Model, gs: seq<Group>, mi: nat, base: nat, next: nat)
    requires Valid(m) && Schedules(gs, m) && mi < next
    ensures ReadsWithin(ReadKeys(Emit(m, gs, mi, base, next)), m, mi, BoundaryReads(m, gs), next, next + ModelCount(gs))
    decreases gs, 2
  {
    hide Valid, EmitGroups, ReadKeys, BoundaryReads, ModelCount, GroupFits, ReadsWithin;
    GroupsReads(m, BoundaryReads(m, gs), gs, mi, base, next);
  }

  lemma PartitionEmits(m: Model, boundary: set<nat>, d: nat, ops: seq<nat>, mi: nat, base: nat, next: nat)
    requires GroupFits(Partition(d, ops), m)
    ensures InRange(ops, |m.operations|) && GroupModels(Partition(d, ops)) == 0
    ensures EmitGroup(m, boundary, Partition(d, ops), mi, base, next) ==
            [ExecutionStep(mi, m, Pick(m, ops), StepInputs(m, Pick(m, ops)), StepOutputs(m, Pick(m, ops), boundary))]
    ensures GroupReads(m, Partition(d, ops)) == AsSet(Externals(Pick(m, ops), {}))
  {
    hide StepInputs, StepOutputs, Externals, Pick;
  }

  lemma PartitionReadsWithin(m: Model, boundary: set<nat>, d: nat, ops: seq<nat>, mi: nat, base: nat, next: nat)
    requires GroupFits(Partition(d, ops), m)
    ensures var g := Partition(d, ops);
            ReadsWithin(ReadKeys(EmitGroup(m, boundary, g, mi, base, next)), m, mi, GroupReads(m, g), next, next + GroupModels(g))
  {
    hide EmitGroup, GroupFits, GroupReads, ReadKeys, DefinedKeys, DefinedOnce, DefinedList, StepInputs, StepOutputs, Pick, Only, Externals;
    PartitionEmits(m, boundary, d, ops, mi, base, next);
    var picked := Pick(m, ops);
    var step := ExecutionStep(mi, m, picked, StepInputs(m, picked), StepOutputs(m, picked, boundary));
    ReadsOfOne(step);
    PartitionReads(m, picked);
    assert ReadList(step) == Keys(mi, Only(StepInputs(m, picked), m, TemporaryVariable));
  }

  lemma {:induction false} GroupReadsWithin(m: Model, boundary: set<nat>, g: Group, mi: nat, base: nat, next: nat)
    requires Valid(m) && GroupFits(g, m) && mi < next
    ensures ReadsWithin(ReadKeys(EmitGroup(m, boundary, g, mi, base, next)), m, mi, GroupReads(m, g), next, next + GroupModels(g))
    decreases g, 1
  {
    hide *;
    match g {
      case Partition(d, ops) =>
        PartitionReadsWithin(m, boundary, d, ops, mi, base, next);
      case Branch(i, t, e) =>
        BranchReads(m, boundary, i, t, e, mi, base, next);
      case Loop(i, c, b) =>
        LoopReads(m, boundary, i, c, b, mi, base, next);
    }
  }

  lemma ReadsOfOne(step: LogicalStep)
    ensures ReadKeys([step]) == AsSet(ReadList(step)) && DefinedKeys([step]) == AsSet(DefinedList(step)) && DefinedOnce([step])
  {
    assert [step][1..] == [];
  }

  lemma PartitionReads(m: Model, ops: seq<Operation>)
    ensures forall x :: x in Only(StepInputs(m, ops), m, TemporaryVariable) <==> x in Externals(ops, {}) && IsTemporary(m, x)
  {
  }

  /** The parts that an interpreted operation is made of: what its first step reads, and
      the reads of two models that come one after the other. */
  lemma PartsReadWithin(m: Model, mi: nat, own: set<nat>, next: nat, head: set<Key>,
                        ra: set<Key>, a: Model, oa: set<nat>, na: nat, rb: set<Key>, b: Model, ob: set<nat>, nb: nat)
    requires forall k :: k in head <==> k.0 == mi && k.1 in own
    requires ReadsWithin(ra, a, next, oa, next + 2, next + 2 + na)
    requires ReadsWithin(rb, b, next + 1, ob, next + 2 + na, next + 2 + na + nb)
    ensures ReadsWithin(head + ra + rb, m, mi, own, next, next + 2 + na + nb)
  {
  }

  lemma ReadsOfFour(head: LogicalStep, a: seq<LogicalStep>, jump: LogicalStep, b: seq<LogicalStep>)
    requires jump.GotoStep?
    ensures ReadKeys([head] + a + [jump] + b) == AsSet(ReadList(head)) + ReadKeys(a) + ReadKeys(b)
  {
    hide ReadKeys, ReadList, DefinedKeys, DefinedOnce, DefinedList, AsSet;
    ReadsOfConcatenation([head] + a + [jump], b);
    ReadsOfConcatenation([head] + a, [jump]);
    ReadsOfConcatenation([head], a);
    ReadsOfOne(head);
    GotoReadsNothing(jump);
  }

  lemma FitsHere(m: Model, i: nat)
    requires Valid(m) && i < |m.operations|
    ensures OperationFits(m.operations[i], m.operands) && ValidPlacement(m.operations[i].placement)
  {
  }

  lemma IfHeadReads(m: Model, i: nat, t: seq<Group>, e: seq<Group>, mi: nat, base: nat, next: nat)
    requires Valid(m) && GroupFits(Branch(i, t, e), m)
    ensures i < |m.operations|
    ensures forall k :: k in ReadList(IfHead(m.operations[i], t, mi, base, next)) <==> k.0 == mi && k.1 in GroupReads(m, Branch(i, t, e))
  {
    FitsHere(m, i);
    hide Valid, ValidPlacement, Schedules, CodeSize, ModelCount;
  }

  lemma {:induction false} BranchReads(m: Model, boundary: set<nat>, i: nat, t: seq<Group>, e: seq<Group>, mi: nat, base: nat, next: nat)
    requires Valid(m) && GroupFits(Branch(i, t, e), m) && mi < next
    ensures var g := Branch(i, t, e);
            ReadsWithin(ReadKeys(EmitGroup(m, boundary, g, mi, base, next)), m, mi, GroupReads(m, g), next, next + GroupModels(g))
    decreases Branch(i, t, e), 0
  {
    hide Valid, Schedules, EmitGroup, Emit, GroupFits, GroupReads, ReadKeys, ReadList, BoundaryReads, ReadsWithin, IfHead, CodeSize, ModelCount;
    BranchEmits(m, boundary, mi, i, t, e, base, next);
    FitsHere(m, i);
    var p := m.operations[i].placement;
    var head, jump := IfHead(m.operations[i], t, mi, base, next), GotoStep(base + 2 + CodeSize(t) + CodeSize(e));
    SiteReads(p.thenModel, t, next, base + 1, next + 2);
    SiteReads(p.elseModel, e, next + 1, base + 2 + CodeSize(t), next + 2 + ModelCount(t));
    var a, b := Emit(p.thenModel, t, next, base + 1, next + 2), Emit(p.elseModel, e, next + 1, base + 2 + CodeSize(t), next + 2 + ModelCount(t));
    ReadsOfFour(head, a, jump, b);
    IfHeadReads(m, i, t, e, mi, base, next);
    PartsReadWithin(m, mi, GroupReads(m, Branch(i, t, e)), next, AsSet(ReadList(head)),
                    ReadKeys(a), p.thenModel, BoundaryReads(p.thenModel, t), ModelCount(t),
                    ReadKeys(b), p.elseModel, BoundaryReads(p.elseModel, e), ModelCount(e));
  }

  lemma WhileHeadReads(m: Model, i: nat, c: seq<Group>, b: seq<Group>, mi: nat, base: nat, next: nat)
    requires Valid(m) && GroupFits(Loop(i, c, b), m)
    ensures forall k :: k in ReadList(WhileHead(m.operations[i], c, b, mi, base, next)) <==> k.0 == mi && k.1 in GroupReads(m, Loop(i, c, b))
  {
    FitsHere(m, i);
    hide Valid, ValidPlacement, Schedules, CodeSize, ModelCount;
  }

  lemma {:induction false} LoopReads(m: Model, boundary: set<nat>, i: nat, c: seq<Group>, b: seq<Group>, mi: nat, base: nat, next: nat)
    requires Valid(m) && GroupFits(Loop(i, c, b), m) && mi < next
    ensures var g := Loop(i, c, b);
            ReadsWithin(ReadKeys(EmitGroup(m, boundary, g, mi, base, next)), m, mi, GroupReads(m, g), next, next + GroupModels(g))
    decreases Loop(i, c, b), 0
  {
    hide Valid, Schedules, EmitGroup, Emit, GroupFits, GroupReads, ReadKeys, ReadList, BoundaryReads, ReadsWithin, WhileHead, CodeSize, ModelCount;
    LoopEmits(m, boundary, mi, i, c, b, base, next);
    FitsHere(m, i);
    var p := m.operations[i].placement;
    var head, jump := WhileHead(m.operations[i], c, b, mi, base, next), GotoStep(base);
    SiteReads(p.condModel, c, next, base + 1, next + 2);
    SiteReads(p.bodyModel, b, next + 1, base + 2 + CodeSize(c), next + 2 + ModelCount(c));
    var first, second := Emit(p.condModel, c, next, base + 1, next + 2), Emit(p.bodyModel, b, next + 1, base + 2 + CodeSize(c), next + 2 + ModelCount(c));
    ReadsOfFour(head, first, jump, second);
    ReadsOfConcatenation([head] + first + [jump] + second, [jump]);
    GotoReadsNothing(jump);
    assert ReadKeys(EmitGroup(m, boundary, Loop(i, c, b), mi, base, next)) == AsSet(ReadList(head)) + ReadKeys(first) + ReadKeys(second);
    WhileHeadReads(m, i, c, b, mi, base, next);
    PartsReadWithin(m, mi, GroupReads(m, Loop(i, c, b)), next, AsSet(ReadList(head)),
                    ReadKeys(first), p.condModel, BoundaryReads(p.condModel, c), ModelCount(c),
                    ReadKeys(second), p.bodyModel, BoundaryReads(p.bodyModel, b), ModelCount(b));
  }

  lemma GotoReadsNothing(step: LogicalStep)
    requires step.GotoStep?
    ensures ReadKeys([step]) == {} && DefinedKeys([step]) == {}
  {
    ReadsOfOne(step);
  }

  // ----- completing the draft gives the plan -----

  /** Of the operands of one model exactly the ones in `boundary` are used. */
  ghost predicate Uses(used: set<Key>, m: Model, mi: nat, boundary: set<nat>) {
    forall x :: IsTemporary(m, x) ==> ((mi, x) in used <==> x in boundary)
  }

  /** For the models from `next` on, what is used is what `inner` reads. */
  ghost predicate SameFor(used: set<Key>, inner: set<Key>, next: nat, top: nat) {
    forall k: Key :: next <= k.0 < top ==> (k in used <==> k in inner)
  }

  lemma {:induction false} GroupsComplete(m: Model, boundary: set<nat>, gs: seq<Group>, mi: nat, base: nat, next: nat, used: set<Key>)
    requires Valid(m) && AllFit(gs, m) && mi < next && Uses(used, m, mi, boundary)
    requires SameFor(used, ReadKeys(EmitGroups(m, boundary, gs, mi, base, next)), next, next + ModelCount(gs))
    ensures Complete(Draft(EmitGroups(m, boundary, gs, mi, base, next)), used) == EmitGroups(m, boundary, gs, mi, base, next)
    decreases gs, 1
  {
    hide Valid, EmitGroup, EmitGroups, GroupFits, GroupReads, GroupModels, GroupSize, ReadKeys, BoundaryReads, Draft, Complete, Uses;
    if gs == [] {
      NothingEmitted(m, boundary, mi, base, next);
      CompleteNothing(used);
    } else {
      var g, base', next' := gs[0], base + GroupSize(gs[0]), next + GroupModels(gs[0]);
      EmitSplits(m, boundary, gs, mi, base, next);
      var a, b := EmitGroup(m, boundary, g, mi, base, next), EmitGroups(m, boundary, gs[1..], mi, base', next');
      GroupReadsWithin(m, boundary, g, mi, base, next);
      GroupsReads(m, boundary, gs[1..], mi, base', next');
      ReadsOfConcatenation(a, b);
      GroupCompletes(m, boundary, g, mi, base, next, used);
      GroupsComplete(m, boundary, gs[1..], mi, base', next', used);
      DraftConcatenation(a, b);
      CompleteConcatenation(Draft(a), Draft(b), used);
    }
  }

  lemma CompleteNothing(used: set<Key>)
    ensures Complete(Draft([]), used) == []
  {
  }

  lemma {:induction false} SiteCompletes(m: Model, gs: seq<Group>, mi: nat, base: nat, next: nat, used: set<Key>)
    requires Valid(m) && Schedules(gs, m) && mi < next
    requires SameFor(used, ReadKeys(Emit(m, gs, mi, base, next)), mi, mi + 1)
    requires SameFor(used, ReadKeys(Emit(m, gs, mi, base, next)), next, next + ModelCount(gs))
    ensures Complete(Draft(Emit(m, gs, mi, base, next)), used) == Emit(m, gs, mi, base, next)
    decreases gs, 2
  {
    hide Valid, EmitGroups, GroupFits, ReadKeys, BoundaryReads, ModelCount, Draft, Complete;
    SiteReads(m, gs, mi, base, next);
    GroupsComplete(m, BoundaryReads(m, gs), gs, mi, base, next, used);
  }

  lemma {:induction false} GroupCompletes(m: Model, boundary: set<nat>, g: Group, mi: nat, base: nat, next: nat, used: set<Key>)
    requires Valid(m) && GroupFits(g, m) && mi < next && Uses(used, m, mi, boundary)
    requires SameFor(used, ReadKeys(EmitGroup(m, boundary, g, mi, base, next)), next, next + GroupModels(g))
    ensures Complete(Draft(EmitGroup(m, boundary, g, mi, base, next)), used) == EmitGroup(m, boundary, g, mi, base, next)
    decreases g, 1
  {
    hide *;
    match g {
      case Partition(d, ops) =>
        PartitionCompletes(m, boundary, d, ops, mi, base, next, used);
      case Branch(i, t, e) =>
        BranchCompletes(m, boundary, i, t, e, mi, base, next, used);
      case Loop(i, c, b) =>
        LoopCompletes(m, boundary, i, c, b, mi, base, next, used);
    }
  }

  lemma PartitionCompletes(m: Model, boundary: set<nat>, d: nat, ops: seq<nat>, mi: nat, base: nat, next: nat, used: set<Key>)
    requires GroupFits(Partition(d, ops), m) && Uses(used, m, mi, boundary)
    ensures var code := EmitGroup(m, boundary, Partition(d, ops), mi, base, next); Complete(Draft(code), used) == code
  {
    hide StepInputs, Pick, Ascending, Only, Written;
    var code := EmitGroup(m, boundary, Partition(d, ops), mi, base, next);
    var step := code[0];
    assert code == [step];
    var draft := Drafted(step);
    var temps := TempsUsed(draft, used);
    assert temps == AsSet(Only(Written(step.operations), m, TemporaryVariable)) * boundary by {
      forall x | x in Only(Written(step.operations), m, TemporaryVariable) && x in boundary ensures x in temps {
        assert (mi, x) in DefinedList(draft) && (mi, x).1 == x;
      }
    }
  }

  lemma PartsUsed(used: set<Key>, m: Model, mi: nat, own: set<nat>, next: nat, head: set<Key>,
                  ra: set<Key>, a: Model, oa: set<nat>, na: nat, rb: set<Key>, b: Model, ob: set<nat>, nb: nat)
    requires mi < next && (forall k :: k in head <==> k.0 == mi && k.1 in own)
    requires ReadsWithin(ra, a, next, oa, next + 2, next + 2 + na)
    requires ReadsWithin(rb, b, next + 1, ob, next + 2 + na, next + 2 + na + nb)
    requires SameFor(used, head + ra + rb, next, next + 2 + na + nb)
    ensures SameFor(used, ra, next, next + 1) && SameFor(used, ra, next + 2, next + 2 + na)
    ensures SameFor(used, rb, next + 1, next + 2) && SameFor(used, rb, next + 2 + na, next + 2 + na + nb)
  {
  }

  lemma CompleteOne(step: LogicalStep, used: set<Key>)
    requires !step.ExecutionStep?
    ensures Complete([step], used) == [step]
  {
  }

  lemma CompleteBetween(head: LogicalStep, a: seq<LogicalStep>, jump: LogicalStep, b: seq<LogicalStep>, used: set<Key>)
    requires !head.ExecutionStep? && !jump.ExecutionStep?
    requires Complete(Draft(a), used) == a && Complete(Draft(b), used) == b
    ensures Complete(Draft([head] + a + [jump] + b), used) == [head] + a + [jump] + b
  {
    hide Complete, Draft;
    DraftConcatenation([head] + a + [jump], b);
    DraftBetween(head, a, jump);
    CompleteConcatenation([head] + Draft(a) + [jump], Draft(b), used);
    CompleteConcatenation([head] + Draft(a), [jump], used);
    CompleteConcatenation([head], Draft(a), used);
    CompleteOne(head, used);
    CompleteOne(jump, used);
  }

  lemma {:induction false} BranchCompletes(m: Model, boundary: set<nat>, i: nat, t: seq<Group>, e: seq<Group>, mi: nat, base: nat, next: nat, used: set<Key>)
    requires Valid(m) && GroupFits(Branch(i, t, e), m) && mi < next
    requires SameFor(used, ReadKeys(EmitGroup(m, boundary, Branch(i, t, e), mi, base, next)), next, next + GroupModels(Branch(i, t, e)))
    ensures var code := EmitGroup(m, boundary, Branch(i, t, e), mi, base, next); Complete(Draft(code), used) == code
    decreases Branch(i, t, e), 0
  {
    hide Valid, Schedules, EmitGroup, Emit, GroupFits, GroupReads, ReadKeys, ReadList, BoundaryReads, ReadsWithin, IfHead, CodeSize, ModelCount, Draft, Complete, SameFor;
    BranchEmits(m, boundary, mi, i, t, e, base, next);
    FitsHere(m, i);
    var p := m.operations[i].placement;
    var head, jump := IfHead(m.operations[i], t, mi, base, next), GotoStep(base + 2 + CodeSize(t) + CodeSize(e));
    SiteReads(p.thenModel, t, next, base + 1, next + 2);
    SiteReads(p.elseModel, e, next + 1, base + 2 + CodeSize(t), next + 2 + ModelCount(t));
    var a, b := Emit(p.thenModel, t, next, base + 1, next + 2), Emit(p.elseModel, e, next + 1, base + 2 + CodeSize(t), next + 2 + ModelCount(t));
    ReadsOfFour(head, a, jump, b);
    IfHeadReads(m, i, t, e, mi, base, next);
    PartsUsed(used, m, mi, GroupReads(m, Branch(i, t, e)), next, AsSet(ReadList(head)),
              ReadKeys(a), p.thenModel, BoundaryReads(p.thenModel, t), ModelCount(t),
              ReadKeys(b), p.elseModel, BoundaryReads(p.elseModel, e), ModelCount(e));
    SiteCompletes(p.thenModel, t, next, base + 1, next + 2, used);
    SiteCompletes(p.elseModel, e, next + 1, base + 2 + CodeSize(t), next + 2 + ModelCount(t), used);
    HeadIsIfStep(m.operations[i], t, mi, base, next);
    CompleteBetween(head, a, jump, b, used);
  }

  lemma {:induction false} LoopCompletes(m: Model, boundary: set<nat>, i: nat, c: seq<Group>, b: seq<Group>, mi: nat, base: nat, next: nat, used: set<Key>)
    requires Valid(m) && GroupFits(Loop(i, c, b), m) && mi < next
    requires SameFor(used, ReadKeys(EmitGroup(m, boundary, Loop(i, c, b), mi, base, next)), next, next + GroupModels(Loop(i, c, b)))
    ensures var code := EmitGroup(m, boundary, Loop(i, c, b), mi, base, next); Complete(Draft(code), used) == code
    decreases Loop(i, c, b), 0
  {
    hide Valid, Schedules, EmitGroup, Emit, GroupFits, GroupReads, ReadKeys, ReadList, BoundaryReads, ReadsWithin, WhileHead, CodeSize, ModelCount, Draft, Complete, SameFor;
    LoopEmits(m, boundary, mi, i, c, b, base, next);
    FitsHere(m, i);
    var p := m.operations[i].placement;
    var head, jump := WhileHead(m.operations[i], c, b, mi, base, next), GotoStep(base);
    SiteReads(p.condModel, c, next, base + 1, next + 2);
    SiteReads(p.bodyModel, b, next + 1, base + 2 + CodeSize(c), next + 2 + ModelCount(c));
    var first, second := Emit(p.condModel, c, next, base + 1, next + 2), Emit(p.bodyModel, b, next + 1, base + 2 + CodeSize(c), next + 2 + ModelCount(c));
    ReadsOfFour(head, first, jump, second);
    ReadsOfConcatenation([head] + first + [jump] + second, [jump]);
    GotoReadsNothing(jump);
    assert ReadKeys(EmitGroup(m, boundary, Loop(i, c, b), mi, base, next)) == AsSet(ReadList(head)) + ReadKeys(first) + ReadKeys(second);
    WhileHeadReads(m, i, c, b, mi, base, next);
    PartsUsed(used, m, mi, GroupReads(m, Loop(i, c, b)), next, AsSet(ReadList(head)),
              ReadKeys(first), p.condModel, BoundaryReads(p.condModel, c), ModelCount(c),
              ReadKeys(second), p.bodyModel, BoundaryReads(p.bodyModel, b), ModelCount(b));
    SiteCompletes(p.condModel, c, next, base + 1, next + 2, used);
    SiteCompletes(p.bodyModel, b, next + 1, base + 2 + CodeSize(c), next + 2 + ModelCount(c), used);
    HeadIsWhileStep(m.operations[i], c, b, mi, base, next);
    CompleteBetween(head, first, jump, second, used);
    DraftConcatenation([head] + first + [jump] + second, [jump]);
    DraftOfOne(jump);
    CompleteConcatenation(Draft([head] + first + [jump] + second), [jump], used);
    CompleteOne(jump, used);
  }

  // ----- definitions -----

  /** What is defined is an output of the operations or belongs to a model from `next` on. */
  ghost predicate DefinedWithin(defined: set<Key>, mi: nat, own: set<nat>, next: nat, top: nat) {
    forall k :: k in defined ==> (k.0 == mi && k.1 in own) || next <= k.0 < top
  }

  lemma {:induction false} GroupsDefineOnce(m: Model, boundary: set<nat>, gs: seq<Group>, mi: nat, base: nat, next: nat, known: set<nat>)
    requires AllFit(gs, m) && mi < next && InRange(Order(gs), |m.operations|) && Ordered(Pick(m, Order(gs)), known)
    ensures DefinedOnce(EmitGroups(m, boundary, gs, mi, base, next))
    ensures DefinedWithin(DefinedKeys(EmitGroups(m, boundary, gs, mi, base, next)), mi, OutputsOf(Pick(m, Order(gs))), next, next + ModelCount(gs))
    decreases gs, 1
  {
    hide EmitGroup, EmitGroups, GroupFits, GroupModels, GroupSize, DefinedKeys, DefinedOnce, Ordered, OutputsOf, OpsOf, Pick;
    if gs == [] {
      NothingEmitted(m, boundary, mi, base, next);
      NothingRead();
    } else {
      var g, base', next' := gs[0], base + GroupSize(gs[0]), next + GroupModels(gs[0]);
      EmitSplits(m, boundary, gs, mi, base, next);
      var a, b := EmitGroup(m, boundary, g, mi, base, next), EmitGroups(m, boundary, gs[1..], mi, base', next');
      var o, rest := OpsOf(g), Order(gs[1..]);
      assert forall x :: x in o || x in rest ==> x in Order(gs);
      PickConcatenation(m, o, rest);
      OrderedConcatenation(Pick(m, o), Pick(m, rest), known);
      OutputsOfConcatenation(Pick(m, o), Pick(m, rest));
      GroupDefinesOnce(m, boundary, g, mi, base, next);
      GroupsDefineOnce(m, boundary, gs[1..], mi, base', next', known + OutputsOf(Pick(m, o)));
      OutputsOfLater(Pick(m, rest), known + OutputsOf(Pick(m, o)));
      DefinedConcatenation(a, b);
    }
  }

  lemma {:induction false} OutputsOfLater(ops: seq<Operation>, known: set<nat>)
    requires Ordered(ops, known)
    ensures OutputsOf(ops) !! known
  {
    if ops != [] { OutputsOfLater(ops[1..], known + AsSet(ops[0].outputs)); }
  }

  lemma {:induction false} SiteDefinesOnce(m: Model, gs: seq<Group>, mi: nat, base: nat, next: nat)
    requires Schedules(gs, m) && mi < next
    ensures InRange(Order(gs), |m.operations|)
    ensures DefinedOnce(Emit(m, gs, mi, base, next))
    ensures DefinedWithin(DefinedKeys(Emit(m, gs, mi, base, next)), mi, OutputsOf(Pick(m, Order(gs))), next, next + ModelCount(gs))
    decreases gs, 2
  {
    hide EmitGroups, GroupFits, DefinedKeys, DefinedOnce, Ordered, OutputsOf, OpsOf, Pick, ModelCount, BoundaryReads, DefinedWithin, Order;
    GroupsDefineOnce(m, BoundaryReads(m, gs), gs, mi, base, next, KnownSet(m));
  }

  lemma {:induction false} GroupDefinesOnce(m: Model, boundary: set<nat>, g: Group, mi: nat, base: nat, next: nat)
    requires GroupFits(g, m) && mi < next && InRange(OpsOf(g), |m.operations|)
    ensures DefinedOnce(EmitGroup(m, boundary, g, mi, base, next))
    ensures DefinedWithin(DefinedKeys(EmitGroup(m, boundary, g, mi, base, next)), mi, OutputsOf(Pick(m, OpsOf(g))), next, next + GroupModels(g))
    decreases g, 1
  {
    hide Schedules, Emit, DefinedKeys, DefinedOnce, OutputsOf, CodeSize, ModelCount, Pick, StepInputs, StepOutputs, EmitGroup, IfHead, WhileHead, DefinedWithin, GroupFits;
    match g {
      case Partition(d, ops) =>
        PartitionDefines(m, boundary, d, ops, mi, base, next);
      case Branch(i, t, e) =>
        BranchEmits(m, boundary, mi, i, t, e, base, next);
        var p := m.operations[i].placement;
        HeadIsIfStep(m.operations[i], t, mi, base, next);
        SiteDefinesOnce(p.thenModel, t, next, base + 1, next + 2);
        SiteDefinesOnce(p.elseModel, e, next + 1, base + 2 + CodeSize(t), next + 2 + ModelCount(t));
        PartsDefineOnce(mi, OutputsOf(Pick(m, OpsOf(g))), next, IfHead(m.operations[i], t, mi, base, next), GotoStep(base + 2 + CodeSize(t) + CodeSize(e)),
                        Emit(p.thenModel, t, next, base + 1, next + 2), OutputsOf(Pick(p.thenModel, Order(t))), ModelCount(t),
                        Emit(p.elseModel, e, next + 1, base + 2 + CodeSize(t), next + 2 + ModelCount(t)), OutputsOf(Pick(p.elseModel, Order(e))), ModelCount(e));
      case Loop(i, c, b) =>
        LoopEmits(m, boundary, mi, i, c, b, base, next);
        var p := m.operations[i].placement;
        HeadIsWhileStep(m.operations[i], c, b, mi, base, next);
        SiteDefinesOnce(p.condModel, c, next, base + 1, next + 2);
        SiteDefinesOnce(p.bodyModel, b, next + 1, base + 2 + CodeSize(c), next + 2 + ModelCount(c));
        var head, jump := WhileHead(m.operations[i], c, b, mi, base, next), GotoStep(base);
        var first, second := Emit(p.condModel, c, next, base + 1, next + 2), Emit(p.bodyModel, b, next + 1, base + 2 + CodeSize(c), next + 2 + ModelCount(c));
        PartsDefineOnce(mi, OutputsOf(Pick(m, OpsOf(g))), next, head, jump,
                        first, OutputsOf(Pick(p.condModel, Order(c))), ModelCount(c),
                        second, OutputsOf(Pick(p.bodyModel, Order(b))), ModelCount(b));
        GotoReadsNothing(jump);
        ReadsOfOne(jump);
        DefinedConcatenation([head] + first + [jump] + second, [jump]);
        assert DefinedKeys([head] + first + [jump] + second + [jump]) == DefinedKeys([head] + first + [jump] + second);
    }
  }

  lemma PartsDefineOnce(mi: nat, own: set<nat>, next: nat, head: LogicalStep, jump: LogicalStep,
                        a: seq<LogicalStep>, oa: set<nat>, na: nat, b: seq<LogicalStep>, ob: set<nat>, nb: nat)
    requires !head.ExecutionStep? && jump.GotoStep?
    requires DefinedOnce(a) && DefinedWithin(DefinedKeys(a), next, oa, next + 2, next + 2 + na)
    requires DefinedOnce(b) && DefinedWithin(DefinedKeys(b), next + 1, ob, next + 2 + na, next + 2 + na + nb)
    ensures DefinedOnce([head] + a + [jump] + b)
    ensures DefinedWithin(DefinedKeys([head] + a + [jump] + b), mi, own, next, next + 2 + na + nb)
  {
    hide DefinedOnce, DefinedKeys;
    ReadsOfOne(head);
    ReadsOfOne(jump);
    assert DefinedList(head) == [];
    DefinedConcatenation([head], a);
    DefinedConcatenation([head] + a, [jump]);
    DefinedConcatenation([head] + a + [jump], b);
  }

  lemma PartitionDefines(m: Model, boundary: set<nat>, d: nat, ops: seq<nat>, mi: nat, base: nat, next: nat)
    requires GroupFits(Partition(d, ops), m)
    ensures var code := EmitGroup(m, boundary, Partition(d, ops), mi, base, next);
            DefinedOnce(code) && DefinedWithin(DefinedKeys(code), mi, OutputsOf(Pick(m, ops)), next, next)
  {
    hide StepInputs, StepOutputs, Pick, DefinedOnce, DefinedKeys;
    var code := EmitGroup(m, boundary, Partition(d, ops), mi, base, next);
    assert code == [code[0]];
    ReadsOfOne(code[0]);
    WrittenAreOutputs(Pick(m, ops));
    hide Only, Written;
    forall k | k in DefinedList(code[0]) ensures k.0 == mi && k.1 in OutputsOf(Pick(m, ops)) {
    }
  }

  // ----- the pass -----

  lemma {:induction false} DefinedElsewhere(code: seq<LogicalStep>, q: nat, k: Key)
    requires q < |code| && k in DefinedList(code[q])
    ensures k in DefinedKeys(code)
  {
    hide DefinedList;
    if q > 0 {
      assert code[1..][q - 1] == code[q];
      DefinedElsewhere(code[1..], q - 1, k);
    }
  }

  lemma {:induction false} DefinedApart(code: seq<LogicalStep>, p: nat, q: nat, k: Key)
    requires DefinedOnce(code) && p < q < |code| && k in DefinedList(code[p])
    ensures k !in DefinedList(code[q])
  {
    hide DefinedList, DefinedKeys;
    if p > 0 {
      DefinedApart(code[1..], p - 1, q - 1, k);
    } else if k in DefinedList(code[q]) {
      DefinedElsewhere(code[1..], q - 1, k);
    }
  }

  /** Which step defines each temporary. */
  ghost predicate Defines(definitions: map<Key, nat>, code: seq<LogicalStep>, n: nat)
    requires n <= |code|
  {
    && (forall k :: k in definitions ==> definitions[k] < n && k in DefinedList(code[definitions[k]]))
    && (forall p, k :: 0 <= p < n && k in DefinedList(code[p]) ==> k in definitions && definitions[k] == p)
  }

  method RecordDefinitions(code: seq<LogicalStep>) returns (definitions: map<Key, nat>)
    requires DefinedOnce(code)
    ensures Defines(definitions, code, |code|)
  {
    hide DefinedList, DefinedOnce;
    definitions := map[];
    for p := 0 to |code|
      invariant Defines(definitions, code, p)
    {
      ghost var before := definitions;
      var keys := DefinedList(code[p]);
      for j := 0 to |keys|
        invariant forall k :: k in definitions <==> k in before || k in keys[..j]
        invariant forall k :: k in definitions ==> definitions[k] == if k in keys[..j] then p else before[k]
      {
        assert keys[..j + 1] == keys[..j] + [keys[j]];
        definitions := definitions[keys[j] := p];
      }
      assert keys[..|keys|] == keys;
      forall q, k | 0 <= q < p && k in DefinedList(code[q]) ensures k !in keys {
        DefinedApart(code, q, p, k);
      }
    }
  }

  /** The temporaries recorded for each step. */
  ghost predicate Records(temps: seq<set<nat>>, code: seq<LogicalStep>, used: set<Key>) {
    |temps| == |code| && forall p :: 0 <= p < |code| ==> temps[p] == TempsUsed(code[p], used)
  }

  // Records one operand with the step that defines it, if a step does.
  method RecordAsOutputIfTemporary(definitions: map<Key, nat>, k: Key, temps: seq<set<nat>>, ghost code: seq<LogicalStep>, ghost used: set<Key>)
    returns (r: seq<set<nat>>)
    requires Defines(definitions, code, |code|) && Records(temps, code, used)
    ensures Records(r, code, used + {k})
  {
    hide DefinedList;
    r := temps;
    if k in definitions {
      var p := definitions[k];
      r := r[p := r[p] + {k.1}];
    }
    forall q | 0 <= q < |code| ensures r[q] == TempsUsed(code[q], used + {k}) {
      OneMoreUsed(code[q], used, k);
      assert k in DefinedList(code[q]) ==> k in definitions && definitions[k] == q;
    }
  }

  lemma OneMoreUsed(step: LogicalStep, used: set<Key>, k: Key)
    ensures TempsUsed(step, used + {k}) == if k in DefinedList(step) then TempsUsed(step, used) + {k.1} else TempsUsed(step, used)
  {
    hide DefinedList;
    forall x | x in TempsUsed(step, used) ensures x in TempsUsed(step, used + {k}) {
      var k' :| k' in DefinedList(step) && k' in used && k'.1 == x;
      assert k' in used + {k};
    }
    if k in DefinedList(step) {
      assert k in used + {k} && k.1 in TempsUsed(step, used + {k});
    }
  }

  /** Makes temporaries outputs of the steps that define them where another step, an IF
      or a WHILE reads them. */
  method FindTempsAsStepModelOutputs(code: seq<LogicalStep>) returns (temps: seq<set<nat>>)
    requires DefinedOnce(code)
    ensures Records(temps, code, ReadKeys(code))
  {
    hide DefinedOnce, ReadList, DefinedList, Records;
    var definitions := RecordDefinitions(code);
    temps := seq(|code|, _ => {});
    NothingUsed(code, temps);
    for p := 0 to |code|
      invariant Records(temps, code, ReadKeys(code[..p]))
    {
      var keys := ReadList(code[p]);
      ghost var used := ReadKeys(code[..p]);
      assert used + AsSet(keys[..0]) == used;
      for j := 0 to |keys|
        invariant Records(temps, code, used + AsSet(keys[..j]))
      {
        assert used + AsSet(keys[..j + 1]) == used + AsSet(keys[..j]) + {keys[j]};
        temps := RecordAsOutputIfTemporary(definitions, keys[j], temps, code, used + AsSet(keys[..j]));
      }
      assert keys[..|keys|] == keys && code[..p + 1] == code[..p] + [code[p]];
      ReadsOfConcatenation(code[..p], [code[p]]);
      ReadsOfOne(code[p]);
    }
    assert code[..|code|] == code;
  }

  lemma NothingUsed(code: seq<LogicalStep>, temps: seq<set<nat>>)
    requires |temps| == |code| && forall p :: 0 <= p < |temps| ==> temps[p] == {}
    ensures Records(temps, code, ReadKeys(code[..0]))
  {
  }

  // Gives every step its outputs: those of the model first, then the recorded temporaries.
  method MapOutputs(code: seq<LogicalStep>, temps: seq<set<nat>>, ghost used: set<Key>) returns (r: seq<LogicalStep>)
    requires Records(temps, code, used)
    ensures r == Complete(code, used)
  {
    r := [];
    for p := 0 to |code|
      invariant r == Complete(code, used)[..p]
    {
      var step := code[p];
      if step.ExecutionStep? {
        step := step.(stepOutputs := step.stepOutputs + Ascending(|step.model.operands|, temps[p]));
      }
      r := r + [step];
    }
  }

  // ----- the partitioner as a whole -----

  datatype Body = SimpleBody(device: nat) | CompoundBody

  /** One device runs all the operations. */
  ghost predicate OneDevice(m: Model, d: nat) {
    forall i :: 0 <= i < |m.operations| ==> m.operations[i].placement == OnDevice(d)
  }

  // The device that runs all the operations, unless they run in more than one place.
  method FindOnlyDevice(m: Model) returns (d: Option<nat>)
    requires |m.operations| > 0
    ensures d.Some? ==> OneDevice(m, d.value)
    ensures d.None? ==> forall x :: !OneDevice(m, x)
    ensures d.Some? <==> m.operations[0].placement.OnDevice? && forall i :: 0 <= i < |m.operations| ==> m.operations[i].placement == m.operations[0].placement
    ensures d.Some? ==> m.operations[0].placement == OnDevice(d.value)
  {
    var first := m.operations[0].placement;
    if !first.OnDevice? { return None; }
    for i := 1 to |m.operations|
      invariant forall j :: 0 <= j < i ==> m.operations[j].placement == first
    {
      if m.operations[i].placement != first { return None; }
    }
    return Some(first.device);
  }

  /** Partitions the main model. If one device runs everything there is a single step;
      otherwise the plan is exactly the code of a schedule of the model. */
  method PartitionTheWork(plan: ExecutionPlan, m: Model, deviceCount: nat) returns (body: Body, ghost gs: seq<Group>)
    requires Valid(m) && DevicesBelow(m, deviceCount) && plan.steps == [] && plan.sourceModels == []
    modifies plan
    ensures body.SimpleBody? ==> OneDevice(m, body.device)
    ensures |m.operations| > 0
    ensures body.SimpleBody? <==>
              m.operations[0].placement.OnDevice? && forall i :: 0 <= i < |m.operations| ==> m.operations[i].placement == m.operations[0].placement
    ensures body.SimpleBody? ==> m.operations[0].placement == OnDevice(body.device)
    ensures body.CompoundBody? ==>
              && (forall d :: !OneDevice(m, d)) && Schedules(gs, m)
              && plan.steps == Emit(m, gs, 0, 0, 1) && plan.sourceModels == [m] + AddedModels(m, gs)
  {
    hide Valid, DevicesBelow, Emit, Schedules, AddedModels, Draft, Complete, OneDevice, DefinedOnce, ReadKeys, Records, ShallowValid;
    var index := plan.AddModel(m);
    HasOperations(m);
    var only := FindOnlyDevice(m);
    if only.Some? { return SimpleBody(only.value), []; }
    gs := PartitionTheWorkInternal(plan, m, 0, deviceCount);
    assert plan.steps == Draft(Emit(m, gs, 0, 0, 1));
    DraftIsCompleted(m, gs);
    var temps := FindTempsAsStepModelOutputs(plan.steps);
    var steps := MapOutputs(plan.steps, temps, ReadKeys(plan.steps));
    plan.SetSteps(steps);
    body := CompoundBody;
  }

  // The operations of a step run on one device.
  ghost predicate OnOneDevice(step: LogicalStep) {
    step.ExecutionStep? ==>
      step.operations != [] && step.operations[0].placement.OnDevice?
      && forall i :: 0 <= i < |step.operations| ==> step.operations[i].placement == step.operations[0].placement
  }

  /** Every step of a plan runs on one device, and no operation runs anywhere else than the
      model says. */
  lemma {:induction false} StepsKeepDevices(m: Model, boundary: set<nat>, gs: seq<Group>, mi: nat, base: nat, next: nat)
    requires AllFit(gs, m)
    ensures forall step :: step in EmitGroups(m, boundary, gs, mi, base, next) ==> OnOneDevice(step)
    decreases gs, 1
  {
    hide *;
    if gs == [] {
      NothingEmitted(m, boundary, mi, base, next);
    } else {
      EmitSplits(m, boundary, gs, mi, base, next);
      StepsOfGroup(m, boundary, gs[0], mi, base, next);
      StepsKeepDevices(m, boundary, gs[1..], mi, base + GroupSize(gs[0]), next + GroupModels(gs[0]));
    }
  }

  lemma {:induction false} StepsOfGroup(m: Model, boundary: set<nat>, g: Group, mi: nat, base: nat, next: nat)
    requires GroupFits(g, m)
    ensures forall step :: step in EmitGroup(m, boundary, g, mi, base, next) ==> OnOneDevice(step)
    decreases g, 0
  {
    hide Schedules, StepInputs, StepOutputs, EmitGroups, IfHead, WhileHead, OnOneDevice, Emit;
    JumpsAreAnywhere();
    match g {
      case Partition(_, ops) =>
        StepOfPartition(m, boundary, g, mi, base, next);
      case Branch(o, t, e) =>
        var op, j := m.operations[o], base + 1 + CodeSize(t);
        HeadIsIfStep(op, t, mi, base, next);
        StepsOfPlan(op.placement.thenModel, t, next, base + 1, next + 2);
        StepsOfPlan(op.placement.elseModel, e, next + 1, j + 1, next + 2 + ModelCount(t));
      case Loop(o, c, b) =>
        var op, j := m.operations[o], base + 1 + CodeSize(c);
        HeadIsWhileStep(op, c, b, mi, base, next);
        StepsOfPlan(op.placement.condModel, c, next, base + 1, next + 2);
        StepsOfPlan(op.placement.bodyModel, b, next + 1, j + 1, next + 2 + ModelCount(c));
    }
  }

  lemma JumpsAreAnywhere()
    ensures forall step: LogicalStep :: !step.ExecutionStep? ==> OnOneDevice(step)
  {
  }

  lemma StepOfPartition(m: Model, boundary: set<nat>, g: Group, mi: nat, base: nat, next: nat)
    requires GroupFits(g, m) && g.Partition?
    ensures forall step :: step in EmitGroup(m, boundary, g, mi, base, next) ==> OnOneDevice(step)
  {
    hide StepInputs, StepOutputs;
  }

  lemma {:induction false} StepsOfPlan(m: Model, gs: seq<Group>, mi: nat, base: nat, next: nat)
    requires Schedules(gs, m)
    ensures forall step :: step in Emit(m, gs, mi, base, next) ==> OnOneDevice(step)
    decreases gs, 2
  {
    hide OnOneDevice, EmitGroups, GroupFits;
    StepsKeepDevices(m, BoundaryReads(m, gs), gs, mi, base, next);
  }

  lemma HasOperations(m: Model)
    requires Valid(m)
    ensures |m.operations| > 0
  {
  }

  /** Completing the draft of a schedule gives the code of the schedule. */
  lemma DraftIsCompleted(m: Model, gs: seq<Group>)
    requires Valid(m) && Schedules(gs, m)
    ensures var draft := Draft(Emit(m, gs, 0, 0, 1)); DefinedOnce(draft) && Complete(draft, ReadKeys(draft)) == Emit(m, gs, 0, 0, 1)
  {
    hide *;
    SiteDefinesOnce(m, gs, 0, 0, 1);
    DraftReads(Emit(m, gs, 0, 0, 1));
    SelfSame(ReadKeys(Emit(m, gs, 0, 0, 1)), 0, 1);
    SelfSame(ReadKeys(Emit(m, gs, 0, 0, 1)), 1, 1 + ModelCount(gs));
    SiteCompletes(m, gs, 0, 0, 1, ReadKeys(Emit(m, gs, 0, 0, 1)));
  }

  lemma SelfSame(used: set<Key>, next: nat, top: nat)
    ensures SameFor(used, used, next, top)
  {
  }
}
