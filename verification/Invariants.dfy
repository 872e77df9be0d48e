/** What holds of the interpreter's state while the steps of one source model run. */
module Invariants {
  import opened Models
  import opened Scheduling
  import opened FlatPlans
  import opened Machine

  /** A source model with its schedule, its index, the position of its steps and
      the index of the first source model added for it. */
  datatype Site = Site(m: Model, gs: seq<Group>, mi: nat, base: nat, next: nat) {
    function End(): nat { base + CodeSize(gs) }
    function Top(): nat { next + ModelCount(gs) }
    function BaseAt(i: nat): nat requires i <= |gs| { base + CodeSize(gs[..i]) }
    function NextAt(i: nat): nat requires i <= |gs| { next + ModelCount(gs[..i]) }
    function Boundary(): set<nat> { BoundaryReads(m, gs) }

    ghost predicate Valid() {
      Models.Valid(m) && Schedules(gs, m) && mi < next
    }
  }

  // ----- positions of groups -----

  lemma {:induction false} SizesSplit(gs: seq<Group>, i: nat)
    requires i < |gs|
    ensures CodeSize(gs[..i + 1]) == CodeSize(gs[..i]) + GroupSize(gs[i])
    ensures ModelCount(gs[..i + 1]) == ModelCount(gs[..i]) + GroupModels(gs[i])
    ensures CodeSize(gs[..i]) + GroupSize(gs[i]) <= CodeSize(gs)
    ensures ModelCount(gs[..i]) + GroupModels(gs[i]) <= ModelCount(gs)
  {
    if i == 0 {
      assert gs[..1] == [gs[0]] && gs[..1][1..] == [];
    } else {
      SizesSplit(gs[1..], i - 1);
      assert gs[..i][1..] == gs[1..][..i - 1];
      assert gs[..i + 1][1..] == gs[1..][..i];
    }
  }

  lemma {:induction false} SizesOrdered(gs: seq<Group>, i: nat, j: nat)
    requires i < j < |gs|
    ensures CodeSize(gs[..i]) + GroupSize(gs[i]) <= CodeSize(gs[..j])
    ensures ModelCount(gs[..i]) + GroupModels(gs[i]) <= ModelCount(gs[..j])
    decreases j
  {
    SizesSplit(gs, i);
    if j > i + 1 {
      SizesOrdered(gs, i, j - 1);
      SizesSplit(gs, j - 1);
    }
  }

  ghost predicate CodeAt(code: seq<LogicalStep>, base: nat, part: seq<LogicalStep>) {
    base + |part| <= |code| && code[base..base + |part|] == part
  }

  lemma CodeAtParts(code: seq<LogicalStep>, base: nat, a: seq<LogicalStep>, b: seq<LogicalStep>)
    requires CodeAt(code, base, a + b)
    ensures CodeAt(code, base, a) && CodeAt(code, base + |a|, b)
  {
    assert code[base..base + |a|] == code[base..base + |a + b|][..|a|];
    assert code[base + |a|..base + |a| + |b|] == code[base..base + |a + b|][|a|..];
  }

  lemma {:induction false} GroupCodeAt(code: seq<LogicalStep>, m: Model, boundary: set<nat>, gs: seq<Group>, mi: nat, base: nat, next: nat, i: nat)
    requires forall j :: 0 <= j < |gs| ==> GroupFits(gs[j], m)
    requires i < |gs|
    requires CodeAt(code, base, EmitGroups(m, boundary, gs, mi, base, next))
    ensures CodeAt(code, base + CodeSize(gs[..i]),
                   EmitGroup(m, boundary, gs[i], mi, base + CodeSize(gs[..i]), next + ModelCount(gs[..i])))
  {
    hide EmitGroup, GroupFits;
    var a := EmitGroup(m, boundary, gs[0], mi, base, next);
    var b := EmitGroups(m, boundary, gs[1..], mi, base + GroupSize(gs[0]), next + GroupModels(gs[0]));
    CodeAtParts(code, base, a, b);
    if i > 0 {
      GroupCodeAt(code, m, boundary, gs[1..], mi, base + GroupSize(gs[0]), next + GroupModels(gs[0]), i - 1);
      assert gs[..i][1..] == gs[1..][..i - 1];
    }
  }

  // ----- a source model at rest -----

  predicate IsTemp(m: Model, x: nat) {
    x < |m.operands| && m.operands[x].lifetime == TemporaryVariable
  }

  /** The temporaries that a group writes for others to read. */
  function HousedBy(m: Model, boundary: set<nat>, g: Group): set<nat> {
    if g.Partition? then
      if forall i :: i in g.ops ==> i < |m.operations| then AsSet(StepOutputs(m, Pick(m, g.ops), boundary)) else {}
    else if g.op < |m.operations| then AsSet(m.operations[g.op].outputs)
    else {}
  }

  /** The state of the interpreter outside of a run of the model: temporaries are in
      their slots, double buffered operands have both of theirs in one order or the
      other, boundary constants are in place and no loop is being executed. */
  ghost predicate Rest(m: Model, gs: seq<Group>, mi: nat, base: nat, next: nat, s: State)
    decreases gs, 2
  {
    forall i :: 0 <= i < |gs| ==>
      RestGroup(m, BoundaryReads(m, gs), gs[i], mi, base + CodeSize(gs[..i]), next + ModelCount(gs[..i]), s)
  }

  ghost predicate RestGroup(m: Model, boundary: set<nat>, g: Group, mi: nat, base: nat, next: nat, s: State)
    decreases g, 2
  {
    && Housed(m, boundary, g, mi, s)
    && (!g.Partition? ==> ConstantsInPlace(m, g, mi, s))
    && match g
       case Partition(_, _) => true
       case Branch(o, t, e) =>
         && o < |m.operations| && m.operations[o].placement.InterpretIf?
         && OutputsWritable(m.operations[o].placement.thenModel, next, s)
         && OutputsWritable(m.operations[o].placement.elseModel, next + 1, s)
         && NothingOmitted(m.operations[o].placement.thenModel, next, s)
         && NothingOmitted(m.operations[o].placement.elseModel, next + 1, s)
         && Rest(m.operations[o].placement.thenModel, t, next, base + 1, next + 2, s)
         && Rest(m.operations[o].placement.elseModel, e, next + 1, base + 2 + CodeSize(t), next + 2 + ModelCount(t), s)
       case Loop(o, c, b) =>
         && o < |m.operations| && m.operations[o].placement.InterpretWhile?
         && LoopState(s, base) == OUTSIDE_LOOP
         && LoopBuffers(m.operations[o], next, s)
         && NothingOmitted(m.operations[o].placement.condModel, next, s)
         && NothingOmitted(m.operations[o].placement.bodyModel, next + 1, s)
         && Rest(m.operations[o].placement.condModel, c, next, base + 1, next + 2, s)
         && Rest(m.operations[o].placement.bodyModel, b, next + 1, base + 2 + CodeSize(c), next + 2 + ModelCount(c), s)
  }

  /** Outputs of a branch are where an earlier run put them, if there was one. */
  ghost predicate OutputsWritable(m: Model, mi: nat, s: State) {
    forall x :: x in m.outputIndexes && (mi, x) in s.locations ==> Writable(s.locations[(mi, x)])
  }

  /** Omitted operands have no place. */
  ghost predicate NothingOmitted(m: Model, mi: nat, s: State) {
    forall x :: 0 <= x < |m.operands| && !HasLocation(m.operands[x].lifetime) ==> (mi, x) !in s.locations
  }

  ghost predicate AtHome(k: Key, s: State) {
    k in s.locations && s.locations[k] == Slot(k, false)
  }

  ghost predicate Housed(m: Model, boundary: set<nat>, g: Group, mi: nat, s: State) {
    forall x :: x in HousedBy(m, boundary, g) && IsTemp(m, x) ==> AtHome((mi, x), s)
  }

  ghost predicate ConstantsInPlace(m: Model, g: Group, mi: nat, s: State) {
    forall x :: x in GroupReads(m, g) && x < |m.operands| && IsConstant(m.operands[x].lifetime) ==>
      && (mi, x) in s.locations
      && s.locations[(mi, x)] == Constant((mi, x))
      && Constant((mi, x)) in s.store
      && s.store[Constant((mi, x))] == m.operands[x].value
  }

  ghost predicate DoubleBuffered(k: Key, s: State) {
    && k in s.locations && k in s.locations2
    && exists b :: s.locations[k] == Slot(k, b) && s.locations2[k] == Slot(k, !b)
  }

  ghost predicate LoopBuffers(op: Operation, next: nat, s: State)
    requires op.placement.InterpretWhile?
  {
    && (forall x :: x in op.placement.bodyModel.outputIndexes ==> DoubleBuffered((next + 1, x), s))
    && (forall x :: x in op.placement.condModel.outputIndexes ==> AtHome((next, x), s))
  }

  // ----- what a run may change -----

  ghost predicate SameAt<K, V>(a: map<K, V>, b: map<K, V>, k: K) {
    (k in a <==> k in b) && (k in a ==> a[k] == b[k])
  }

  /** Between the states, only source models lo..hi moved their operands, only
      steps from..to changed their loop state, and only slots of those source
      models and the locations `ws` were written. */
  ghost predicate Changes(lo: nat, hi: nat, from: nat, to: nat, ws: set<Location>, s: State, s': State) {
    && (forall k: Key :: !(lo <= k.0 < hi) ==> SameAt(s.locations, s'.locations, k))
    && (forall k: Key :: !(lo <= k.0 < hi) ==> SameAt(s.locations2, s'.locations2, k))
    && (forall p: nat :: !(from <= p < to) ==> SameAt(s.loops, s'.loops, p))
    && (forall l: Location :: !(l.Slot? && lo <= l.key.0 < hi) && l !in ws ==> SameAt(s.store, s'.store, l))
  }

  lemma ChangesCompose(lo: nat, hi: nat, from: nat, to: nat, ws: set<Location>, s: State, s1: State, s': State)
    requires Changes(lo, hi, from, to, ws, s, s1) && Changes(lo, hi, from, to, ws, s1, s')
    ensures Changes(lo, hi, from, to, ws, s, s')
  {
    forall k: Key | !(lo <= k.0 < hi) ensures SameAt(s.locations, s'.locations, k) && SameAt(s.locations2, s'.locations2, k) {
      assert SameAt(s.locations, s1.locations, k) && SameAt(s1.locations, s'.locations, k);
      assert SameAt(s.locations2, s1.locations2, k) && SameAt(s1.locations2, s'.locations2, k);
    }
    forall p: nat | !(from <= p < to) ensures SameAt(s.loops, s'.loops, p) {
      assert SameAt(s.loops, s1.loops, p) && SameAt(s1.loops, s'.loops, p);
    }
    forall l: Location | !(l.Slot? && lo <= l.key.0 < hi) && l !in ws ensures SameAt(s.store, s'.store, l) {
      assert SameAt(s.store, s1.store, l) && SameAt(s1.store, s'.store, l);
    }
  }

  lemma ChangesWiden(lo: nat, hi: nat, from: nat, to: nat, ws: set<Location>, lo': nat, hi': nat, from': nat, to': nat, ws': set<Location>, s: State, s': State)
    requires Changes(lo, hi, from, to, ws, s, s')
    requires lo' <= lo && hi <= hi' && from' <= from && to <= to'
    requires forall l :: l in ws ==> l in ws' || (l.Slot? && lo' <= l.key.0 < hi')
    ensures Changes(lo', hi', from', to', ws', s, s')
  {
  }

  /** The model stays at rest if nothing of it changed, apart from where its own
      inputs and outputs are. */
  lemma {:induction false} RestIsKept(m: Model, gs: seq<Group>, mi: nat, base: nat, next: nat, s: State, s': State)
    requires Valid(m) && Schedules(gs, m)
    requires Rest(m, gs, mi, base, next, s)
    requires forall k: Key :: next <= k.0 < next + ModelCount(gs) ==> SameAt(s.locations, s'.locations, k) && SameAt(s.locations2, s'.locations2, k)
    requires forall x: nat :: x !in m.inputIndexes && x !in m.outputIndexes ==> SameAt(s.locations, s'.locations, (mi, x))
    requires forall p: nat :: base <= p < base + CodeSize(gs) ==> SameAt(s.loops, s'.loops, p)
    requires forall l: Location :: l.Constant? ==> SameAt(s.store, s'.store, l)
    ensures Rest(m, gs, mi, base, next, s')
    decreases gs, 2
  {
    hide RestGroup, GroupFits, Models.Valid, IsPermutation, Ordered, BoundaryReads;
    forall i | 0 <= i < |gs|
      ensures RestGroup(m, BoundaryReads(m, gs), gs[i], mi, base + CodeSize(gs[..i]), next + ModelCount(gs[..i]), s')
    {
      SizesSplit(gs, i);
      RestGroupIsKept(m, BoundaryReads(m, gs), gs[i], mi, base + CodeSize(gs[..i]), next + ModelCount(gs[..i]), s, s');
    }
  }

  lemma {:induction false} RestGroupIsKept(m: Model, boundary: set<nat>, g: Group, mi: nat, base: nat, next: nat, s: State, s': State)
    requires Valid(m) && GroupFits(g, m)
    requires RestGroup(m, boundary, g, mi, base, next, s)
    requires forall k: Key :: next <= k.0 < next + GroupModels(g) ==> SameAt(s.locations, s'.locations, k) && SameAt(s.locations2, s'.locations2, k)
    requires forall x: nat :: x !in m.inputIndexes && x !in m.outputIndexes ==> SameAt(s.locations, s'.locations, (mi, x))
    requires forall p: nat :: base <= p < base + GroupSize(g) ==> SameAt(s.loops, s'.loops, p)
    requires forall l: Location :: l.Constant? ==> SameAt(s.store, s'.store, l)
    ensures RestGroup(m, boundary, g, mi, base, next, s')
    decreases g, 2
  {
    hide Rest, Schedules, ShallowValid, Housed, ConstantsInPlace, LoopBuffers, NothingOmitted, OutputsWritable, CodeSize, ModelCount;
    assert ShallowValid(m);
    OwnPartIsKept(m, boundary, g, mi, s, s');
    match g {
      case Partition(_, _) =>
      case Branch(o, t, e) =>
        var p := m.operations[o].placement;
        assert ValidPlacement(p);
        assert GroupModels(g) >= 2;
        OutputsWritableIsKept(p.thenModel, next, s, s');
        OutputsWritableIsKept(p.elseModel, next + 1, s, s');
        OmittedIsKept(p.thenModel, next, s, s');
        OmittedIsKept(p.elseModel, next + 1, s, s');
        RestIsKept(p.thenModel, t, next, base + 1, next + 2, s, s');
        RestIsKept(p.elseModel, e, next + 1, base + 2 + CodeSize(t), next + 2 + ModelCount(t), s, s');
      case Loop(o, c, b) =>
        var p := m.operations[o].placement;
        assert ValidPlacement(p);
        assert GroupSize(g) == 3 + CodeSize(c) + CodeSize(b);
        assert SameAt(s.loops, s'.loops, base);
        BuffersAreKept(m.operations[o], next, s, s');
        OmittedIsKept(p.condModel, next, s, s');
        OmittedIsKept(p.bodyModel, next + 1, s, s');
        RestIsKept(p.condModel, c, next, base + 1, next + 2, s, s');
        RestIsKept(p.bodyModel, b, next + 1, base + 2 + CodeSize(c), next + 2 + ModelCount(c), s, s');
    }
  }

  lemma OutputsWritableIsKept(m: Model, mi: nat, s: State, s': State)
    requires OutputsWritable(m, mi, s)
    requires forall k: Key :: k.0 == mi ==> SameAt(s.locations, s'.locations, k)
    ensures OutputsWritable(m, mi, s')
  {
    forall x | x in m.outputIndexes && (mi, x) in s'.locations ensures Writable(s'.locations[(mi, x)]) {
      assert SameAt(s.locations, s'.locations, (mi, x));
    }
  }

  lemma OmittedIsKept(m: Model, mi: nat, s: State, s': State)
    requires NothingOmitted(m, mi, s)
    requires forall x: nat :: x < |m.operands| && !HasLocation(m.operands[x].lifetime) ==> SameAt(s.locations, s'.locations, (mi, x))
    ensures NothingOmitted(m, mi, s')
  {
    forall x: nat | x < |m.operands| && !HasLocation(m.operands[x].lifetime) ensures (mi, x) !in s'.locations {
      assert SameAt(s.locations, s'.locations, (mi, x));
    }
  }

  lemma OwnPartIsKept(m: Model, boundary: set<nat>, g: Group, mi: nat, s: State, s': State)
    requires ShallowValid(m)
    requires Housed(m, boundary, g, mi, s)
    requires !g.Partition? ==> ConstantsInPlace(m, g, mi, s)
    requires forall x: nat :: x !in m.inputIndexes && x !in m.outputIndexes ==> SameAt(s.locations, s'.locations, (mi, x))
    requires forall l: Location :: l.Constant? ==> SameAt(s.store, s'.store, l)
    ensures Housed(m, boundary, g, mi, s')
    ensures !g.Partition? ==> ConstantsInPlace(m, g, mi, s')
  {
    forall x | x in HousedBy(m, boundary, g) && IsTemp(m, x) ensures AtHome((mi, x), s') {
      assert AtHome((mi, x), s);
      assert SameAt(s.locations, s'.locations, (mi, x));
    }
    if !g.Partition? {
      forall x | x in GroupReads(m, g) && x < |m.operands| && IsConstant(m.operands[x].lifetime)
        ensures (mi, x) in s'.locations && s'.locations[(mi, x)] == Constant((mi, x))
        ensures Constant((mi, x)) in s'.store && s'.store[Constant((mi, x))] == m.operands[x].value
      {
        assert SameAt(s.locations, s'.locations, (mi, x));
        assert SameAt(s.store, s'.store, Constant((mi, x)));
      }
    }
  }

  lemma BuffersAreKept(op: Operation, next: nat, s: State, s': State)
    requires op.placement.InterpretWhile?
    requires LoopBuffers(op, next, s)
    requires forall k: Key :: next <= k.0 < next + 2 ==> SameAt(s.locations, s'.locations, k) && SameAt(s.locations2, s'.locations2, k)
    ensures LoopBuffers(op, next, s')
  {
    forall x | x in op.placement.bodyModel.outputIndexes ensures DoubleBuffered((next + 1, x), s') {
      assert DoubleBuffered((next + 1, x), s);
      assert SameAt(s.locations, s'.locations, (next + 1, x)) && SameAt(s.locations2, s'.locations2, (next + 1, x));
    }
    forall x | x in op.placement.condModel.outputIndexes ensures AtHome((next, x), s') {
      assert AtHome((next, x), s);
      assert SameAt(s.locations, s'.locations, (next, x));
    }
  }
}
