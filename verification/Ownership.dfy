/** Who may have which place: an operand that steps write is only ever where it can be
    written. So a run fails nowhere for want of a place that the controller would not miss. */
module Ownership {
  import opened Models
  import opened Semantics
  import opened FlatPlans
  import opened Machine

  /** The operands that a step writes, or that it gives the place of an output. */
  ghost function OutKeys(step: LogicalStep): set<Key> {
    match step
    case ExecutionStep(mi, _, _, _, outs) => AsSet(Keys(mi, outs))
    case IfStep(_, _, _, _, outs, _, thenOuts, _, elseOuts) => AsSet(outs) + AsSet(thenOuts) + AsSet(elseOuts)
    case WhileStep(_, _, _, _, outs, _, condOutput, _, bodyOutputs) => AsSet(outs) + AsSet(bodyOutputs) + {condOutput}
    case GotoStep(_) => {}
  }

  /** The operands that a step gives the place of an input. */
  ghost function InKeys(step: LogicalStep): set<Key> {
    match step
    case ExecutionStep(_, _, _, _, _) => {}
    case IfStep(_, _, _, _, _, thenIns, _, elseIns, _) => AsSet(thenIns) + AsSet(elseIns)
    case WhileStep(_, _, _, _, _, condIns, _, bodyIns, _) => AsSet(condIns) + AsSet(bodyIns)
    case GotoStep(_) => {}
  }

  ghost predicate Separated(code: seq<LogicalStep>) {
    forall p, q :: 0 <= p < |code| && 0 <= q < |code| ==> OutKeys(code[p]) !! InKeys(code[q])
  }

  ghost predicate WritableAt(ls: Locations, ks: set<Key>) {
    forall k :: k in ks && k in ls ==> Writable(ls[k])
  }

  ghost predicate AllSlots(ls: Locations) {
    forall k :: k in ls ==> ls[k].Slot?
  }

  ghost predicate Owned(code: seq<LogicalStep>, s: State) {
    (forall p :: 0 <= p < |code| ==> WritableAt(s.locations, OutKeys(code[p]))) && AllSlots(s.locations2)
  }

  // ----- steps keep it -----

  lemma {:induction false} InputsKeepWritable(ls: Locations, outers: seq<Key>, inners: seq<Key>, ks: set<Key>)
    requires SetInputs(ls, outers, inners).Some? && WritableAt(ls, ks) && AsSet(inners) !! ks
    ensures WritableAt(SetInputs(ls, outers, inners).value, ks)
    decreases |outers|
  {
    if outers != [] {
      assert inners[0] in AsSet(inners) && AsSet(inners[1..]) <= AsSet(inners);
      InputsKeepWritable(SetInput(ls, outers[0], inners[0]).value, outers[1..], inners[1..], ks);
    }
  }

  lemma {:induction false} OutputsKeepWritable(ls: Locations, outers: seq<Key>, inners: seq<Key>, ks: set<Key>)
    requires SetOutputs(ls, outers, inners).Some? && WritableAt(ls, ks)
    ensures WritableAt(SetOutputs(ls, outers, inners).value, ks)
    decreases |outers|
  {
    if outers != [] {
      OutputsKeepWritable(SetOutput(ls, outers[0], inners[0]).value, outers[1..], inners[1..], ks);
    }
  }

  lemma StepKeepsOwned(k: Kernels, code: seq<LogicalStep>, s: State)
    requires Separated(code) && Owned(code, s) && MicroStep(k, code, s).To?
    ensures Owned(code, MicroStep(k, code, s).state)
  {
    var s' := MicroStep(k, code, s).state;
    forall p | 0 <= p < |code| ensures WritableAt(s'.locations, OutKeys(code[p])) {
      StepKeepsWritable(k, code, s, p);
    }
    StepKeepsSlots(k, code, s);
    hide MicroStep, OutKeys, WritableAt, AllSlots;
  }

  lemma StepKeepsSlots(k: Kernels, code: seq<LogicalStep>, s: State)
    requires AllSlots(s.locations2) && MicroStep(k, code, s).To?
    ensures AllSlots(MicroStep(k, code, s).state.locations2)
  {
    hide SetInputs, SetOutputs, Sources, Read, CopyAll, Locate, AllWritable, RunOperations, Bind, Constants, ReadAll, Readable, Keys, LoopState;
  }

  lemma StepKeepsWritable(k: Kernels, code: seq<LogicalStep>, s: State, p: nat)
    requires Separated(code) && Owned(code, s) && MicroStep(k, code, s).To? && p < |code|
    ensures WritableAt(MicroStep(k, code, s).state.locations, OutKeys(code[p]))
  {
    var s' := MicroStep(k, code, s).state;
    var ks := OutKeys(code[p]);
    assert s.pc < |code| && WritableAt(s.locations, ks) && OutKeys(code[p]) !! InKeys(code[s.pc]);
    hide Separated, Owned, OutKeys, SetInputs, SetOutputs, Sources, Read, CopyAll, Locate, AllWritable, RunOperations, Bind, Constants, ReadAll, Readable, Keys, LoopState;
    match code[s.pc] {
      case IfStep(_, _, _, outerIns, outerOuts, thenIns, thenOuts, elseIns, elseOuts) =>
        var c := IsTrue(Read(s, code[s.pc].condition).value);
        var ins, outs := if c then thenIns else elseIns, if c then thenOuts else elseOuts;
        assert AsSet(ins) <= InKeys(code[s.pc]);
        var ls := SetInputs(s.locations, outerIns, ins).value;
        hide WritableAt, InKeys;
        InputsKeepWritable(s.locations, outerIns, ins, ks);
        OutputsKeepWritable(ls, outerOuts, outs, ks);
      case WhileStep(_, _, _, _, _, condIns, _, bodyIns, bodyOuts) =>
        assert AsSet(condIns) <= InKeys(code[s.pc]) && AsSet(bodyIns) <= InKeys(code[s.pc]);
        LoopKeepsWritable(k, code, s, ks);
      case _ =>
    }
  }

  lemma LoopKeepsWritable(k: Kernels, code: seq<LogicalStep>, s: State, ks: set<Key>)
    requires s.pc < |code| && code[s.pc].WhileStep? && MicroStep(k, code, s).To? && AllSlots(s.locations2)
    requires WritableAt(s.locations, ks) && ks !! AsSet(code[s.pc].condInputs) && ks !! AsSet(code[s.pc].bodyInputs)
    ensures WritableAt(MicroStep(k, code, s).state.locations, ks)
  {
    var w := code[s.pc];
    hide SetInputs, Sources, Read, CopyAll, Locate, AllWritable;
    var state := LoopState(s, s.pc);
    if state.stage == EvaluateCondition {
      InputsKeepWritable(s.locations, Sources(w, if state.iteration.None? then 0 else state.iteration.value + 1), w.condInputs, ks);
    } else if IsTrue(Read(s, w.condOutput).value) {
      InputsKeepWritable(s.locations, w.condInputs, w.bodyInputs, ks);
    }
  }

  lemma {:induction false} StepsKeepOwned(k: Kernels, code: seq<LogicalStep>, s: State, n: nat)
    requires Separated(code) && Owned(code, s)
    ensures Steps(k, code, s, n).To? ==> Owned(code, Steps(k, code, s, n).state)
    decreases n
  {
    hide MicroStep, Separated, Owned;
    if n > 0 && MicroStep(k, code, s).To? {
      StepKeepsOwned(k, code, s);
      StepsKeepOwned(k, code, MicroStep(k, code, s).state, n - 1);
    }
  }
}
