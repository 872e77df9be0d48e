/** The interpreter that runs a flat plan one logical step at a time.

    Every operand on a partition boundary has a location. Control flow moves
    locations between operands of different source models instead of data. */
module Machine {
  import opened Options
  import opened Models
  import opened Semantics
  import opened FlatPlans

  /** A place that holds the value of a boundary operand. `Slot(k, b)` is the
      temporary laid out for operand `k`; operands that are double buffered have
      a second one. `Constant(k)` holds a constant that control flow passes on:
      its copy among the temporaries or its place in a memory of the model. */
  datatype Location =
    | Slot(key: Key, second: bool)
    | MainInput(index: nat)
    | MainOutput(index: nat)
    | Constant(key: Key)

  type Locations = map<Key, Location>

  datatype Stage = EvaluateCondition | EvaluateBody

  // No iteration number means that the loop is not being executed.
  datatype WhileState = WhileState(stage: Stage, iteration: Option<nat>)

  const OUTSIDE_LOOP := WhileState(EvaluateCondition, None)

  datatype State = State(
    pc: nat,
    locations: Locations,
    locations2: Locations,
    loops: map<nat, WhileState>,
    store: map<Location, Bytes>)

  datatype Move = To(state: State) | Ended(final: State) | Crashed

  predicate Writable(l: Location) {
    l.Slot? || l.MainOutput?
  }

  function LoopState(s: State, pc: nat): WhileState {
    if pc in s.loops then s.loops[pc] else OUTSIDE_LOOP
  }

  /** The value of a boundary operand, if it has one. */
  function Read(s: State, k: Key): Option<Bytes> {
    if k in s.locations && s.locations[k] in s.store then Some(s.store[s.locations[k]]) else None
  }

  predicate Readable(s: State, ks: seq<Key>) {
    forall k :: k in ks ==> k in s.locations && s.locations[k] in s.store
  }

  function ReadAll(s: State, ks: seq<Key>): (r: seq<Bytes>)
    requires Readable(s, ks)
    ensures |r| == |ks|
    ensures forall i :: 0 <= i < |ks| ==> ks[i] in ks && r[i] == s.store[s.locations[ks[i]]]
  {
    seq(|ks|, i requires 0 <= i < |ks| => assert ks[i] in ks; s.store[s.locations[ks[i]]])
  }

  predicate AllWritable(ls: Locations, ks: seq<Key>) {
    forall k :: k in ks ==> k in ls && Writable(ls[k])
  }

  function Locate(ls: Locations, ks: seq<Key>): (r: seq<Location>)
    requires forall k :: k in ks ==> k in ls
    ensures |r| == |ks|
    ensures forall i :: 0 <= i < |ks| ==> ks[i] in ks && r[i] == ls[ks[i]]
  {
    seq(|ks|, i requires 0 <= i < |ks| => assert ks[i] in ks; ls[ks[i]])
  }

  // Gives `inner` the location of `outer`.
  function SetInput(ls: Locations, outer: Key, inner: Key): Option<Locations> {
    var erased := ls - {inner};
    if outer in erased then Some(erased[inner := erased[outer]]) else None
  }

  // As SetInput, but only temporaries and main model outputs are outputs. An inner
  // operand located elsewhere would end up with two locations.
  function SetOutput(ls: Locations, outer: Key, inner: Key): Option<Locations> {
    if inner in ls && !Writable(ls[inner]) then None
    else
      var erased := ls - {inner};
      if outer in erased && Writable(erased[outer]) then Some(erased[inner := erased[outer]]) else None
  }

  function SetInputs(ls: Locations, outers: seq<Key>, inners: seq<Key>): Option<Locations>
    decreases |outers|
  {
    if outers == [] && inners == [] then Some(ls)
    else if outers == [] || inners == [] then None
    else
      match SetInput(ls, outers[0], inners[0])
      case Some(ls') => SetInputs(ls', outers[1..], inners[1..])
      case None => None
  }

  function SetOutputs(ls: Locations, outers: seq<Key>, inners: seq<Key>): Option<Locations>
    decreases |outers|
  {
    if outers == [] && inners == [] then Some(ls)
    else if outers == [] || inners == [] then None
    else
      match SetOutput(ls, outers[0], inners[0])
      case Some(ls') => SetOutputs(ls', outers[1..], inners[1..])
      case None => None
  }

  /** Where input i of the loop's condition comes from in an iteration. */
  function Source(w: LogicalStep, iteration: nat, i: nat): Key
    requires w.WhileStep? && i < |w.outerInputs|
  {
    if iteration == 0 || i >= |w.bodyOutputs| then w.outerInputs[i] else w.bodyOutputs[i]
  }

  function Sources(w: LogicalStep, iteration: nat): (r: seq<Key>)
    requires w.WhileStep?
    ensures |r| == |w.outerInputs|
    ensures forall i :: 0 <= i < |r| ==> r[i] == Source(w, iteration, i)
  {
    seq(|w.outerInputs|, i requires 0 <= i < |w.outerInputs| => Source(w, iteration, i))
  }

  /** `a` with the operands `ks` located where `b` has them. */
  function Exchange(a: Locations, b: Locations, ks: seq<Key>): (r: Locations)
    requires forall k :: k in ks ==> k in b
    ensures r.Keys == a.Keys
    ensures forall k :: k in a ==> r[k] == if k in ks then b[k] else a[k]
  {
    map k | k in a :: if k in ks then b[k] else a[k]
  }

  /** Copies values one after the other. */
  function CopyAll(store: map<Location, Bytes>, from: seq<Location>, to: seq<Location>): Option<map<Location, Bytes>>
    requires |from| == |to|
    decreases |from|
  {
    if from == [] then Some(store)
    else if from[0] in store then CopyAll(store[to[0] := store[from[0]]], from[1..], to[1..])
    else None
  }

  // ----- one logical step -----

  function Execute(k: Kernels, step: LogicalStep, s: State): Move
    requires step.ExecutionStep?
  {
    var ins, outs := Keys(step.sourceModelIndex, step.stepInputs), Keys(step.sourceModelIndex, step.stepOutputs);
    if !Readable(s, ins) || !AllWritable(s.locations, outs) then Crashed
    else
      match RunOperations(k, 0, step.operations, Bind(Constants(step.model), step.stepInputs, ReadAll(s, ins)))
      case Failed => Crashed
      case OutOfFuel => Crashed
      case Done(env) =>
        if !Knows(env, step.stepOutputs) then Crashed
        else
          To(s.(pc := s.pc + 1,
                store := Bind(s.store, Locate(s.locations, outs), Get(env, step.stepOutputs))))
  }

  function TakeBranch(step: LogicalStep, s: State): Move
    requires step.IfStep?
  {
    match Read(s, step.condition)
    case None => Crashed
    case Some(c) =>
      var taken := IsTrue(c);
      match SetInputs(s.locations, step.outerInputs, if taken then step.thenInputs else step.elseInputs)
      case None => Crashed
      case Some(ls) =>
        match SetOutputs(ls, step.outerOutputs, if taken then step.thenOutputs else step.elseOutputs)
        case None => Crashed
        case Some(ls') =>
          To(s.(pc := if taken then step.thenStepIndex else step.elseStepIndex, locations := ls'))
  }

  function EnterCondition(step: LogicalStep, s: State): Move
    requires step.WhileStep?
  {
    var state := LoopState(s, s.pc);
    var iteration := if state.iteration.None? then 0 else state.iteration.value + 1;
    if |step.condInputs| < |step.bodyOutputs| then Crashed
    else
      match SetInputs(s.locations, Sources(step, iteration), step.condInputs)
      case None => Crashed
      case Some(ls) =>
        To(s.(pc := step.condStepIndex, locations := ls,
              loops := s.loops[s.pc := WhileState(EvaluateBody, Some(iteration))]))
  }

  function EnterBodyOrExit(step: LogicalStep, s: State): Move
    requires step.WhileStep?
  {
    match Read(s, step.condOutput)
    case None => Crashed
    case Some(c) => if IsTrue(c) then EnterBody(step, s) else ExitLoop(step, s)
  }

  function EnterBody(step: LogicalStep, s: State): Move
    requires step.WhileStep?
  {
    var state := LoopState(s, s.pc);
    match SetInputs(s.locations, step.condInputs, step.bodyInputs)
    case None => Crashed
    case Some(ls) =>
      var s' := s.(pc := step.bodyStepIndex, locations := ls,
                   loops := s.loops[s.pc := state.(stage := EvaluateCondition)]);
      if state.iteration == Some(0) then To(s')
      else if forall k :: k in step.bodyOutputs ==> k in ls && ls[k].Slot? && k in s.locations2 then
        To(s'.(locations := Exchange(ls, s.locations2, step.bodyOutputs),
               locations2 := Exchange(s.locations2, ls, step.bodyOutputs)))
      else Crashed
  }

  function ExitLoop(step: LogicalStep, s: State): Move
    requires step.WhileStep?
  {
    if |step.outerOutputs| > |step.bodyOutputs| || |step.outerOutputs| > |step.condInputs|
       || !AllWritable(s.locations, step.outerOutputs)
       || !(forall k :: k in step.condInputs[..|step.outerOutputs|] ==> k in s.locations)
    then Crashed
    else
      match CopyAll(s.store, Locate(s.locations, step.condInputs[..|step.outerOutputs|]),
                    Locate(s.locations, step.outerOutputs))
      case None => Crashed
      case Some(store) =>
        To(s.(pc := step.exitStepIndex, store := store, loops := s.loops[s.pc := OUTSIDE_LOOP]))
  }

  function MicroStep(k: Kernels, code: seq<LogicalStep>, s: State): Move {
    if s.pc == |code| then Ended(s)
    else if s.pc > |code| then Crashed
    else
      var step := code[s.pc];
      match step
      case ExecutionStep(_, _, _, _, _) => Execute(k, step, s)
      case IfStep(_, _, _, _, _, _, _, _, _) => TakeBranch(step, s)
      case WhileStep(_, _, _, _, _, _, _, _, _) =>
        if LoopState(s, s.pc).stage == EvaluateCondition then EnterCondition(step, s)
        else EnterBodyOrExit(step, s)
      case GotoStep(target) => To(s.(pc := target))
  }

  function Steps(k: Kernels, code: seq<LogicalStep>, s: State, n: nat): Move
    decreases n
  {
    if n == 0 then To(s)
    else
      match MicroStep(k, code, s)
      case To(s') => Steps(k, code, s', n - 1)
      case Ended(f) => Ended(f)
      case Crashed => Crashed
  }

  lemma {:induction false} StepsCompose(k: Kernels, code: seq<LogicalStep>, s: State, a: nat, s1: State, b: nat)
    requires Steps(k, code, s, a) == To(s1)
    ensures Steps(k, code, s, a + b) == Steps(k, code, s1, b)
    decreases a
  {
    if a > 0 {
      StepsCompose(k, code, MicroStep(k, code, s).state, a - 1, s1, b);
    }
  }

  /** A run that is still going has been going all along, and one that stopped
      stays as it is. */
  lemma {:induction false} StepsAreStable(k: Kernels, code: seq<LogicalStep>, s: State, a: nat, b: nat)
    requires a <= b
    ensures !Steps(k, code, s, a).To? ==> Steps(k, code, s, b) == Steps(k, code, s, a)
    ensures Steps(k, code, s, b).To? ==> Steps(k, code, s, a).To?
    decreases a
  {
    if a > 0 {
      match MicroStep(k, code, s) {
        case To(s') => StepsAreStable(k, code, s', a - 1, b - 1);
        case _ =>
      }
    }
  }
}
