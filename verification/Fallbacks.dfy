/** Execution of a plan with fallback to the CPU: a failed step is tried once more on the
    CPU, then the whole model; the result is reported once. */
module Fallbacks {
  import opened Options
  import opened Sequences

  datatype Code =
    | NO_ERROR
    | OUT_OF_MEMORY
    | INCOMPLETE
    | UNEXPECTED_NULL
    | BAD_DATA
    | OP_FAILED
    | BAD_STATE
    | UNMAPPABLE
    | OUTPUT_INSUFFICIENT_SIZE
    | UNAVAILABLE_DEVICE
    | MISSED_DEADLINE_TRANSIENT
    | MISSED_DEADLINE_PERSISTENT
    | RESOURCE_EXHAUSTED_TRANSIENT
    | RESOURCE_EXHAUSTED_PERSISTENT
    | DEAD_OBJECT
    | OTHER_CODE(code: int)

  datatype Status =
    | NONE
    | DEVICE_UNAVAILABLE
    | GENERAL_FAILURE
    | INSUFFICIENT_SIZE
    | INVALID_ARGUMENT
    | MISSED_TRANSIENT
    | MISSED_PERSISTENT
    | EXHAUSTED_TRANSIENT
    | EXHAUSTED_PERSISTENT

  // The status that is reported for a result code.
  function StatusOf(code: Code): Status {
    match code
    case NO_ERROR => NONE
    case BAD_DATA => INVALID_ARGUMENT
    case UNEXPECTED_NULL => INVALID_ARGUMENT
    case OUTPUT_INSUFFICIENT_SIZE => INSUFFICIENT_SIZE
    case UNAVAILABLE_DEVICE => DEVICE_UNAVAILABLE
    case MISSED_DEADLINE_TRANSIENT => MISSED_TRANSIENT
    case MISSED_DEADLINE_PERSISTENT => MISSED_PERSISTENT
    case RESOURCE_EXHAUSTED_TRANSIENT => EXHAUSTED_TRANSIENT
    case RESOURCE_EXHAUSTED_PERSISTENT => EXHAUSTED_PERSISTENT
    case _ => GENERAL_FAILURE
  }

  // The result code that the caller gets for a status.
  function CodeOf(status: Status): Code {
    match status
    case NONE => NO_ERROR
    case DEVICE_UNAVAILABLE => UNAVAILABLE_DEVICE
    case GENERAL_FAILURE => OP_FAILED
    case INSUFFICIENT_SIZE => OUTPUT_INSUFFICIENT_SIZE
    case INVALID_ARGUMENT => BAD_DATA
    case MISSED_TRANSIENT => MISSED_DEADLINE_TRANSIENT
    case MISSED_PERSISTENT => MISSED_DEADLINE_PERSISTENT
    case EXHAUSTED_TRANSIENT => RESOURCE_EXHAUSTED_TRANSIENT
    case EXHAUSTED_PERSISTENT => RESOURCE_EXHAUSTED_PERSISTENT
  }

  /** Statuses survive the way to the caller; codes do but for those that statuses lump together. */
  lemma CodesRoundTrip(status: Status, code: Code)
    ensures StatusOf(CodeOf(status)) == status
    ensures CodeOf(StatusOf(code)) == code <==>
              !code.UNEXPECTED_NULL? && !code.BAD_STATE? && !code.INCOMPLETE? && !code.OUT_OF_MEMORY? && !code.UNMAPPABLE? && !code.DEAD_OBJECT? && !code.OTHER_CODE?
    ensures StatusOf(code) == NONE <==> code == NO_ERROR
    ensures StatusOf(code) == INVALID_ARGUMENT <==> code == BAD_DATA || code == UNEXPECTED_NULL
    ensures code == UNMAPPABLE || code == OUT_OF_MEMORY || code == DEAD_OBJECT || code.OTHER_CODE? ==> StatusOf(code) == GENERAL_FAILURE
    ensures code == OUTPUT_INSUFFICIENT_SIZE <==> StatusOf(code) == INSUFFICIENT_SIZE
    ensures code == UNAVAILABLE_DEVICE <==> StatusOf(code) == DEVICE_UNAVAILABLE
    ensures code == MISSED_DEADLINE_TRANSIENT <==> StatusOf(code) == MISSED_TRANSIENT
    ensures code == MISSED_DEADLINE_PERSISTENT <==> StatusOf(code) == MISSED_PERSISTENT
    ensures code == RESOURCE_EXHAUSTED_TRANSIENT <==> StatusOf(code) == EXHAUSTED_TRANSIENT
    ensures code == RESOURCE_EXHAUSTED_PERSISTENT <==> StatusOf(code) == EXHAUSTED_PERSISTENT
  {
  }

  // ----- shapes -----

  // No dimensions at all stand for an unknown rank, and 0 for an unknown dimension.
  datatype OutputShape = OutputShape(dimensions: seq<nat>, isSufficient: bool)

  /** `to` says at least as much about a shape as `from`. */
  predicate Specifies(from: seq<nat>, to: seq<nat>) {
    from == [] || (|from| == |to| && forall i :: 0 <= i < |from| ==> from[i] == to[i] || from[i] == 0)
  }

  lemma SpecifiesMore(a: seq<nat>, b: seq<nat>, c: seq<nat>)
    requires Specifies(a, b) && Specifies(b, c)
    ensures Specifies(a, c)
  {
  }

  method IsUpdatable(to: seq<nat>, from: seq<nat>) returns (ok: bool)
    ensures ok <==> Specifies(to, from)
    ensures ok <==> to == [] || (|to| == |from| && forall i :: 0 <= i < |to| ==> to[i] == 0 || to[i] == from[i])
  {
    if |to| == 0 { return true; }
    if |to| != |from| { return false; }
    for i := 0 to |to|
      invariant forall j :: 0 <= j < i ==> to[j] == from[j] || to[j] == 0
    {
      if to[i] != from[i] && to[i] != 0 { return false; }
    }
    ok := true;
  }

  /** All shapes say at least as much as they did. */
  ghost predicate AllSpecify(from: seq<OutputShape>, to: seq<OutputShape>) {
    |from| == |to| && forall i :: 0 <= i < |from| ==> Specifies(from[i].dimensions, to[i].dimensions)
  }

  lemma AllSpecifySame(a: seq<OutputShape>)
    ensures AllSpecify(a, a)
  {
  }

  lemma AllSpecifyMore(a: seq<OutputShape>, b: seq<OutputShape>, c: seq<OutputShape>)
    requires AllSpecify(a, b) && AllSpecify(b, c)
    ensures AllSpecify(a, c)
  {
    forall i | 0 <= i < |a| ensures Specifies(a[i].dimensions, c[i].dimensions) {
      SpecifiesMore(a[i].dimensions, b[i].dimensions, c[i].dimensions);
    }
  }

  ghost predicate Different(m: seq<nat>) {
    forall i, j :: 0 <= i < j < |m| ==> m[i] != m[j]
  }

  // ----- updating shapes -----

  // Puts the shapes of a step, from the i-th on, where the mapping says, as long as they
  // are more specific.
  function Placed(from: seq<OutputShape>, mapping: seq<nat>, to: seq<OutputShape>, i: nat): (r: (bool, seq<OutputShape>))
    requires i <= |mapping| <= |from|
    ensures |r.1| == |to|
    decreases |mapping| - i
  {
    if i == |mapping| then (true, to)
    else if mapping[i] >= |to| || !Specifies(to[mapping[i]].dimensions, from[i].dimensions) then (false, to)
    else Placed(from, mapping, to[mapping[i] := from[i]], i + 1)
  }

  function Identity(n: nat): (r: seq<nat>)
    ensures |r| == n && forall i :: 0 <= i < n ==> r[i] == i
  {
    seq(n, i requires 0 <= i => i)
  }

  // What a step's shapes make of those of the main model. A failure keeps what has been
  // put so far.
  function Updated(from: seq<OutputShape>, mapping: Option<seq<nat>>, to: seq<OutputShape>): (r: (bool, seq<OutputShape>))
    ensures |r.1| == |to|
  {
    if from == [] then (true, to)
    else
      match mapping
      case None => if |from| != |to| then (false, to) else Placed(from, Identity(|from|), to, 0)
      case Some(m) => if |m| > |from| then (false, to) else Placed(from, m, to, 0)
  }

  lemma {:induction false} PlacedSpecifies(from: seq<OutputShape>, mapping: seq<nat>, to: seq<OutputShape>, i: nat)
    requires i <= |mapping| <= |from|
    ensures AllSpecify(to, Placed(from, mapping, to, i).1)
    decreases |mapping| - i
  {
    AllSpecifySame(to);
    if i < |mapping| && mapping[i] < |to| && Specifies(to[mapping[i]].dimensions, from[i].dimensions) {
      var next := to[mapping[i] := from[i]];
      assert AllSpecify(to, next);
      PlacedSpecifies(from, mapping, next, i + 1);
      AllSpecifyMore(to, next, Placed(from, mapping, next, i + 1).1);
    }
  }

  lemma {:induction false} PlacedElsewhere(from: seq<OutputShape>, mapping: seq<nat>, to: seq<OutputShape>, i: nat)
    requires i <= |mapping| <= |from|
    ensures forall x :: 0 <= x < |to| && x !in mapping[i..] ==> Placed(from, mapping, to, i).1[x] == to[x]
    decreases |mapping| - i
  {
    hide Specifies;
    if i < |mapping| && mapping[i] < |to| {
      PlacedElsewhere(from, mapping, to[mapping[i] := from[i]], i + 1);
      assert mapping[i..] == [mapping[i]] + mapping[i + 1..];
    }
  }

  lemma {:induction false} PlacedIfSpecific(from: seq<OutputShape>, mapping: seq<nat>, to: seq<OutputShape>, i: nat)
    requires i <= |mapping| <= |from| && Different(mapping)
    ensures Placed(from, mapping, to, i).0 <==> forall j :: i <= j < |mapping| ==> mapping[j] < |to| && Specifies(to[mapping[j]].dimensions, from[j].dimensions)
    decreases |mapping| - i
  {
    hide Specifies;
    if i < |mapping| && mapping[i] < |to| && Specifies(to[mapping[i]].dimensions, from[i].dimensions) {
      var next := to[mapping[i] := from[i]];
      PlacedIfSpecific(from, mapping, next, i + 1);
      assert forall j :: i < j < |mapping| && mapping[j] < |to| ==> next[mapping[j]] == to[mapping[j]];
    }
  }

  lemma {:induction false} PlacedThere(from: seq<OutputShape>, mapping: seq<nat>, to: seq<OutputShape>, i: nat)
    requires i <= |mapping| <= |from| && Different(mapping) && Placed(from, mapping, to, i).0
    ensures forall j :: i <= j < |mapping| ==> mapping[j] < |to| && Placed(from, mapping, to, i).1[mapping[j]] == from[j]
    decreases |mapping| - i
  {
    hide Specifies;
    if i < |mapping| {
      var next := to[mapping[i] := from[i]];
      PlacedThere(from, mapping, next, i + 1);
      PlacedElsewhere(from, mapping, next, i + 1);
      assert mapping[i] !in mapping[i + 1..];
    }
  }

  /** Shapes can be placed exactly if each is more specific than the one in its place. */
  lemma PlacedExactly(from: seq<OutputShape>, mapping: seq<nat>, to: seq<OutputShape>, i: nat)
    requires i <= |mapping| <= |from| && Different(mapping)
    ensures var (ok, shapes) := Placed(from, mapping, to, i);
            && (ok <==> forall j :: i <= j < |mapping| ==> mapping[j] < |to| && Specifies(to[mapping[j]].dimensions, from[j].dimensions))
            && (ok ==> forall j :: i <= j < |mapping| ==> mapping[j] < |shapes| && shapes[mapping[j]] == from[j])
            && (forall x :: 0 <= x < |to| && x !in mapping[i..] ==> shapes[x] == to[x])
  {
    PlacedElsewhere(from, mapping, to, i);
    PlacedIfSpecific(from, mapping, to, i);
    if Placed(from, mapping, to, i).0 { PlacedThere(from, mapping, to, i); }
    hide Placed, Specifies;
  }

  /** The step's shapes only make those of the main model more specific. They are taken
      over exactly if all of them are more specific than the ones in their places. */
  lemma UpdateIsExact(from: seq<OutputShape>, mapping: Option<seq<nat>>, to: seq<OutputShape>)
    requires mapping.Some? ==> Different(mapping.value)
    ensures AllSpecify(to, Updated(from, mapping, to).1)
    ensures mapping.None? && from != [] ==>
              && (Updated(from, mapping, to).0 <==> AllSpecify(to, from))
              && (Updated(from, mapping, to).0 ==> Updated(from, mapping, to).1 == from)
    ensures mapping.Some? && from != [] ==>
              var m := mapping.value;
              && (Updated(from, mapping, to).0 <==>
                    |m| <= |from| && forall j :: 0 <= j < |m| ==> m[j] < |to| && Specifies(to[m[j]].dimensions, from[j].dimensions))
              && (Updated(from, mapping, to).0 ==> forall j :: 0 <= j < |m| ==> Updated(from, mapping, to).1[m[j]] == from[j])
              && (forall x :: 0 <= x < |to| && x !in m ==> Updated(from, mapping, to).1[x] == to[x])
  {
    AllSpecifySame(to);
    hide Placed, Specifies;
    match mapping {
      case None =>
        var m := Identity(|from|);
        if |from| == |to| {
          PlacedSpecifies(from, m, to, 0);
          PlacedExactly(from, m, to, 0);
          var shapes := Placed(from, m, to, 0).1;
          if Placed(from, m, to, 0).0 {
            assert forall j :: 0 <= j < |from| ==> shapes[m[j]] == from[j];
            assert shapes == from;
          }
        }
      case Some(m) =>
        if |m| <= |from| {
          PlacedSpecifies(from, m, to, 0);
          PlacedExactly(from, m, to, 0);
          assert m[0..] == m;
        }
    }
  }

  lemma UpdateSpecifies(from: seq<OutputShape>, mapping: Option<seq<nat>>, to: seq<OutputShape>)
    ensures AllSpecify(to, Updated(from, mapping, to).1)
  {
    AllSpecifySame(to);
    hide Placed, AllSpecify;
    match mapping {
      case None => if |from| == |to| { PlacedSpecifies(from, Identity(|from|), to, 0); }
      case Some(m) => if |m| <= |from| { PlacedSpecifies(from, m, to, 0); }
    }
  }

  // Updates the shapes of main model outputs from those of a step. The mapping tells
  // which outputs they are; without one they are all of them.
  method UpdateOutputShapes(from: seq<OutputShape>, mapping: Option<seq<nat>>, to: seq<OutputShape>) returns (ok: bool, shapes: seq<OutputShape>)
    ensures (ok, shapes) == Updated(from, mapping, to)
  {
    shapes := to;
    if |from| == 0 { return true, shapes; }
    match mapping {
      case None =>
        if |from| != |to| { return false, shapes; }
        for i := 0 to |from|
          invariant |shapes| == |to| && Placed(from, Identity(|from|), shapes, i) == Placed(from, Identity(|from|), to, 0)
        {
          var updatable := IsUpdatable(shapes[i].dimensions, from[i].dimensions);
          if !updatable { return false, shapes; }
          shapes := shapes[i := from[i]];
        }
      case Some(m) =>
        if |m| > |from| { return false, shapes; }
        for i := 0 to |m|
          invariant |shapes| == |to| && Placed(from, m, shapes, i) == Placed(from, m, to, 0)
        {
          if m[i] >= |shapes| { return false, shapes; }
          var updatable := IsUpdatable(shapes[m[i]].dimensions, from[i].dimensions);
          if !updatable { return false, shapes; }
          shapes := shapes[m[i] := from[i]];
        }
    }
    ok := true;
  }

  // ----- the execution that is reported to -----

  // How the environment answers when an execution finishes: whether the size of an output
  // overflows, and whether the memories accept the dimensions of the outputs.
  datatype Answers = Answers(overflows: seq<OutputShape> -> seq<bool>, memoriesUpdated: seq<OutputShape> -> bool)

  ghost predicate AnswersAll(answers: Answers) {
    forall shapes :: |answers.overflows(shapes)| == |shapes|
  }

  /** Reported shapes can be taken over: they are more specific and no size overflows. */
  ghost predicate CanTake(answers: Answers, outputs: seq<OutputShape>, shapes: seq<OutputShape>)
    requires AnswersAll(answers)
  {
    shapes == [] || (AllSpecify(outputs, shapes) && forall i :: 0 <= i < |shapes| ==> !answers.overflows(shapes)[i])
  }

  // The outputs after the end has been recorded.
  ghost function OutputsAfter(answers: Answers, outputs: seq<OutputShape>, shapes: seq<OutputShape>): seq<OutputShape>
    requires AnswersAll(answers)
  {
    if shapes != [] && CanTake(answers, outputs, shapes) then shapes else outputs
  }

  // The status after the end has been recorded.
  ghost function StatusAfter(answers: Answers, outputs: seq<OutputShape>, status: Status, shapes: seq<OutputShape>): Status
    requires AnswersAll(answers)
  {
    if CanTake(answers, outputs, shapes) && answers.memoriesUpdated(OutputsAfter(answers, outputs, shapes)) then status else GENERAL_FAILURE
  }

  datatype Completion = COMPLETED | COMPLETED_INSUFFICIENT_SIZE | COMPLETED_OTHER_ERROR

  function CompletionOf(status: Status): Completion {
    match CodeOf(status)
    case NO_ERROR => COMPLETED
    case OUTPUT_INSUFFICIENT_SIZE => COMPLETED_INSUFFICIENT_SIZE
    case _ => COMPLETED_OTHER_ERROR
  }

  class ExecutionBuilder {
    var outputs: seq<OutputShape>
    var started: bool
    var finished: bool
    var completion: Completion

    constructor (outputs: seq<OutputShape>)
      ensures this.outputs == outputs && !started && !finished
    {
      this.outputs, started, finished, completion := outputs, false, false, COMPLETED_OTHER_ERROR;
    }

    // Every output starts as sufficient.
    method GetInitialOutputShapes() returns (shapes: seq<OutputShape>)
      ensures shapes == Initial(outputs)
    {
      shapes := [];
      for i := 0 to |outputs|
        invariant |shapes| == i && forall j :: 0 <= j < i ==> shapes[j] == OutputShape(outputs[j].dimensions, true)
      {
        shapes := shapes + [OutputShape(outputs[i].dimensions, true)];
      }
    }

    // Takes over the reported shapes if all of them can be.
    method UpdateOutputs(shapes: seq<OutputShape>, answers: Answers) returns (ok: bool)
      requires AnswersAll(answers)
      modifies this`outputs
      ensures ok <==> CanTake(answers, old(outputs), shapes)
      ensures outputs == OutputsAfter(answers, old(outputs), shapes)
      ensures ok <==> shapes == [] || (|shapes| == |old(outputs)| &&
                        forall i :: 0 <= i < |shapes| ==> Specifies(old(outputs)[i].dimensions, shapes[i].dimensions) && !answers.overflows(shapes)[i])
      ensures outputs == if ok && shapes != [] then shapes else old(outputs)
    {
      if |shapes| == 0 { return true; }
      if |shapes| != |outputs| { return false; }
      for i := 0 to |shapes|
        invariant outputs == old(outputs)
        invariant forall j :: 0 <= j < i ==> Specifies(outputs[j].dimensions, shapes[j].dimensions) && !answers.overflows(shapes)[j]
      {
        var updatable := IsUpdatable(outputs[i].dimensions, shapes[i].dimensions);
        if !updatable || answers.overflows(shapes)[i] { return false; }
      }
      outputs := shapes;
      ok := true;
    }

    /** Records the end of the execution. The status stays exactly if the shapes are taken
        over and the memories accept them. The runtime stops the process if this happens twice. */
    method FinishWithoutSyncFence(status: Status, shapes: seq<OutputShape>, answers: Answers) returns (r: Status)
      requires !finished && AnswersAll(answers)
      modifies this
      ensures finished && completion == CompletionOf(r) && started == old(started)
      ensures outputs == OutputsAfter(answers, old(outputs), shapes)
      ensures r == StatusAfter(answers, old(outputs), status, shapes)
      ensures outputs == shapes || outputs == old(outputs)
      ensures r == status || r == GENERAL_FAILURE
      ensures r == GENERAL_FAILURE <==>
                || status == GENERAL_FAILURE || !answers.memoriesUpdated(outputs)
                || (shapes != [] && (|shapes| != |old(outputs)| ||
                      exists i :: 0 <= i < |shapes| && (!Specifies(old(outputs)[i].dimensions, shapes[i].dimensions) || answers.overflows(shapes)[i])))
      ensures completion == COMPLETED <==> r == NONE
      ensures completion == COMPLETED_INSUFFICIENT_SIZE <==> r == INSUFFICIENT_SIZE
      ensures completion == COMPLETED_OTHER_ERROR <==> r != NONE && r != INSUFFICIENT_SIZE
    {
      r := status;
      var ok := UpdateOutputs(shapes, answers);
      if !ok || !answers.memoriesUpdated(outputs) { r := GENERAL_FAILURE; }
      completion := CompletionOf(r);
      finished := true;
    }
  }

  function Initial(outputs: seq<OutputShape>): (r: seq<OutputShape>)
    ensures |r| == |outputs| && forall i :: 0 <= i < |r| ==> r[i] == OutputShape(outputs[i].dimensions, true)
  {
    seq(|outputs|, i requires 0 <= i < |outputs| => OutputShape(outputs[i].dimensions, true))
  }

  // ----- the callback -----

  // What notification reports: shapes go with success or with insufficient size only.
  function Reported(dead: bool, status: Status, shapes: seq<OutputShape>): (Status, seq<OutputShape>) {
    if dead then (status, shapes)
    else if status == INSUFFICIENT_SIZE then (if shapes == [] then (GENERAL_FAILURE, []) else (status, shapes))
    else if status != NONE && shapes != [] then (GENERAL_FAILURE, [])
    else (status, shapes)
  }

  /** What agrees is reported as it is: success with or without shapes, insufficient size with
      shapes, and other errors without. What does not agree is a general failure. Nothing is
      changed where the driver has died. */
  lemma ReportedExactly(dead: bool, status: Status, shapes: seq<OutputShape>)
    ensures var agrees := dead || status == NONE || (status == INSUFFICIENT_SIZE <==> shapes != []);
            Reported(dead, status, shapes) == if agrees then (status, shapes) else (GENERAL_FAILURE, [])
  {
  }

  class ExecutionCallback {
    var notified: bool
    var deadObject: bool
    var errorStatus: Status
    var outputShapes: seq<OutputShape>
    // The execution whose end is to be recorded, until that is done.
    var onFinish: ExecutionBuilder?
    // How often the end has been recorded, and how often there was a notification.
    ghost var finishes: nat
    ghost var notifications: nat

    ghost predicate Valid()
      reads this, onFinish
    {
      && (onFinish != null ==> !notified && !onFinish.finished && finishes == 0)
      && finishes <= 1 && (finishes == 1 ==> notified)
    }

    constructor ()
      ensures Valid() && !notified && onFinish == null && finishes == 0 && notifications == 0
    {
      notified, deadObject, errorStatus, outputShapes, onFinish := false, false, GENERAL_FAILURE, [], null;
      finishes, notifications := 0, 0;
    }

    // Takes a hook unless there is one already or it is too late.
    method SetOnFinish(finish: ExecutionBuilder?)
      requires Valid() && (finish != null ==> !finish.finished)
      modifies this`onFinish
      ensures Valid()
      ensures onFinish == if old(onFinish) == null && !notified && finish != null then finish else old(onFinish)
    {
      if onFinish != null { return; }
      if finish == null { return; }
      if notified { return; }
      onFinish := finish;
    }

    /** Stores the results, and calls the hook, the first time only. */
    method NotifyInternal(dead: bool, status: Status, shapes: seq<OutputShape>, answers: Answers)
      requires Valid() && AnswersAll(answers)
      modifies this, onFinish
      ensures Valid() && notified && onFinish == null && notifications == old(notifications) + 1
      ensures old(notified) ==>
                errorStatus == old(errorStatus) && outputShapes == old(outputShapes) && finishes == old(finishes) && deadObject == old(deadObject)
      ensures !old(notified) ==> deadObject == dead && outputShapes == Reported(dead, status, shapes).1
      ensures !old(notified) && old(onFinish) != null ==>
                && finishes == 1 && old(onFinish).finished && old(onFinish).started == old(onFinish.started)
                && old(onFinish).outputs == OutputsAfter(answers, old(onFinish.outputs), outputShapes)
                && errorStatus == StatusAfter(answers, old(onFinish.outputs), Reported(dead, status, shapes).0, outputShapes)
                && old(onFinish).completion == CompletionOf(errorStatus)
      ensures !old(notified) && old(onFinish) == null ==> finishes == 0 && errorStatus == Reported(dead, status, shapes).0
    {
      notifications := notifications + 1;
      var (s, o) := Reported(dead, status, shapes);
      if notified { return; }
      deadObject, errorStatus, outputShapes := dead, s, o;
      notified := true;
      if onFinish != null {
        var finish := onFinish;
        var r := finish.FinishWithoutSyncFence(s, o, answers);
        onFinish := null;
        finishes := finishes + 1;
        if r != NONE { errorStatus := r; }
      }
    }
  }

  // ----- the steps of an execution -----

  datatype Next = NextFailed(code: Code) | EndOfPlan | NextStep(isCpu: bool)

  datatype Computed = Computed(code: Code, shapes: seq<OutputShape>)

  // What a partial fallback comes to: no step to run, or what running it computes.
  datatype Partial = NoStep(code: Code) | Tried(computed: Computed)

  // How one round of an execution turns out: what next() says, what the step computes, and
  // what a partial fallback would.
  datatype Round = Round(next: Next, step: Computed, mapping: Option<seq<nat>>, partial: Partial)

  /** What next() reports without a step is an error. */
  ghost predicate IsPossible(round: Round) {
    (round.next.NextFailed? ==> round.next.code != NO_ERROR) && (round.partial.NoStep? ==> round.partial.code != NO_ERROR)
  }

  datatype Event = Ran(isCpu: bool, code: Code) | PartialFallback(code: Code) | FullFallback(code: Code)

  /** Which events can follow which: a partial fallback comes right after a step that a
      device failed, the full fallback comes last, and nothing follows a failure but a fallback. */
  ghost predicate Regular(events: seq<Event>) {
    forall i: nat :: i < |events| ==> Follows(events, i)
  }

  ghost predicate Follows(events: seq<Event>, i: nat)
    requires i < |events|
  {
    match events[i]
    case PartialFallback(_) => i > 0 && events[i - 1].Ran? && !events[i - 1].isCpu && Recoverable(events[i - 1].code)
    case FullFallback(_) => i == |events| - 1 && (i > 0 ==> !events[i - 1].FullFallback? && events[i - 1].code != OUTPUT_INSUFFICIENT_SIZE)
    case Ran(_, _) => i > 0 ==> !events[i - 1].FullFallback? && events[i - 1].code == NO_ERROR
  }

  predicate Recoverable(code: Code) {
    code != NO_ERROR && code != OUTPUT_INSUFFICIENT_SIZE
  }

  lemma OneMoreEvent(events: seq<Event>, e: Event)
    requires Regular(events) && (events != [] ==> !events[|events| - 1].FullFallback?)
    requires match e
             case PartialFallback(_) => events != [] && events[|events| - 1].Ran? && !events[|events| - 1].isCpu && Recoverable(events[|events| - 1].code)
             case FullFallback(_) => events != [] ==> events[|events| - 1].code != OUTPUT_INSUFFICIENT_SIZE
             case Ran(_, _) => events != [] ==> events[|events| - 1].code == NO_ERROR
    ensures Regular(events + [e])
  {
    var all := events + [e];
    forall i: nat | i < |all| ensures Follows(all, i) {
      if i < |events| {
        assert Follows(events, i) && all[i] == events[i] && (i > 0 ==> all[i - 1] == events[i - 1]);
      } else {
        assert all[i] == e && (i > 0 ==> all[i - 1] == events[i - 1]);
      }
    }
  }

  ghost function LastCode(events: seq<Event>): Code {
    if events == [] then NO_ERROR else events[|events| - 1].code
  }

  // ----- what a run comes to -----

  // What comes after a step: the next one, a report, or the full fallback.
  datatype Verdict = GoOn | Report(code: Code, shapes: seq<OutputShape>) | FallBack

  // The code that a step ends with and the shapes after it.
  function Recorded(computed: Computed, mapping: Option<seq<nat>>, shapes: seq<OutputShape>): (Code, seq<OutputShape>) {
    var (ok, updated) := Updated(computed.shapes, mapping, shapes);
    (if ok then computed.code else OP_FAILED, updated)
  }

  function StepRuns(round: Round, shapes: seq<OutputShape>): (Code, seq<OutputShape>) {
    Recorded(round.step, round.mapping, shapes)
  }

  // The partial fallback, with the shapes that the failed step has left.
  function FallbackRuns(round: Round, shapes: seq<OutputShape>): (Code, seq<OutputShape>) {
    match round.partial
    case NoStep(code) => (code, StepRuns(round, shapes).1)
    case Tried(computed) => Recorded(computed, round.mapping, StepRuns(round, shapes).1)
  }

  /** The step is tried again on the CPU. */
  predicate TriedAgain(round: Round, shapes: seq<OutputShape>, allowFallback: bool) {
    allowFallback && round.next.NextStep? && !round.next.isCpu && Recoverable(StepRuns(round, shapes).0)
  }

  // What happens in a round that has a step.
  function RoundEvents(round: Round, shapes: seq<OutputShape>, allowFallback: bool): seq<Event>
    requires round.next.NextStep?
  {
    [Ran(round.next.isCpu, StepRuns(round, shapes).0)] +
    if TriedAgain(round, shapes, allowFallback) then [PartialFallback(FallbackRuns(round, shapes).0)] else []
  }

  // The code and the shapes at the end of a round.
  function RoundEnd(round: Round, shapes: seq<OutputShape>, allowFallback: bool): (Code, seq<OutputShape>) {
    if TriedAgain(round, shapes, allowFallback) then FallbackRuns(round, shapes) else StepRuns(round, shapes)
  }

  function RoundVerdict(round: Round, shapes: seq<OutputShape>, allowFallback: bool, isSimple: bool): Verdict {
    var (code, after) := RoundEnd(round, shapes, allowFallback);
    if code == NO_ERROR then GoOn
    else if code == OUTPUT_INSUFFICIENT_SIZE then Report(code, after)
    else if !allowFallback || isSimple then Report(code, [])
    else FallBack
  }

  // What an execution comes to: what happened, and the code and the shapes that are reported.
  datatype Trace = Trace(events: seq<Event>, code: Code, shapes: seq<OutputShape>)

  predicate MissedDeadline(code: Code) {
    code == MISSED_DEADLINE_TRANSIENT || code == MISSED_DEADLINE_PERSISTENT
  }

  function FullTrace(full: Computed): Trace {
    Trace([FullFallback(full.code)], full.code, full.shapes)
  }

  function TraceOf(rounds: seq<Round>, full: Computed, isSimple: bool, allowFallback: bool, shapes: seq<OutputShape>): Trace
    decreases |rounds|
  {
    if rounds == [] || rounds[0].next.EndOfPlan? then Trace([], NO_ERROR, shapes)
    else if rounds[0].next.NextFailed? then
      if allowFallback && !MissedDeadline(rounds[0].next.code) then FullTrace(full) else Trace([], rounds[0].next.code, [])
    else
      var events := RoundEvents(rounds[0], shapes, allowFallback);
      match RoundVerdict(rounds[0], shapes, allowFallback, isSimple)
      case GoOn => Before(events, TraceOf(rounds[1..], full, isSimple, allowFallback, RoundEnd(rounds[0], shapes, allowFallback).1))
      case Report(code, reported) => Trace(events, code, reported)
      case FallBack => Before(events, FullTrace(full))
  }

  function Before(events: seq<Event>, t: Trace): Trace {
    t.(events := events + t.events)
  }

  // ----- what holds of every run -----

  // One round with a step, and what follows.
  lemma RoundDecides(rounds: seq<Round>, full: Computed, isSimple: bool, allowFallback: bool, shapes: seq<OutputShape>)
    requires rounds != [] && rounds[0].next.NextStep?
    ensures var events := RoundEvents(rounds[0], shapes, allowFallback);
            var rest := TraceOf(rounds[1..], full, isSimple, allowFallback, RoundEnd(rounds[0], shapes, allowFallback).1);
            TraceOf(rounds, full, isSimple, allowFallback, shapes) ==
            match RoundVerdict(rounds[0], shapes, allowFallback, isSimple)
            case GoOn => rest.(events := events + rest.events)
            case Report(code, reported) => Trace(events, code, reported)
            case FallBack => Trace(events + [FullFallback(full.code)], full.code, full.shapes)
  {
    hide RoundEvents, RoundEnd, RoundVerdict;
  }

  lemma RoundIsRegular(round: Round, shapes: seq<OutputShape>, allowFallback: bool)
    requires round.next.NextStep?
    ensures Regular(RoundEvents(round, shapes, allowFallback))
    ensures LastCode(RoundEvents(round, shapes, allowFallback)) == RoundEnd(round, shapes, allowFallback).0
    ensures !RoundEvents(round, shapes, allowFallback)[|RoundEvents(round, shapes, allowFallback)| - 1].FullFallback?
  {
    hide Recorded;
    var e := Ran(round.next.isCpu, StepRuns(round, shapes).0);
    OneMoreEvent([], e);
    assert [] + [e] == [e];
    if TriedAgain(round, shapes, allowFallback) {
      OneMoreEvent([e], PartialFallback(FallbackRuns(round, shapes).0));
    }
  }

  lemma RegularInSequence(a: seq<Event>, b: seq<Event>)
    requires Regular(a) && Regular(b) && a != [] && !a[|a| - 1].FullFallback?
    requires b != [] ==> !b[0].PartialFallback? && a[|a| - 1].code != OUTPUT_INSUFFICIENT_SIZE && (b[0].Ran? ==> a[|a| - 1].code == NO_ERROR)
    ensures Regular(a + b)
  {
    var all := a + b;
    forall i: nat | i < |all| ensures Follows(all, i) {
      if i < |a| {
        assert Follows(a, i) && all[i] == a[i] && (i > 0 ==> all[i - 1] == a[i - 1]);
      } else {
        assert Follows(b, i - |a|) && all[i] == b[i - |a|] && (i > |a| ==> all[i - 1] == b[i - |a| - 1]);
      }
    }
  }

  /** Partial fallbacks come right after a step that a device failed, a full fallback comes
      last, and nothing follows a failure but a fallback. */
  lemma {:induction false} TraceIsRegular(rounds: seq<Round>, full: Computed, isSimple: bool, allowFallback: bool, shapes: seq<OutputShape>)
    ensures var events := TraceOf(rounds, full, isSimple, allowFallback, shapes).events;
            Regular(events) && (events != [] ==> !events[0].PartialFallback?)
    decreases |rounds|
  {
    if rounds != [] && rounds[0].next.NextStep? {
      RoundIsRegular(rounds[0], shapes, allowFallback);
      var events := RoundEvents(rounds[0], shapes, allowFallback);
      var after := RoundEnd(rounds[0], shapes, allowFallback).1;
      TraceIsRegular(rounds[1..], full, isSimple, allowFallback, after);
      hide Regular;
      FullIsRegular(full);
      match RoundVerdict(rounds[0], shapes, allowFallback, isSimple) {
        case GoOn => RegularInSequence(events, TraceOf(rounds[1..], full, isSimple, allowFallback, after).events);
        case Report(_, _) =>
        case FallBack => RegularInSequence(events, FullTrace(full).events);
      }
    } else {
      FullIsRegular(full);
    }
  }

  lemma FullIsRegular(full: Computed)
    ensures Regular(FullTrace(full).events) && Regular([])
  {
    OneMoreEvent([], FullFallback(full.code));
    assert [] + [FullFallback(full.code)] == [FullFallback(full.code)];
  }

  /** The code is that of the last thing tried, or that of a next() which failed. */
  lemma {:induction false} CodeIsOfTheLast(rounds: seq<Round>, full: Computed, isSimple: bool, allowFallback: bool, shapes: seq<OutputShape>)
    requires forall round :: round in rounds ==> IsPossible(round)
    ensures var t := TraceOf(rounds, full, isSimple, allowFallback, shapes);
            || t.code == LastCode(t.events)
            || (&& LastCode(t.events) == NO_ERROR && (exists round :: round in rounds && round.next == NextFailed(t.code))
                && (!allowFallback || MissedDeadline(t.code)))
    decreases |rounds|
  {
    hide Regular, RoundEvents, RoundEnd, IsPossible;
    if rounds != [] && rounds[0].next.NextStep? && RoundVerdict(rounds[0], shapes, allowFallback, isSimple).GoOn? {
      RoundIsRegular(rounds[0], shapes, allowFallback);
      var after := RoundEnd(rounds[0], shapes, allowFallback).1;
      CodeIsOfTheLast(rounds[1..], full, isSimple, allowFallback, after);
      var rest := TraceOf(rounds[1..], full, isSimple, allowFallback, after);
      if rest.events == [] { assert RoundEvents(rounds[0], shapes, allowFallback) + [] == RoundEvents(rounds[0], shapes, allowFallback); }
    } else if rounds != [] && rounds[0].next.NextStep? {
      RoundIsRegular(rounds[0], shapes, allowFallback);
    } else if rounds != [] && rounds[0].next.NextFailed? {
      assert rounds[0] in rounds && rounds[0].next == NextFailed(rounds[0].next.code);
    }
  }

  /** Without fallback there are only steps. */
  lemma {:induction false} NoFallbackUnasked(rounds: seq<Round>, full: Computed, isSimple: bool, shapes: seq<OutputShape>)
    ensures forall e :: e in TraceOf(rounds, full, isSimple, false, shapes).events ==> e.Ran?
    decreases |rounds|
  {
    if rounds != [] && rounds[0].next.NextStep? {
      NoFallbackUnasked(rounds[1..], full, isSimple, RoundEnd(rounds[0], shapes, false).1);
    }
  }

  /** With fallback nothing recoverable is reported before the CPU has been tried: the last
      event is the full fallback or, if the plan is simple, ran on the CPU. */
  lemma {:induction false} FallbackIsTried(rounds: seq<Round>, full: Computed, isSimple: bool, shapes: seq<OutputShape>)
    ensures var events := TraceOf(rounds, full, isSimple, true, shapes).events;
            events != [] && Recoverable(LastCode(events)) ==>
              var last := events[|events| - 1];
              (last.Ran? ==> last.isCpu) && (!isSimple ==> last.FullFallback?)
    decreases |rounds|
  {
    if rounds != [] && rounds[0].next.NextStep? {
      hide TraceOf;
      RoundDecides(rounds, full, isSimple, true, shapes);
      RoundIsRegular(rounds[0], shapes, true);
      var after := RoundEnd(rounds[0], shapes, true).1;
      FallbackIsTried(rounds[1..], full, isSimple, after);
      LastOfRound(rounds[0], shapes);
      hide RoundEvents, RoundEnd, Regular;
      var events, rest := RoundEvents(rounds[0], shapes, true), TraceOf(rounds[1..], full, isSimple, true, after);
      if RoundVerdict(rounds[0], shapes, true, isSimple).GoOn? {
        if rest.events == [] { assert events + [] == events; }
      }
    }
  }

  lemma LastOfRound(round: Round, shapes: seq<OutputShape>)
    requires round.next.NextStep?
    ensures var events := RoundEvents(round, shapes, true);
            events != [] && (Recoverable(LastCode(events)) && events[|events| - 1].Ran? ==> events[|events| - 1].isCpu)
  {
    hide StepRuns, FallbackRuns;
  }

  function Steps(events: seq<Event>): seq<Event> {
    if events == [] then []
    else (if events[0].Ran? then [events[0]] else []) + Steps(events[1..])
  }

  lemma {:induction false} StepsInSequence(a: seq<Event>, b: seq<Event>)
    ensures Steps(a + b) == Steps(a) + Steps(b)
  {
    hide *;
    if a == [] {
      StepsOfNone(a);
      assert a + b == b && [] + Steps(b) == Steps(b);
    } else {
      assert (a + b)[1..] == a[1..] + b && (a + b)[0] == a[0];
      StepsInSequence(a[1..], b);
      FirstStep(a);
      FirstStep(a + b);
      var first := if a[0].Ran? then [a[0]] else [];
      assert first + (Steps(a[1..]) + Steps(b)) == first + Steps(a[1..]) + Steps(b);
    }
  }

  lemma StepsOfNone(events: seq<Event>)
    requires events == []
    ensures Steps(events) == []
  {
  }

  lemma FirstStep(events: seq<Event>)
    requires events != []
    ensures Steps(events) == (if events[0].Ran? then [events[0]] else []) + Steps(events[1..])
  {
  }

  lemma OneStepARound(round: Round, shapes: seq<OutputShape>, allowFallback: bool)
    requires round.next.NextStep?
    ensures Steps(RoundEvents(round, shapes, allowFallback)) == [Ran(round.next.isCpu, StepRuns(round, shapes).0)]
  {
    hide StepRuns, FallbackRuns;
    var e := Ran(round.next.isCpu, StepRuns(round, shapes).0);
    assert Steps([e]) == [e] + Steps([e][1..]) == [e];
    if TriedAgain(round, shapes, allowFallback) {
      var f := PartialFallback(FallbackRuns(round, shapes).0);
      assert Steps([f]) == [] + Steps([f][1..]) == [];
      StepsInSequence([e], [f]);
    }
  }

  /** The step ran where next() of its round said, and ended with the code of its computation
      unless its shapes do not fit. */
  predicate IsStepOf(step: Event, round: Round) {
    step.Ran? && round.next == NextStep(step.isCpu) && (step.code == round.step.code || step.code == OP_FAILED)
  }

  ghost predicate AreStepsOf(steps: seq<Event>, rounds: seq<Round>) {
    |steps| <= |rounds| && forall i :: 0 <= i < |steps| ==> IsStepOf(steps[i], rounds[i])
  }

  lemma OneMoreStep(step: Event, steps: seq<Event>, rounds: seq<Round>)
    requires rounds != [] && IsStepOf(step, rounds[0]) && AreStepsOf(steps, rounds[1..])
    ensures AreStepsOf([step] + steps, rounds)
  {
    hide IsStepOf;
    forall i | 0 <= i < 1 + |steps| ensures IsStepOf(([step] + steps)[i], rounds[i]) {
      if i > 0 { assert IsStepOf(steps[i - 1], rounds[1..][i - 1]); }
    }
  }

  /** The steps are those of the rounds, one each, in order. */
  lemma {:induction false} StepsAreOfTheRounds(rounds: seq<Round>, full: Computed, isSimple: bool, allowFallback: bool, shapes: seq<OutputShape>)
    ensures AreStepsOf(Steps(TraceOf(rounds, full, isSimple, allowFallback, shapes).events), rounds)
    decreases |rounds|
  {
    if rounds != [] && rounds[0].next.NextStep? {
      hide *;
      var events, after := RoundEvents(rounds[0], shapes, allowFallback), RoundEnd(rounds[0], shapes, allowFallback).1;
      var first := Ran(rounds[0].next.isCpu, StepRuns(rounds[0], shapes).0);
      RoundDecides(rounds, full, isSimple, allowFallback, shapes);
      OneStepARound(rounds[0], shapes, allowFallback);
      RoundHasStep(rounds[0], shapes);
      var rest := TraceOf(rounds[1..], full, isSimple, allowFallback, after);
      StepsAreOfTheRounds(rounds[1..], full, isSimple, allowFallback, after);
      StepsInSequence(events, rest.events);
      StepsInSequence(events, [FullFallback(full.code)]);
      FirstStep([FullFallback(full.code)]);
      StepsOfNone([FullFallback(full.code)][1..]);
      OneMoreStep(first, Steps(rest.events), rounds);
      NoSteps(rounds[1..]);
      OneMoreStep(first, [], rounds);
      assert [first] + [] == [first];
    } else {
      FirstStep([FullFallback(full.code)]);
      NoSteps(rounds);
    }
  }

  lemma RoundHasStep(round: Round, shapes: seq<OutputShape>)
    requires round.next.NextStep?
    ensures IsStepOf(Ran(round.next.isCpu, StepRuns(round, shapes).0), round)
  {
    hide Updated;
  }

  lemma NoSteps(rounds: seq<Round>)
    ensures AreStepsOf([], rounds) && Steps([]) == []
  {
  }

  // ----- no step is left out -----

  // How many rounds have a step before the plan ends or next() fails.
  function StepsPlanned(rounds: seq<Round>): nat {
    if rounds == [] || !rounds[0].next.NextStep? then 0 else 1 + StepsPlanned(rounds[1..])
  }

  // The events without a full fallback at the end.
  function WithoutFull(events: seq<Event>): seq<Event> {
    if events != [] && events[|events| - 1].FullFallback? then events[..|events| - 1] else events
  }

  lemma WithoutFullInSequence(a: seq<Event>, b: seq<Event>)
    requires a != [] && !a[|a| - 1].FullFallback?
    ensures WithoutFull(a + b) == a + WithoutFull(b)
    ensures LastCode(a + WithoutFull(b)) == if WithoutFull(b) == [] then LastCode(a) else LastCode(WithoutFull(b))
  {
    if b == [] {
      assert a + b == a;
    } else {
      assert (a + b)[|a + b| - 1] == b[|b| - 1];
    }
  }

  lemma StepsWithoutFull(full: Computed)
    ensures WithoutFull([FullFallback(full.code)]) == [] && Steps([FullFallback(full.code)]) == [] && Steps([]) == []
  {
    assert [FullFallback(full.code)][1..] == [];
  }

  /** A run goes through all steps that the plan has for it, unless one of them fails: then that
      one, or its partial fallback, is the last thing tried before a full fallback. */
  lemma {:induction false} StopsOnlyAtFailure(rounds: seq<Round>, full: Computed, isSimple: bool, allowFallback: bool, shapes: seq<OutputShape>)
    ensures var events := TraceOf(rounds, full, isSimple, allowFallback, shapes).events;
            && |Steps(events)| <= StepsPlanned(rounds)
            && (|Steps(events)| == StepsPlanned(rounds) || LastCode(WithoutFull(events)) != NO_ERROR)
    decreases |rounds|
  {
    StepsWithoutFull(full);
    if rounds != [] && rounds[0].next.NextStep? {
      var events, after := RoundEvents(rounds[0], shapes, allowFallback), RoundEnd(rounds[0], shapes, allowFallback).1;
      hide RoundEvents, RoundEnd, StepRuns, Steps, WithoutFull, Regular;
      RoundIsRegular(rounds[0], shapes, allowFallback);
      OneStepARound(rounds[0], shapes, allowFallback);
      var rest := TraceOf(rounds[1..], full, isSimple, allowFallback, after);
      match RoundVerdict(rounds[0], shapes, allowFallback, isSimple) {
        case GoOn =>
          StopsOnlyAtFailure(rounds[1..], full, isSimple, allowFallback, after);
          StepsInSequence(events, rest.events);
          WithoutFullInSequence(events, rest.events);
        case Report(_, _) =>
          WithoutFullInSequence(events, []);
          NoFull(events);
        case FallBack =>
          StepsInSequence(events, [FullFallback(full.code)]);
          WithoutFullInSequence(events, [FullFallback(full.code)]);
      }
    }
  }

  lemma NoFull(events: seq<Event>)
    ensures events + [] == events && WithoutFull([]) == []
  {
  }

  /** Success without a full fallback means that every step of the plan has run, that the plan
      has come to its end, and that each step, or its partial fallback, ended without error. */
  lemma {:induction false} SuccessRunsThePlan(rounds: seq<Round>, full: Computed, isSimple: bool, allowFallback: bool, shapes: seq<OutputShape>)
    requires forall round :: round in rounds ==> IsPossible(round)
    ensures var t := TraceOf(rounds, full, isSimple, allowFallback, shapes);
            t.code == NO_ERROR && (forall e :: e in t.events ==> !e.FullFallback?) ==>
              && |Steps(t.events)| == StepsPlanned(rounds)
              && StepsPlanned(rounds) <= |rounds| && (StepsPlanned(rounds) == |rounds| || rounds[StepsPlanned(rounds)].next.EndOfPlan?)
              && forall i: nat :: i < |t.events| ==> t.events[i].code == NO_ERROR || (i + 1 < |t.events| && t.events[i + 1].PartialFallback?)
  {
    var t := TraceOf(rounds, full, isSimple, allowFallback, shapes);
    if t.code == NO_ERROR && forall e :: e in t.events ==> !e.FullFallback? {
      StopsOnlyAtFailure(rounds, full, isSimple, allowFallback, shapes);
      CodeIsAnError(rounds, full, isSimple, allowFallback, shapes);
      TraceIsRegular(rounds, full, isSimple, allowFallback, shapes);
      PlanEnds(rounds, full, isSimple, allowFallback, shapes);
      hide TraceOf, StepsPlanned, IsPossible, Steps;
      forall i: nat | i < |t.events| ensures t.events[i].code == NO_ERROR || (i + 1 < |t.events| && t.events[i + 1].PartialFallback?) {
        if i + 1 < |t.events| { assert Follows(t.events, i + 1) && t.events[i + 1] in t.events; }
      }
    }
  }

  lemma {:induction false} PlanEnds(rounds: seq<Round>, full: Computed, isSimple: bool, allowFallback: bool, shapes: seq<OutputShape>)
    requires forall round :: round in rounds ==> IsPossible(round)
    ensures StepsPlanned(rounds) <= |rounds|
    ensures var t := TraceOf(rounds, full, isSimple, allowFallback, shapes);
            t.code == NO_ERROR && (forall e :: e in t.events ==> !e.FullFallback?) ==>
              StepsPlanned(rounds) == |rounds| || rounds[StepsPlanned(rounds)].next.EndOfPlan?
    decreases |rounds|
  {
    if rounds != [] && rounds[0].next.NextStep? {
      var events, after := RoundEvents(rounds[0], shapes, allowFallback), RoundEnd(rounds[0], shapes, allowFallback).1;
      hide RoundEvents, RoundEnd;
      var rest := TraceOf(rounds[1..], full, isSimple, allowFallback, after);
      PlanEnds(rounds[1..], full, isSimple, allowFallback, after);
      assert forall e :: e in rest.events ==> e in events + rest.events;
      assert FullFallback(full.code) in events + [FullFallback(full.code)];
    } else if rounds != [] && rounds[0].next.NextFailed? {
      assert rounds[0] in rounds && IsPossible(rounds[0]);
      assert FullFallback(full.code) in [FullFallback(full.code)];
    }
  }

  // ----- what the first failure makes of a run -----

  /** The step ends without error and reports no shapes. */
  predicate IsClean(round: Round) {
    round.next.NextStep? && round.step == Computed(NO_ERROR, [])
  }

  function RanCleanly(rounds: seq<Round>): seq<Event>
    requires forall round :: round in rounds ==> IsClean(round)
  {
    seq(|rounds|, i requires 0 <= i < |rounds| => assert rounds[i] in rounds && IsClean(rounds[i]); Ran(rounds[i].next.isCpu, NO_ERROR))
  }

  /** Steps without error run one after the other, and what follows decides. */
  lemma {:induction false} CleanStepsGoOn(clean: seq<Round>, rest: seq<Round>, full: Computed, isSimple: bool, allowFallback: bool, shapes: seq<OutputShape>)
    requires forall round :: round in clean ==> IsClean(round)
    ensures TraceOf(clean + rest, full, isSimple, allowFallback, shapes) ==
            var t := TraceOf(rest, full, isSimple, allowFallback, shapes); t.(events := RanCleanly(clean) + t.events)
    decreases |clean|
  {
    hide *;
    var t := TraceOf(rest, full, isSimple, allowFallback, shapes);
    if clean == [] {
      NothingRan(clean);
      assert clean + rest == rest && RanCleanly(clean) + t.events == t.events;
    } else {
      assert (clean + rest)[0] == clean[0] && (clean + rest)[1..] == clean[1..] + rest;
      FirstIsClean(clean);
      CleanStepsGoOn(clean[1..], rest, full, isSimple, allowFallback, shapes);
      CleanStepGoesOn(clean + rest, full, isSimple, allowFallback, shapes);
      assert [Ran(clean[0].next.isCpu, NO_ERROR)] + (RanCleanly(clean[1..]) + t.events) == RanCleanly(clean) + t.events;
    }
  }

  lemma NothingRan(clean: seq<Round>)
    requires clean == []
    ensures RanCleanly(clean) == []
  {
  }

  lemma FirstIsClean(clean: seq<Round>)
    requires clean != [] && forall round :: round in clean ==> IsClean(round)
    ensures IsClean(clean[0]) && clean[0].next.NextStep? && forall round :: round in clean[1..] ==> IsClean(round)
    ensures RanCleanly(clean) == [Ran(clean[0].next.isCpu, NO_ERROR)] + RanCleanly(clean[1..])
  {
    assert clean[0] in clean && forall round :: round in clean[1..] ==> round in clean;
    assert clean == [clean[0]] + clean[1..];
  }

  lemma CleanStepGoesOn(rounds: seq<Round>, full: Computed, isSimple: bool, allowFallback: bool, shapes: seq<OutputShape>)
    requires rounds != [] && IsClean(rounds[0])
    ensures TraceOf(rounds, full, isSimple, allowFallback, shapes) ==
            var t := TraceOf(rounds[1..], full, isSimple, allowFallback, shapes); t.(events := [Ran(rounds[0].next.isCpu, NO_ERROR)] + t.events)
  {
  }

  /** A run whose steps all end without error is a success with all of them. */
  lemma CleanRunSucceeds(clean: seq<Round>, rest: seq<Round>, full: Computed, isSimple: bool, allowFallback: bool, shapes: seq<OutputShape>)
    requires forall round :: round in clean ==> IsClean(round)
    requires rest == [] || rest[0].next.EndOfPlan?
    ensures TraceOf(clean + rest, full, isSimple, allowFallback, shapes) == Trace(RanCleanly(clean), NO_ERROR, shapes)
  {
    CleanStepsGoOn(clean, rest, full, isSimple, allowFallback, shapes);
    assert RanCleanly(clean) + [] == RanCleanly(clean);
  }

  /** The code that a step ends with: that of its computation, unless there are shapes that
      cannot be taken over. */
  function StepCode(computed: Computed, mapping: Option<seq<nat>>, shapes: seq<OutputShape>): Code {
    if Updated(computed.shapes, mapping, shapes).0 then computed.code else OP_FAILED
  }

  /** The first failure of a run. Without permission, or if an output is too small, it is
      reported at once. Else a step that a device failed is tried again on the CPU, and if that
      fails, or the CPU had failed, the whole model is run on the CPU, unless there is only
      that one step. */
  lemma FirstFailureDecides(clean: seq<Round>, round: Round, rest: seq<Round>, full: Computed, isSimple: bool, allowFallback: bool, shapes: seq<OutputShape>)
    requires (forall r :: r in clean ==> IsClean(r)) && round.next.NextStep?
    requires StepCode(round.step, round.mapping, shapes) != NO_ERROR
    ensures var t := TraceOf(clean + [round] + rest, full, isSimple, allowFallback, shapes);
            var c := StepCode(round.step, round.mapping, shapes);
            var tried := RanCleanly(clean) + [Ran(round.next.isCpu, c)];
            var after := Updated(round.step.shapes, round.mapping, shapes).1;
            && (c == OUTPUT_INSUFFICIENT_SIZE ==> t == Trace(tried, c, after))
            && (c != OUTPUT_INSUFFICIENT_SIZE && !allowFallback ==> t == Trace(tried, c, []))
            && (c != OUTPUT_INSUFFICIENT_SIZE && allowFallback && round.next.isCpu ==>
                  t == if isSimple then Trace(tried, c, []) else Trace(tried + [FullFallback(full.code)], full.code, full.shapes))
            && (c != OUTPUT_INSUFFICIENT_SIZE && allowFallback && !round.next.isCpu ==>
                  && |t.events| > |tried| && t.events[..|tried|] == tried && t.events[|tried|].PartialFallback?
                  && var d := if round.partial.NoStep? then round.partial.code else StepCode(round.partial.computed, round.mapping, after);
                  && var after' := if round.partial.NoStep? then after else Updated(round.partial.computed.shapes, round.mapping, after).1;
                  && t.events[|tried|].code == d
                  && (d == OUTPUT_INSUFFICIENT_SIZE ==> t == Trace(tried + [PartialFallback(d)], d, after'))
                  && (d == NO_ERROR ==>
                        var on := TraceOf(rest, full, isSimple, allowFallback, after'); t == on.(events := tried + [PartialFallback(d)] + on.events))
                  && (d != NO_ERROR && d != OUTPUT_INSUFFICIENT_SIZE ==>
                        t == if isSimple then Trace(tried + [PartialFallback(d)], d, [])
                             else Trace(tried + [PartialFallback(d), FullFallback(full.code)], full.code, full.shapes)))
  {
    hide *;
    CleanStepsGoOn(clean, [round] + rest, full, isSimple, allowFallback, shapes);
    Regrouped(clean, [round], rest);
    FirstOf(round, rest, full, isSimple, allowFallback, shapes);
    var p, c, after := RanCleanly(clean), StepCode(round.step, round.mapping, shapes), Updated(round.step.shapes, round.mapping, shapes).1;
    var ran, last := [Ran(round.next.isCpu, c)], [FullFallback(full.code)];
    NothingJoined(ran);
    Regrouped(p, ran, last);
    if c != OUTPUT_INSUFFICIENT_SIZE && allowFallback && !round.next.isCpu {
      var d := if round.partial.NoStep? then round.partial.code else StepCode(round.partial.computed, round.mapping, after);
      var after' := if round.partial.NoStep? then after else Updated(round.partial.computed.shapes, round.mapping, after).1;
      var on := TraceOf(rest, full, isSimple, allowFallback, after');
      Regrouped(p, ran, [PartialFallback(d)]);
      Regrouped(p, ran, [PartialFallback(d), FullFallback(full.code)]);
      Regrouped(p, ran, [PartialFallback(d)] + on.events);
      Regrouped(p + ran, [PartialFallback(d)], on.events);
      FirstTwo(p, TraceOf([round] + rest, full, isSimple, allowFallback, shapes).events);
    }
  }

  /** Where next() fails, the whole model is run on the CPU if that is allowed and the deadline
      has not been missed; else the failure is reported. */
  lemma NextFailureDecides(clean: seq<Round>, round: Round, rest: seq<Round>, full: Computed, isSimple: bool, allowFallback: bool, shapes: seq<OutputShape>)
    requires (forall r :: r in clean ==> IsClean(r)) && round.next.NextFailed?
    ensures var t := TraceOf(clean + [round] + rest, full, isSimple, allowFallback, shapes);
            var missed := round.next.code == MISSED_DEADLINE_TRANSIENT || round.next.code == MISSED_DEADLINE_PERSISTENT;
            t == if allowFallback && !missed then Trace(RanCleanly(clean) + [FullFallback(full.code)], full.code, full.shapes)
                 else Trace(RanCleanly(clean), round.next.code, [])
  {
    var all := [round] + rest;
    assert clean + [round] + rest == clean + all && all[0] == round;
    CleanStepsGoOn(clean, all, full, isSimple, allowFallback, shapes);
    assert RanCleanly(clean) + [] == RanCleanly(clean);
  }

  lemma FirstTwo(p: seq<Event>, events: seq<Event>)
    requires |events| >= 2
    ensures |p + events| > |p| + 1 && (p + events)[..|p| + 1] == p + [events[0]] && (p + events)[|p| + 1] == events[1]
  {
  }

  lemma FirstOf(round: Round, rest: seq<Round>, full: Computed, isSimple: bool, allowFallback: bool, shapes: seq<OutputShape>)
    requires round.next.NextStep? && StepCode(round.step, round.mapping, shapes) != NO_ERROR
    ensures var t := TraceOf([round] + rest, full, isSimple, allowFallback, shapes);
            var c := StepCode(round.step, round.mapping, shapes);
            var after := Updated(round.step.shapes, round.mapping, shapes).1;
            && (c == OUTPUT_INSUFFICIENT_SIZE ==> t == Trace([Ran(round.next.isCpu, c)] + [], c, after))
            && (c != OUTPUT_INSUFFICIENT_SIZE && !allowFallback ==> t == Trace([Ran(round.next.isCpu, c)] + [], c, []))
            && (c != OUTPUT_INSUFFICIENT_SIZE && allowFallback && round.next.isCpu ==>
                  t == if isSimple then Trace([Ran(round.next.isCpu, c)] + [], c, [])
                       else Trace([Ran(round.next.isCpu, c)] + [FullFallback(full.code)], full.code, full.shapes))
            && (c != OUTPUT_INSUFFICIENT_SIZE && allowFallback && !round.next.isCpu ==>
                  var d := if round.partial.NoStep? then round.partial.code else StepCode(round.partial.computed, round.mapping, after);
                  && var after' := if round.partial.NoStep? then after else Updated(round.partial.computed.shapes, round.mapping, after).1;
                  && |t.events| >= 2 && t.events[0] == Ran(round.next.isCpu, c) && t.events[1] == PartialFallback(d)
                  && (d == OUTPUT_INSUFFICIENT_SIZE ==> t == Trace([Ran(round.next.isCpu, c)] + [PartialFallback(d)], d, after'))
                  && (d == NO_ERROR ==>
                        var on := TraceOf(rest, full, isSimple, allowFallback, after');
                        t == on.(events := [Ran(round.next.isCpu, c)] + ([PartialFallback(d)] + on.events)))
                  && (d != NO_ERROR && d != OUTPUT_INSUFFICIENT_SIZE ==>
                        t == if isSimple then Trace([Ran(round.next.isCpu, c)] + [PartialFallback(d)], d, [])
                             else Trace([Ran(round.next.isCpu, c)] + [PartialFallback(d), FullFallback(full.code)], full.code, full.shapes)))
  {
    hide TraceOf, Updated;
    assert ([round] + rest)[0] == round && ([round] + rest)[1..] == rest;
    RoundDecides([round] + rest, full, isSimple, allowFallback, shapes);
  }

  /** A run that is reported as a success or as insufficient size reports shapes that are
      more specific than those it started with, unless the full fallback reports them. */
  lemma {:induction false} ShapesAreSpecified(rounds: seq<Round>, full: Computed, isSimple: bool, allowFallback: bool, shapes: seq<OutputShape>)
    ensures var t := TraceOf(rounds, full, isSimple, allowFallback, shapes);
            t.shapes == [] || AllSpecify(shapes, t.shapes) || (t.events != [] && t.events[|t.events| - 1].FullFallback? && t.shapes == full.shapes)
    decreases |rounds|
  {
    hide AllSpecify, RoundEvents, StepRuns, FallbackRuns, TriedAgain, Recorded;
    AllSpecifySame(shapes);
    if rounds != [] && rounds[0].next.NextStep? {
      RoundSpecifies(rounds[0], shapes, allowFallback);
      var after := RoundEnd(rounds[0], shapes, allowFallback).1;
      ShapesAreSpecified(rounds[1..], full, isSimple, allowFallback, after);
      var rest := TraceOf(rounds[1..], full, isSimple, allowFallback, after);
      if AllSpecify(after, rest.shapes) { AllSpecifyMore(shapes, after, rest.shapes); }
    }
  }

  lemma RoundSpecifies(round: Round, shapes: seq<OutputShape>, allowFallback: bool)
    ensures AllSpecify(shapes, RoundEnd(round, shapes, allowFallback).1)
  {
    hide AllSpecify, Updated;
    var after := StepRuns(round, shapes).1;
    UpdateSpecifies(round.step.shapes, round.mapping, shapes);
    if TriedAgain(round, shapes, allowFallback) && round.partial.Tried? {
      UpdateSpecifies(round.partial.computed.shapes, round.mapping, after);
      AllSpecifyMore(shapes, after, FallbackRuns(round, shapes).1);
    }
  }

  // Records what a step has reported.
  method Update(computed: Computed, mapping: Option<seq<nat>>, shapes0: seq<OutputShape>) returns (code: Code, shapes: seq<OutputShape>)
    ensures (code, shapes) == Recorded(computed, mapping, shapes0)
  {
    var ok;
    ok, shapes := UpdateOutputShapes(computed.shapes, mapping, shapes0);
    code := if ok then computed.code else OP_FAILED;
  }

  /** Runs one step, and tries it once more on the CPU if that is allowed. */
  method Attempt(round: Round, shapes0: seq<OutputShape>, allowFallback: bool, isSimple: bool)
    returns (verdict: Verdict, shapes: seq<OutputShape>, ghost events: seq<Event>)
    requires round.next.NextStep? && IsPossible(round)
    ensures verdict == RoundVerdict(round, shapes0, allowFallback, isSimple)
    ensures shapes == RoundEnd(round, shapes0, allowFallback).1
    ensures events == RoundEvents(round, shapes0, allowFallback)
  {
    hide Recorded;
    var isCpu := round.next.isCpu;
    var stepN;
    stepN, shapes := Update(round.step, round.mapping, shapes0);
    events := [Ran(isCpu, stepN)];
    if stepN == NO_ERROR { return GoOn, shapes, events; }
    if stepN == OUTPUT_INSUFFICIENT_SIZE { return Report(stepN, shapes), shapes, events; }
    if !allowFallback { return Report(stepN, []), shapes, events; }
    if isCpu { return if isSimple then Report(stepN, []) else FallBack, shapes, events; }
    var fallbackN;
    match round.partial {
      case NoStep(code) => fallbackN := code;
      case Tried(computed) => fallbackN, shapes := Update(computed, round.mapping, shapes);
    }
    events := events + [PartialFallback(fallbackN)];
    if fallbackN == NO_ERROR { return GoOn, shapes, events; }
    if fallbackN == OUTPUT_INSUFFICIENT_SIZE { return Report(fallbackN, shapes), shapes, events; }
    if isSimple { return Report(fallbackN, []), shapes, events; }
    verdict := FallBack;
  }

  // The status and the shapes that are notified for a trace.
  function Notified(t: Trace): (Status, seq<OutputShape>) {
    Reported(false, StatusOf(t.code), t.shapes)
  }

  /** The status of the trace and its shapes are notified if they agree: success with or
      without shapes, an insufficient size with shapes, and other errors without. */
  lemma NotifiedExactly(t: Trace)
    ensures var agrees := t.code == NO_ERROR || (t.code == OUTPUT_INSUFFICIENT_SIZE <==> t.shapes != []);
            Notified(t) == if agrees then (StatusOf(t.code), t.shapes) else (GENERAL_FAILURE, [])
  {
  }

  /** Runs the rounds of a plan. What happens is the trace of the rounds; the callback is
      notified once, of the trace's code and shapes. */
  method AsyncStartComputePartitioned(rounds: seq<Round>, full: Computed, isSimple: bool, isSimpleCpu: bool, allowFallback0: bool,
                                      builder: ExecutionBuilder, callback: ExecutionCallback, answers: Answers)
    returns (ghost events: seq<Event>)
    requires callback.Valid() && !callback.notified && callback.onFinish == builder && AnswersAll(answers)
    requires forall round :: round in rounds ==> IsPossible(round)
    modifies callback, builder
    ensures callback.Valid() && callback.notified && callback.finishes == 1 && callback.notifications == old(callback.notifications) + 1
    ensures !callback.deadObject
    ensures builder.finished && builder.started == old(builder.started) && builder.completion == CompletionOf(callback.errorStatus)
    ensures var t := TraceOf(rounds, full, isSimple, allowFallback0 && !isSimpleCpu, Initial(old(builder.outputs)));
            && events == t.events
            && callback.outputShapes == Notified(t).1
            && callback.errorStatus == StatusAfter(answers, old(builder.outputs), Notified(t).0, Notified(t).1)
            && builder.outputs == OutputsAfter(answers, old(builder.outputs), Notified(t).1)
  {
    hide RoundEvents, RoundEnd, RoundVerdict, StatusAfter, OutputsAfter, Reported, AnswersAll;
    var shapes := builder.GetInitialOutputShapes();
    var allowFallback := allowFallback0 && !isSimpleCpu;
    ghost var t := TraceOf(rounds, full, isSimple, allowFallback, shapes);
    events := [];
    assert rounds[0..] == rounds && Before([], t) == t;
    var i := 0;
    while true
      invariant 0 <= i <= |rounds|
      invariant callback.Valid() && !callback.notified && callback.onFinish == builder
      invariant builder.outputs == old(builder.outputs) && builder.started == old(builder.started)
      invariant callback.notifications == old(callback.notifications)
      invariant Before(events, TraceOf(rounds[i..], full, isSimple, allowFallback, shapes)) == t
      decreases |rounds| - i
    {
      if i == |rounds| || rounds[i].next.EndOfPlan? {
        callback.NotifyInternal(false, NONE, shapes, answers);
        return;
      }
      if rounds[i].next.NextFailed? {
        var n := rounds[i].next.code;
        if allowFallback && !MissedDeadline(n) { break; }
        callback.NotifyInternal(false, StatusOf(n), [], answers);
        return;
      }
      assert rounds[i] in rounds && rounds[i..][0] == rounds[i] && rounds[i..][1..] == rounds[i + 1..];
      var verdict;
      ghost var more;
      verdict, shapes, more := Attempt(rounds[i], shapes, allowFallback, isSimple);
      i := i + 1;
      ghost var earlier := events;
      events := events + more;
      match verdict {
        case GoOn =>
          EventsAdd(earlier, more, TraceOf(rounds[i..], full, isSimple, allowFallback, shapes));
        case Report(code, reported) =>
          callback.NotifyInternal(false, StatusOf(code), reported, answers);
          return;
        case FallBack =>
          EventsAdd(earlier, more, FullTrace(full));
          break;
      }
    }
    events := events + [FullFallback(full.code)];
    callback.NotifyInternal(false, StatusOf(full.code), full.shapes, answers);
  }

  lemma EventsAdd(a: seq<Event>, b: seq<Event>, t: Trace)
    ensures Before(a, Before(b, t)) == Before(a + b, t)
  {
    assert a + (b + t.events) == a + b + t.events;
  }

  /** Computes once: a second call does nothing. The end of the execution is recorded
      before the result, which is that of the trace, is returned. */
  method Compute(builder: ExecutionBuilder, specified: bool, rounds: seq<Round>, full: Computed, isSimple: bool, isSimpleCpu: bool, allowFallback: bool,
                 answers: Answers)
    returns (result: Option<Code>)
    requires (builder.finished ==> builder.started) && AnswersAll(answers)
    requires forall round :: round in rounds ==> IsPossible(round)
    modifies builder
    ensures builder.finished ==> builder.started
    ensures result.None? <==> old(builder.started) || !specified
    ensures result.None? ==>
              builder.started == old(builder.started) && builder.finished == old(builder.finished) && builder.outputs == old(builder.outputs)
              && builder.completion == old(builder.completion)
    ensures var t := TraceOf(rounds, full, isSimple, allowFallback && !isSimpleCpu, Initial(old(builder.outputs)));
            result.Some? ==>
              && builder.started && builder.finished
              && result.value == CodeOf(StatusAfter(answers, old(builder.outputs), Notified(t).0, Notified(t).1))
              && builder.outputs == OutputsAfter(answers, old(builder.outputs), Notified(t).1)
  {
    hide StatusAfter, OutputsAfter, TraceOf, Notified;
    if builder.started { return None; }
    if !specified { return None; }
    builder.started := true;
    var callback := new ExecutionCallback();
    callback.SetOnFinish(builder);
    var _ := AsyncStartComputePartitioned(rounds, full, isSimple, isSimpleCpu, allowFallback, builder, callback, answers);
    result := Some(CodeOf(callback.errorStatus));
  }

  /** A result of success means that the last thing tried succeeded, and that its shapes were
      taken over, so that the outputs are more specific than they were. */
  lemma SuccessIsEarned(rounds: seq<Round>, full: Computed, isSimple: bool, allowFallback: bool, outputs: seq<OutputShape>, answers: Answers)
    requires AnswersAll(answers) && forall round :: round in rounds ==> IsPossible(round)
    ensures var t := TraceOf(rounds, full, isSimple, allowFallback, Initial(outputs));
            && (StatusAfter(answers, outputs, Notified(t).0, Notified(t).1) == NONE <==>
                  t.code == NO_ERROR && CanTake(answers, outputs, t.shapes) && answers.memoriesUpdated(OutputsAfter(answers, outputs, t.shapes)))
            && (t.code == NO_ERROR ==> LastCode(t.events) == NO_ERROR)
            && AllSpecify(outputs, OutputsAfter(answers, outputs, Notified(t).1))
  {
    CodesRoundTrip(NONE, TraceOf(rounds, full, isSimple, allowFallback, Initial(outputs)).code);
    CodeIsOfTheLast(rounds, full, isSimple, allowFallback, Initial(outputs));
    CodeIsAnError(rounds, full, isSimple, allowFallback, Initial(outputs));
    AllSpecifySame(outputs);
    hide TraceOf, AllSpecify, StatusOf;
  }

  lemma CodeIsAnError(rounds: seq<Round>, full: Computed, isSimple: bool, allowFallback: bool, shapes: seq<OutputShape>)
    requires forall round :: round in rounds ==> IsPossible(round)
    ensures var t := TraceOf(rounds, full, isSimple, allowFallback, shapes);
            t.code == NO_ERROR ==> LastCode(t.events) == NO_ERROR
  {
    CodeIsOfTheLast(rounds, full, isSimple, allowFallback, shapes);
    hide TraceOf;
  }
}
