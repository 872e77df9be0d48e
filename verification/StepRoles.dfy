/** Which inputs and outputs of step models are a given input or output of the main model. */
module StepRoles {
  import opened Models
  import opened FlatPlans
  import opened ExecutionSteps

  datatype IOType = INPUT | OUTPUT

  // An input or output of the step model of a step.
  datatype Role = Role(step: nat, io: IOType, position: nat)

  /** What finishing a step model leaves, as far as its main inputs and outputs go. */
  ghost predicate IsFinished(main: Model, b: StepBoundary) {
    if b.sourceModelIndex != 0 then b.inputToMain == b.outputToMain == b.outputsAsInputsToMain == []
    else
      var p, q, n := |b.inputToMain|, |b.outputsAsInputsToMain|, |b.inputs|;
      && p + q <= n && |b.outputToMain| <= |b.outputs|
      && (forall i, j :: 0 <= i < j < n ==> b.inputs[i].0 != b.inputs[j].0)
      && (forall i :: 0 <= i < p ==> IsListed(main.inputIndexes, b.inputToMain[i], b.inputs[i].0))
      && (forall i :: p <= i < n - q ==> IsTemporary(main, b.inputs[i].0))
      && (forall i :: 0 <= i < q ==> IsListed(main.outputIndexes, b.outputsAsInputsToMain[i], b.inputs[n - q + i].0))
      && (forall i :: 0 <= i < |b.outputToMain| ==> IsListed(main.outputIndexes, b.outputToMain[i], b.outputs[i].0))
      && (forall i :: |b.outputToMain| <= i < |b.outputs| ==> IsTemporary(main, b.outputs[i].0))
  }

  predicate IsListed(indexes: seq<nat>, position: nat, x: nat) {
    position < |indexes| && indexes[position] == x
  }

  predicate IsTemporary(main: Model, x: nat) {
    x < |main.operands| && main.operands[x].lifetime == TemporaryVariable
  }

  lemma DistinctInParts(main: Model, e: seq<nat>)
    requires Distinct(e)
    ensures var all := Only(e, main, SubgraphInput) + Only(e, main, TemporaryVariable) + Only(e, main, SubgraphOutput);
            Distinct(all)
  {
    var ins, temporaries, outs := Only(e, main, SubgraphInput), Only(e, main, TemporaryVariable), Only(e, main, SubgraphOutput);
    hide Only;
    PartsApart(ins, temporaries);
    PartsApart(ins + temporaries, outs);
  }

  lemma PartsApart(a: seq<nat>, b: seq<nat>)
    requires Distinct(a) && Distinct(b) && forall x :: x in a ==> x !in b
    ensures Distinct(a + b)
  {
    forall i, j | 0 <= i < j < |a + b| ensures (a + b)[i] != (a + b)[j] {
      if i < |a| <= j { assert a[i] in a && b[j - |a|] in b; }
    }
  }

  lemma BoundaryIsFinished(main: Model, b: StepBoundary, f: map<nat, nat>, ops: seq<Operation>, temps: seq<nat>)
    requires forall x :: x in StepInputs(main, ops) ==> x in f
    requires forall x :: x in Only(Written(ops), main, SubgraphOutput) + temps ==> x in f
    requires forall x :: x in temps ==> IsTemporary(main, x)
    requires IsBoundary(b, main, f, ops, temps)
    ensures IsFinished(main, b)
  {
    if b.sourceModelIndex == 0 {
      hide Written, Externals;
      var e := Externals(ops, {});
      DistinctInParts(main, e);
      var ins, temporaries, outs := Only(e, main, SubgraphInput), Only(e, main, TemporaryVariable), Only(e, main, SubgraphOutput);
      var written := Only(Written(ops), main, SubgraphOutput);
      forall i | 0 <= i < |temporaries| ensures IsTemporary(main, temporaries[i]) {
        assert temporaries[i] in temporaries;
      }
      hide Only, IsTemporary;
      InputsFinish(main, b, f, ins, temporaries, outs);
      forall i | |b.outputToMain| <= i < |b.outputs| ensures IsTemporary(main, b.outputs[i].0) {
        assert b.outputs[i].0 == temps[i - |written|];
        assert temps[i - |written|] in temps;
      }
      forall i | 0 <= i < |b.outputToMain| ensures IsListed(main.outputIndexes, b.outputToMain[i], b.outputs[i].0) {
        assert b.outputs[i].0 == written[i];
      }
    }
  }

  lemma InputsFinish(main: Model, b: StepBoundary, f: map<nat, nat>, ins: seq<nat>, temporaries: seq<nat>, outs: seq<nat>)
    requires forall x :: x in ins + temporaries + outs ==> x in f
    requires b.inputs == Paired(f, ins + temporaries + outs) && Distinct(ins + temporaries + outs)
    requires ArePositions(main.inputIndexes, ins, b.inputToMain) && ArePositions(main.outputIndexes, outs, b.outputsAsInputsToMain)
    requires forall i :: 0 <= i < |temporaries| ==> IsTemporary(main, temporaries[i])
    ensures var p, q, n := |b.inputToMain|, |b.outputsAsInputsToMain|, |b.inputs|;
            && p + q <= n
            && (forall i, j :: 0 <= i < j < n ==> b.inputs[i].0 != b.inputs[j].0)
            && (forall i :: 0 <= i < p ==> IsListed(main.inputIndexes, b.inputToMain[i], b.inputs[i].0))
            && (forall i :: p <= i < n - q ==> IsTemporary(main, b.inputs[i].0))
            && (forall i :: 0 <= i < q ==> IsListed(main.outputIndexes, b.outputsAsInputsToMain[i], b.inputs[n - q + i].0))
  {
    hide IsTemporary;
    var all, p, q, n := ins + temporaries + outs, |b.inputToMain|, |b.outputsAsInputsToMain|, |b.inputs|;
    assert forall i :: 0 <= i < n ==> b.inputs[i].0 == all[i];
    assert forall i :: 0 <= i < p ==> all[i] == ins[i];
    assert forall i :: p <= i < n - q ==> all[i] == temporaries[i - p];
    assert forall i :: 0 <= i < q ==> all[n - q + i] == outs[i];
  }

  /** The input or output of the step is operand x of the main model. */
  predicate Names(steps: seq<StepBoundary>, r: Role, x: nat) {
    && r.step < |steps| && steps[r.step].sourceModelIndex == 0
    && var list := if r.io == INPUT then steps[r.step].inputs else steps[r.step].outputs;
       r.position < |list| && list[r.position].0 == x
  }

  ghost predicate AllFinished(main: Model, steps: seq<StepBoundary>) {
    && ListsLifetime(main.inputIndexes, main.operands, SubgraphInput)
    && ListsLifetime(main.outputIndexes, main.operands, SubgraphOutput)
    && forall s :: 0 <= s < |steps| ==> IsFinished(main, steps[s])
  }

  // The roles at the positions where a list has a main index.
  method RolesAt(step: nat, positions: seq<nat>, index: nat) returns (roles: set<Role>)
    ensures forall r :: r in roles <==> r.step == step && r.io == INPUT && r.position < |positions| && positions[r.position] == index
  {
    roles := {};
    for i := 0 to |positions|
      invariant forall r :: r in roles <==> r.step == step && r.io == INPUT && r.position < i && positions[r.position] == index
    {
      if positions[i] == index { roles := roles + {Role(step, INPUT, i)}; }
    }
  }

  /** The roles of a main input are the inputs of steps that are that operand. */
  method RolesOfInput(ghost main: Model, steps: seq<StepBoundary>, index: nat) returns (roles: set<Role>)
    requires AllFinished(main, steps) && index < |main.inputIndexes|
    ensures forall r :: r in roles <==> r.io == INPUT && Names(steps, r, main.inputIndexes[index])
  {
    hide AllFinished, Names;
    roles := {};
    for s := 0 to |steps|
      invariant forall r :: r in roles <==> r.io == INPUT && r.step < s && Names(steps, r, main.inputIndexes[index])
    {
      var more := RolesAt(s, steps[s].inputToMain, index);
      forall r: Role | r.io == INPUT && r.step == s
        ensures Names(steps, r, main.inputIndexes[index]) <==> r.position < |steps[s].inputToMain| && steps[s].inputToMain[r.position] == index
      {
        InputIsNamed(main, steps, r, index);
      }
      roles := roles + more;
    }
    AllInRange(steps, main.inputIndexes[index], index);
  }

  lemma InputIsNamed(main: Model, steps: seq<StepBoundary>, r: Role, index: nat)
    requires AllFinished(main, steps) && index < |main.inputIndexes| && r.step < |steps| && r.io == INPUT
    ensures Names(steps, r, main.inputIndexes[index]) <==>
            r.position < |steps[r.step].inputToMain| && steps[r.step].inputToMain[r.position] == index
  {
    var b, i, x := steps[r.step], r.position, main.inputIndexes[index];
    assert x in main.inputIndexes;
    if b.sourceModelIndex == 0 && i < |b.inputs| {
      var p, q, n := |b.inputToMain|, |b.outputsAsInputsToMain|, |b.inputs|;
      if i < p {
        assert IsListed(main.inputIndexes, b.inputToMain[i], b.inputs[i].0);
      } else if i < n - q {
        assert IsTemporary(main, b.inputs[i].0);
      } else {
        assert IsListed(main.outputIndexes, b.outputsAsInputsToMain[i - (n - q)], b.inputs[n - q + (i - (n - q))].0);
        assert b.inputs[i].0 in main.outputIndexes;
      }
    }
  }

  /** The first output of a step that is a main output. */
  ghost predicate IsFirst(steps: seq<StepBoundary>, r: Role, x: nat) {
    && r.io == OUTPUT && Names(steps, r, x)
    && forall o: Role :: o.io == OUTPUT && Names(steps, o, x) ==> r.step < o.step || (r.step == o.step && r.position <= o.position)
  }

  method FirstAt(positions: seq<nat>, index: nat) returns (i: nat)
    ensures i <= |positions| && (i < |positions| ==> positions[i] == index)
    ensures forall j :: 0 <= j < i ==> positions[j] != index
  {
    i := 0;
    while i < |positions| && positions[i] != index
      invariant i <= |positions| && forall j :: 0 <= j < i ==> positions[j] != index
    {
      i := i + 1;
    }
  }

  // What is reported as an input of step s that is a main output: the position among the main
  // outputs that the step reads.
  predicate IsReportedInput(steps: seq<StepBoundary>, r: Role, index: nat) {
    && r.io == INPUT && r.step < |steps| && r.position < |steps[r.step].outputsAsInputsToMain|
    && steps[r.step].outputsAsInputsToMain[r.position] == index
  }

  /** The roles of a main output: the output that writes it, and one input for each step
      that reads it. */
  method RolesOfOutput(ghost main: Model, steps: seq<StepBoundary>, index: nat) returns (roles: set<Role>)
    requires AllFinished(main, steps) && index < |main.outputIndexes|
    ensures forall r :: r in roles <==> IsFirst(steps, r, main.outputIndexes[index]) || IsReportedInput(steps, r, index)
  {
    hide AllFinished, Names, IsFirst, IsReportedInput;
    roles := {};
    ghost var x := main.outputIndexes[index];
    var found := false;
    for s := 0 to |steps|
      invariant forall r :: r in roles <==> r.step < s && (IsFirst(steps, r, x) || IsReportedInput(steps, r, index))
      invariant found <==> exists o: Role :: o.io == OUTPUT && o.step < s && Names(steps, o, x)
    {
      ghost var before := found;
      var own: set<Role> := {};
      if !found {
        var i := FirstAt(steps[s].outputToMain, index);
        if i < |steps[s].outputToMain| {
          own := {Role(s, OUTPUT, i)};
          found := true;
        }
        FirstOfStep(main, steps, s, index, i);
      } else {
        LaterIsNotFirst(steps, s, x);
      }
      var more := RolesAt(s, steps[s].outputsAsInputsToMain, index);
      ReportedOfStep(steps, s, index);
      roles := roles + own + more;
    }
    AllInRange(steps, x, index);
  }

  lemma ReportedOfStep(steps: seq<StepBoundary>, s: nat, index: nat)
    requires s < |steps|
    ensures forall r: Role :: r.step == s ==> (IsReportedInput(steps, r, index) <==>
              r.io == INPUT && r.position < |steps[s].outputsAsInputsToMain| && steps[s].outputsAsInputsToMain[r.position] == index)
  {
  }

  lemma LaterIsNotFirst(steps: seq<StepBoundary>, s: nat, x: nat)
    requires exists o: Role :: o.io == OUTPUT && o.step < s && Names(steps, o, x)
    ensures forall r: Role :: r.step == s ==> !IsFirst(steps, r, x)
  {
  }

  lemma OutputIsNamed(main: Model, steps: seq<StepBoundary>, r: Role, index: nat)
    requires AllFinished(main, steps) && index < |main.outputIndexes| && r.step < |steps| && r.io == OUTPUT
    ensures Names(steps, r, main.outputIndexes[index]) <==>
            r.position < |steps[r.step].outputToMain| && steps[r.step].outputToMain[r.position] == index
  {
    var b, i, x := steps[r.step], r.position, main.outputIndexes[index];
    assert x in main.outputIndexes;
    if b.sourceModelIndex == 0 && i < |b.outputs| {
      if i < |b.outputToMain| {
        assert IsListed(main.outputIndexes, b.outputToMain[i], b.outputs[i].0);
      } else {
        assert IsTemporary(main, b.outputs[i].0);
      }
    }
  }

  lemma FirstOfStep(main: Model, steps: seq<StepBoundary>, s: nat, index: nat, i: nat)
    requires AllFinished(main, steps) && index < |main.outputIndexes| && s < |steps| && i <= |steps[s].outputToMain|
    requires (i < |steps[s].outputToMain| ==> steps[s].outputToMain[i] == index) && forall j :: 0 <= j < i ==> steps[s].outputToMain[j] != index
    requires forall o: Role :: o.io == OUTPUT && o.step < s ==> !Names(steps, o, main.outputIndexes[index])
    ensures forall r: Role :: r.step == s ==> (IsFirst(steps, r, main.outputIndexes[index]) <==> r == Role(s, OUTPUT, i) && i < |steps[s].outputToMain|)
    ensures i < |steps[s].outputToMain| <==> exists o: Role :: o.io == OUTPUT && o.step == s && Names(steps, o, main.outputIndexes[index])
  {
    hide AllFinished, Names;
    var x := main.outputIndexes[index];
    forall r: Role | r.step == s && r.io == OUTPUT
      ensures Names(steps, r, x) <==> r.position < |steps[s].outputToMain| && steps[s].outputToMain[r.position] == index
    {
      OutputIsNamed(main, steps, r, index);
    }
    if i < |steps[s].outputToMain| { assert Names(steps, Role(s, OUTPUT, i), x); }
  }

  // ----- are the roles of an output right? -----

  /** The inputs that are reported are the inputs of steps that are the operand. */
  ghost predicate InputsAreRight(main: Model, steps: seq<StepBoundary>, index: nat)
    requires index < |main.outputIndexes|
  {
    forall r: Role :: IsReportedInput(steps, r, index) <==> r.io == INPUT && Names(steps, r, main.outputIndexes[index])
  }

  /** Every step that reads the main output reads nothing but main outputs. */
  ghost predicate ReadWithOutputsOnly(steps: seq<StepBoundary>, index: nat) {
    forall s :: 0 <= s < |steps| && index in steps[s].outputsAsInputsToMain ==> |steps[s].inputs| == |steps[s].outputsAsInputsToMain|
  }

  lemma ReadOutputIsNamed(main: Model, steps: seq<StepBoundary>, r: Role, index: nat)
    requires AllFinished(main, steps) && index < |main.outputIndexes| && r.step < |steps| && r.io == INPUT
    ensures |steps[r.step].outputsAsInputsToMain| <= |steps[r.step].inputs|
    ensures Names(steps, r, main.outputIndexes[index]) <==>
            var b := steps[r.step];
            var skipped := |b.inputs| - |b.outputsAsInputsToMain|;
            && skipped <= r.position < |b.inputs| && b.outputsAsInputsToMain[r.position - skipped] == index
  {
    var b, i, x := steps[r.step], r.position, main.outputIndexes[index];
    assert x in main.outputIndexes;
    if b.sourceModelIndex == 0 && i < |b.inputs| {
      var p, q, n := |b.inputToMain|, |b.outputsAsInputsToMain|, |b.inputs|;
      if i < p {
        assert IsListed(main.inputIndexes, b.inputToMain[i], b.inputs[i].0);
        assert b.inputs[i].0 in main.inputIndexes;
      } else if i < n - q {
        assert IsTemporary(main, b.inputs[i].0);
      } else {
        assert IsListed(main.outputIndexes, b.outputsAsInputsToMain[i - (n - q)], b.inputs[n - q + (i - (n - q))].0);
      }
    }
  }

  /** The inputs that are reported for a main output are right if and only if the steps that
      read it have no other kind of input. */
  lemma InputsAreRightExactly(main: Model, steps: seq<StepBoundary>, index: nat)
    requires AllFinished(main, steps) && index < |main.outputIndexes|
    ensures InputsAreRight(main, steps, index) <==> ReadWithOutputsOnly(steps, index)
  {
    hide AllFinished, Names;
    AllInRange(steps, main.outputIndexes[index], index);
    if ReadWithOutputsOnly(steps, index) {
      forall r: Role ensures IsReportedInput(steps, r, index) <==> r.io == INPUT && Names(steps, r, main.outputIndexes[index]) {
        if r.step < |steps| && r.io == INPUT {
          ReadOutputIsNamed(main, steps, r, index);
        }
      }
    } else {
      var s: nat :| s < |steps| && index in steps[s].outputsAsInputsToMain && |steps[s].inputs| != |steps[s].outputsAsInputsToMain|;
      var i :| 0 <= i < |steps[s].outputsAsInputsToMain| && steps[s].outputsAsInputsToMain[i] == index;
      var b, x := steps[s], main.outputIndexes[index];
      ReadOutputIsNamed(main, steps, Role(s, INPUT, i), index);
      var reported, right := Role(s, INPUT, i), Role(s, INPUT, |b.inputs| - |b.outputsAsInputsToMain| + i);
      ReadOutputIsNamed(main, steps, right, index);
      assert IsReportedInput(steps, reported, index) && Names(steps, right, x);
      if Names(steps, reported, x) { NamedOnce(main, steps, reported, right, x); }
    }
  }

  lemma NamedOnce(main: Model, steps: seq<StepBoundary>, r: Role, r': Role, x: nat)
    requires AllFinished(main, steps) && r.step == r'.step && r.io == INPUT && r'.io == INPUT
    requires Names(steps, r, x) && Names(steps, r', x)
    ensures r == r'
  {
  }

  lemma AllInRange(steps: seq<StepBoundary>, x: nat, index: nat)
    ensures forall r: Role :: Names(steps, r, x) ==> r.step < |steps|
    ensures forall r: Role :: IsFirst(steps, r, x) ==> r.step < |steps|
    ensures forall r: Role :: IsReportedInput(steps, r, index) ==> r.step < |steps|
  {
  }

  /** A step that reads main input 0 and main output 1: what is reported as the input that is
      the main output is the input that is the main input. */
  lemma ReportsTheWrongInput()
    ensures
      var scalar := OperandType(0, [], 0.0, 0, []);
      var main := Model([Operand(scalar, SubgraphInput, 1, []), Operand(scalar, SubgraphOutput, 1, [])], [], [0], [1]);
      var steps := [StepBoundary(0, [(0, 0), (1, 1)], [], [0], [], [0])];
      && AllFinished(main, steps) && IsReportedInput(steps, Role(0, INPUT, 0), 0)
      && Names(steps, Role(0, INPUT, 0), 0) && Names(steps, Role(0, INPUT, 1), 1) && !InputsAreRight(main, steps, 0)
  {
    var scalar := OperandType(0, [], 0.0, 0, []);
    var main := Model([Operand(scalar, SubgraphInput, 1, []), Operand(scalar, SubgraphOutput, 1, [])], [], [0], [1]);
    var steps := [StepBoundary(0, [(0, 0), (1, 1)], [], [0], [], [0])];
    assert main.inputIndexes[0] == 0 && main.outputIndexes[0] == 1;
    assert 0 in main.inputIndexes && 1 in main.outputIndexes;
    assert IsFinished(main, steps[0]) && AllFinished(main, steps);
    assert IsReportedInput(steps, Role(0, INPUT, 0), 0) && !Names(steps, Role(0, INPUT, 0), 1);
  }
}
