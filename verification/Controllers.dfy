/** The controller of a run: four maps that say where operands are, updated in place
    by the steps for control flow. It is proved to take the steps of the machine. */
module Controllers {
  import opened Sequences
  import opened Options
  import opened Models
  import opened Semantics
  import opened Scheduling
  import opened FlatPlans
  import opened Machine
  import opened Progress
  import opened Places
  import opened Ownership

  // What a call of next() gives its caller.
  datatype Next = Execute(step: nat) | Finished | OpFailed

  const BAD_STEP_INDEX: int := -1

  // What a device computes for a step model from the values of its inputs.
  function RunStep(k: Kernels, step: LogicalStep, args: seq<Bytes>): Outcome<Env>
    requires step.ExecutionStep? && |args| == |step.stepInputs|
  {
    RunOperations(k, 0, step.operations, Bind(Constants(step.model), step.stepInputs, args))
  }

  ghost function Stored(store: map<Location, Bytes>, ls: Locations, keys: seq<Key>, vals: seq<Bytes>): map<Location, Bytes>
    requires |keys| == |vals| && forall k :: k in keys ==> k in ls
  {
    Bind(store, Locate(ls, keys), vals)
  }

  lemma {:induction false} StoredAppend(store: map<Location, Bytes>, ls: Locations, keys: seq<Key>, vals: seq<Bytes>, i: nat)
    requires |keys| == |vals| && (forall k :: k in keys ==> k in ls) && i < |keys|
    ensures (forall k :: k in keys[..i] ==> k in ls) && (forall k :: k in keys[..i + 1] ==> k in ls)
    ensures keys[i] in ls
    ensures Stored(store, ls, keys[..i + 1], vals[..i + 1]) == Stored(store, ls, keys[..i], vals[..i])[ls[keys[i]] := vals[i]]
  {
    hide Bind;
    assert keys[i] in keys;
    assert keys[..i + 1] == keys[..i] + [keys[i]] && vals[..i + 1] == vals[..i] + [vals[i]];
    assert Locate(ls, keys[..i + 1]) == Locate(ls, keys[..i]) + [ls[keys[i]]];
    BindAppend(store, Locate(ls, keys[..i]), vals[..i], ls[keys[i]], vals[i]);
  }

  ghost predicate Swappable(l: Locations, l2: Locations, ks: seq<Key>)
    ensures Swappable(l, l2, ks) ==> forall k :: k in ks ==> k in l && k in l2
  {
    forall k :: k in ks ==> k in l && l[k].Slot? && k in l2
  }

  lemma ExchangeNothing(l: Locations, l2: Locations, ks: seq<Key>)
    ensures Swappable(l, l2, ks[..0])
    ensures Exchange(l, l2, ks[..0]) == l && Exchange(l2, l, ks[..0]) == l2
  {
  }

  lemma ExchangeOneMore(l: Locations, l2: Locations, ks: seq<Key>, i: nat)
    requires Swappable(l, l2, ks) && Distinct(ks) && i < |ks|
    ensures Swappable(l, l2, ks[..i]) && Swappable(l, l2, ks[..i + 1]) && ks[i] in ks
    ensures l[ks[i]].Slot?
    ensures Exchange(l, l2, ks[..i + 1]) == Exchange(l, l2, ks[..i])[ks[i] := l2[ks[i]]]
    ensures Exchange(l2, l, ks[..i + 1]) == Exchange(l2, l, ks[..i])[ks[i] := l[ks[i]]]
    ensures Exchange(l, l2, ks[..i])[ks[i]] == l[ks[i]] && Exchange(l2, l, ks[..i])[ks[i]] == l2[ks[i]]
  {
    assert ks[..i + 1] == ks[..i] + [ks[i]] && ks[i] !in ks[..i];
    assert forall k :: k in ks[..i] ==> k in ks;
    ExchangeAppend(l, l2, ks[..i], ks[i]);
    ExchangeAppend(l2, l, ks[..i], ks[i]);
  }

  class Controller {
    const code: seq<LogicalStep>
    ghost const layout: Layout

    var offsetOfTemporary: map<Key, nat>
    var offsetOfTemporary2: map<Key, nat>
    var inputIndex: map<Key, nat>
    var outputIndex: map<Key, nat>
    var constantReference: map<Key, Key>
    var memory: map<Place, Bytes>
    var nextStepIndex: int
    var fallbackNextStepIndex: int
    var whileState: map<nat, WhileState>

    constructor (code: seq<LogicalStep>, ghost layout: Layout, offsetOfTemporary: map<Key, nat>, offsetOfTemporary2: map<Key, nat>,
                 inputIndex: map<Key, nat>, outputIndex: map<Key, nat>, constantReference: map<Key, Key>, memory: map<Place, Bytes>)
      ensures this.code == code && this.layout == layout
      ensures Current() == Maps(offsetOfTemporary, inputIndex, outputIndex, constantReference)
      ensures this.offsetOfTemporary2 == offsetOfTemporary2 && this.memory == memory
      ensures nextStepIndex == 0 && fallbackNextStepIndex == BAD_STEP_INDEX && whileState == map[]
    {
      this.code, this.layout := code, layout;
      this.offsetOfTemporary, this.offsetOfTemporary2 := offsetOfTemporary, offsetOfTemporary2;
      this.inputIndex, this.outputIndex := inputIndex, outputIndex;
      this.constantReference, this.memory := constantReference, memory;
      nextStepIndex, fallbackNextStepIndex, whileState := 0, BAD_STEP_INDEX, map[];
    }

    function Current(): Maps
      reads this
    {
      Maps(offsetOfTemporary, inputIndex, outputIndex, constantReference)
    }

    /** Every place was laid out. */
    ghost predicate Valid()
      reads this
    {
      && Current().Fits(layout)
      && (forall k :: k in offsetOfTemporary2 ==> offsetOfTemporary2[k] in layout)
      && Holdable(layout, memory)
    }

    /** Control is at a step of the plan. */
    ghost predicate AtStep()
      reads this
    {
      Valid() && 0 <= nextStepIndex < |code|
    }

    /** A key is in at most one of the four maps. */
    ghost predicate AtMostOnce()
      reads this
    {
      Current().Disjoint()
    }

    ghost function Locations(): Locations
      requires Valid()
      reads this
    {
      Current().Locations(layout)
    }

    ghost function Locations2(): Locations
      requires Valid()
      reads this
    {
      map k | k in offsetOfTemporary2 :: layout[offsetOfTemporary2[k]]
    }

    /** What steps write can be written, here and after every step. */
    ghost predicate Tidy()
      requires Valid()
      reads this
    {
      Separated(code) && (forall p :: 0 <= p < |code| ==> WritableAt(Locations(), OutKeys(code[p]))) && AllSlots(Locations2())
    }

    /** The state of the machine that this controller stands for. */
    ghost function Snapshot(pc: nat): State
      requires Valid()
      reads this
    {
      State(pc, Locations(), Locations2(), whileState, StoreOf(layout, memory))
    }

    // ----- moving operands -----

    method EraseOperand(k: Key)
      requires Valid()
      modifies this`offsetOfTemporary, this`inputIndex, this`outputIndex, this`constantReference
      ensures Current() == old(Current()).Erase(k)
    {
      offsetOfTemporary := offsetOfTemporary - {k};
      inputIndex := inputIndex - {k};
      outputIndex := outputIndex - {k};
      constantReference := constantReference - {k};
    }

    method CopyOperand(outer: Key, inner: Key) returns (ok: bool)
      modifies this`offsetOfTemporary, this`inputIndex, this`outputIndex, this`constantReference
      ensures ok <==> old(Current()).Find(outer).Some?
      ensures Current() == if ok then old(Current()).Put(inner, old(Current()).Find(outer).value) else old(Current())
    {
      ok := true;
      if outer in offsetOfTemporary {
        offsetOfTemporary := offsetOfTemporary[inner := offsetOfTemporary[outer]];
      } else if outer in inputIndex {
        inputIndex := inputIndex[inner := inputIndex[outer]];
      } else if outer in outputIndex {
        outputIndex := outputIndex[inner := outputIndex[outer]];
      } else if outer in constantReference {
        constantReference := constantReference[inner := constantReference[outer]];
      } else {
        ok := false;
      }
    }

    // The first argument is the source, the second the destination.
    method SetInput(outer: Key, inner: Key) returns (ok: bool)
      requires Valid()
      modifies this`offsetOfTemporary, this`inputIndex, this`outputIndex, this`constantReference
      ensures Valid() && (old(AtMostOnce()) ==> AtMostOnce())
      ensures ok ==> Machine.SetInput(old(Locations()), outer, inner) == Some(Locations())
      ensures !ok ==> Machine.SetInput(old(Locations()), outer, inner) == None && Current() == old(Current()).Erase(inner)
    {
      hide Machine.SetInput, Maps.Fits, Maps.Disjoint, Maps.Locations, Holdable, Maps.Erase, Maps.Put, Maps.Find, Maps.Domain;
      InputMovedAgrees(Current(), layout, outer, inner);
      ErasedDomain(Current(), inner);
      EraseOperand(inner);
      ok := CopyOperand(outer, inner);
    }

    method SetOutput(outer: Key, inner: Key) returns (ok: bool)
      requires Valid()
      modifies this`offsetOfTemporary, this`outputIndex
      ensures Valid()
      ensures Machine.SetOutput(old(Locations()), outer, inner).Some? && old(AtMostOnce()) ==>
                ok && AtMostOnce() && Machine.SetOutput(old(Locations()), outer, inner) == Some(Locations())
      ensures ok <==> outer != inner && (outer in old(offsetOfTemporary) || outer in old(outputIndex))
      ensures ok && WritableAt(old(Locations()), {outer, inner}) ==> Machine.SetOutput(old(Locations()), outer, inner).Some?
      ensures !ok ==> offsetOfTemporary == old(offsetOfTemporary) - {inner} && outputIndex == old(outputIndex) - {inner}
    {
      hide Machine.SetOutput, Maps.Disjoint, Maps.Locations, Maps.Fits, Maps.Domain, Maps.Find, Maps.Put, Holdable, Proper, WritableAt, Where, OutputMoved;
      OutputMovedIs(Current(), outer, inner);
      OutputErasedFits(Current(), layout, inner);
      OutputMovedAgrees(Current(), layout, outer, inner);
      OutputCanMove(outer, inner);
      offsetOfTemporary := offsetOfTemporary - {inner};
      outputIndex := outputIndex - {inner};
      if outer in offsetOfTemporary {
        offsetOfTemporary := offsetOfTemporary[inner := offsetOfTemporary[outer]];
        ok := true;
      } else if outer in outputIndex {
        outputIndex := outputIndex[inner := outputIndex[outer]];
        ok := true;
      } else {
        ok := false;
      }
      assert ok ==> Some(Current()) == OutputMoved(old(Current()), outer, inner);
    }

    lemma OutputCanMove(outer: Key, inner: Key)
      requires Valid()
      ensures outer != inner && (outer in offsetOfTemporary || outer in outputIndex) && WritableAt(Locations(), {outer, inner}) ==>
                Machine.SetOutput(Locations(), outer, inner).Some?
    {
      hide Maps.Fits, Holdable;
    }

    method SetInputs(outers: seq<Key>, inners: seq<Key>) returns (ok: bool)
      requires Valid() && |outers| == |inners|
      modifies this`offsetOfTemporary, this`inputIndex, this`outputIndex, this`constantReference
      ensures Valid() && (old(AtMostOnce()) ==> AtMostOnce())
      ensures ok ==> Machine.SetInputs(old(Locations()), outers, inners) == Some(Locations())
      ensures !ok ==> Machine.SetInputs(old(Locations()), outers, inners) == None
    {
      hide Maps.Fits, Maps.Disjoint, Maps.Locations, Holdable, Machine.SetInput;
      var i := 0;
      while i < |outers|
        invariant 0 <= i <= |outers|
        invariant Valid() && (old(AtMostOnce()) ==> AtMostOnce())
        invariant Machine.SetInputs(old(Locations()), outers[..i], inners[..i]) == Some(Locations())
      {
        OneMore(outers, i);
        OneMore(inners, i);
        SetInputsAppend(old(Locations()), outers[..i], inners[..i], outers[i], inners[i]);
        ok := SetInput(outers[i], inners[i]);
        i := i + 1;
        if !ok {
          if Machine.SetInputs(old(Locations()), outers, inners).Some? {
            SetInputsPrefix(old(Locations()), outers, inners, i);
          }
          return;
        }
      }
      AllTaken(outers);
      AllTaken(inners);
      ok := true;
    }

    method SetOutputs(outers: seq<Key>, inners: seq<Key>) returns (ok: bool)
      requires Valid() && |outers| == |inners|
      modifies this`offsetOfTemporary, this`outputIndex
      ensures Valid()
      ensures Machine.SetOutputs(old(Locations()), outers, inners).Some? && old(AtMostOnce()) ==>
                ok && AtMostOnce() && Machine.SetOutputs(old(Locations()), outers, inners) == Some(Locations())
      ensures ok && old(AtMostOnce()) && WritableAt(old(Locations()), AsSet(outers) + AsSet(inners)) ==> Machine.SetOutputs(old(Locations()), outers, inners).Some?
    {
      hide Maps.Fits, Maps.Disjoint, Maps.Locations, Holdable, Machine.SetOutput, WritableAt;
      ghost var ls, ks := Locations(), AsSet(outers) + AsSet(inners);
      ghost var can := AtMostOnce() && (Machine.SetOutputs(ls, outers, inners).Some? || WritableAt(ls, ks));
      var i := 0;
      while i < |outers|
        invariant 0 <= i <= |outers|
        invariant Valid() && (can ==> AtMostOnce())
        invariant can ==> Machine.SetOutputs(ls, outers[..i], inners[..i]) == Some(Locations())
      {
        OneMore(outers, i);
        OneMore(inners, i);
        SetOutputsAppend(ls, outers[..i], inners[..i], outers[i], inners[i]);
        if can && WritableAt(ls, ks) {
          OutputsKeepWritable(ls, outers[..i], inners[..i], ks);
          WritableInside(Locations(), ks, {outers[i], inners[i]});
        }
        if can && Machine.SetOutputs(ls, outers, inners).Some? { SetOutputsPrefix(ls, outers, inners, i + 1); }
        ok := SetOutput(outers[i], inners[i]);
        i := i + 1;
        if !ok { return; }
      }
      AllTaken(outers);
      AllTaken(inners);
      ok := true;
    }

    lemma WritableInside(ls: Locations, ks: set<Key>, some: set<Key>)
      requires WritableAt(ls, ks) && some <= ks
      ensures WritableAt(ls, some)
    {
    }

    // The place of an operand, looked up in the order of the four maps.
    method GetBuffer(k: Key) returns (r: Option<Place>)
      ensures r == Current().Find(k)
    {
      if k in offsetOfTemporary {
        r := Some(Temporary(offsetOfTemporary[k]));
      } else if k in inputIndex {
        r := Some(Argument(inputIndex[k]));
      } else if k in outputIndex {
        r := Some(Result(outputIndex[k]));
      } else if k in constantReference {
        r := Some(Reference(constantReference[k]));
      } else {
        r := None;
      }
    }

    method ReadConditionValue(k: Key) returns (r: Option<bool>)
      requires AtStep()
      ensures match Read(Snapshot(nextStepIndex), k)
              case Some(v) => r == Some(IsTrue(v)) && (r.value <==> v != [] && v[0] != 0)
              case None => r == None
    {
      hide Maps.Fits, Maps.Find, Holdable, Maps.Locations, StoreOf;
      var p := GetBuffer(k);
      ReadAgrees(layout, Current(), memory, Snapshot(nextStepIndex), k);
      r := None;
      if p.Some? && p.value in memory {
        r := Some(IsTrue(memory[p.value]));
      }
    }

    // Exchanges the two temporaries of an operand.
    method SwapBuffer(k: Key) returns (ok: bool)
      requires Valid()
      modifies this`offsetOfTemporary, this`offsetOfTemporary2
      ensures Valid() && (old(AtMostOnce()) ==> AtMostOnce())
      ensures k in old(Locations()) && old(Locations())[k].Slot? && k in old(Locations2()) ==>
                && ok
                && Locations() == old(Locations())[k := old(Locations2())[k]]
                && Locations2() == old(Locations2())[k := old(Locations())[k]]
      ensures ok && WritableAt(old(Locations()), {k}) ==> k in old(Locations()) && old(Locations())[k].Slot? && k in old(Locations2())
    {
      hide WritableAt, Maps.Fits, Maps.Disjoint, Maps.Locations, Maps.Find, Maps.Domain, Holdable;
      SwapNeeds(k);
      if k in Locations() && Locations()[k].Slot? { SlotIsTemporary(Current(), layout, k); }
      if k !in offsetOfTemporary || k !in offsetOfTemporary2 {
        return false;
      }
      OffsetIsLaidOut(k);
      OffsetChanged(Current(), layout, k, offsetOfTemporary2[k]);
      offsetOfTemporary, offsetOfTemporary2 :=
        offsetOfTemporary[k := offsetOfTemporary2[k]], offsetOfTemporary2[k := offsetOfTemporary[k]];
      ok := true;
    }

    lemma SwapNeeds(k: Key)
      requires Valid()
      ensures k in offsetOfTemporary && k in offsetOfTemporary2 && WritableAt(Locations(), {k}) ==>
                k in Locations() && Locations()[k].Slot? && k in Locations2()
    {
      if k in offsetOfTemporary { OffsetIsLaidOut(k); }
    }

    method SwapBuffers(ks: seq<Key>) returns (ok: bool)
      requires Valid() && Distinct(ks)
      modifies this`offsetOfTemporary, this`offsetOfTemporary2
      ensures Valid() && (old(AtMostOnce()) ==> AtMostOnce())
      ensures Swappable(old(Locations()), old(Locations2()), ks) ==>
                && ok
                && Locations() == Exchange(old(Locations()), old(Locations2()), ks)
                && Locations2() == Exchange(old(Locations2()), old(Locations()), ks)
      ensures ok && WritableAt(old(Locations()), AsSet(ks)) ==> Swappable(old(Locations()), old(Locations2()), ks)
    {
      hide *;
      ghost var l, l2 := Locations(), Locations2();
      ghost var can := Swappable(l, l2, ks) || WritableAt(l, AsSet(ks));
      var i := 0;
      NothingSwapped(l, l2, ks);
      while i < |ks|
        invariant 0 <= i <= |ks|
        invariant Valid() && (old(AtMostOnce()) ==> AtMostOnce())
        invariant can ==> Swappable(l, l2, ks[..i]) && Locations() == Exchange(l, l2, ks[..i]) && Locations2() == Exchange(l2, l, ks[..i])
      {
        if can && WritableAt(l, AsSet(ks)) { NextIsWritable(l, l2, ks, i); }
        if can { NextSwapped(l, l2, ks, i); }
        ok := SwapBuffer(ks[i]);
        if !ok { return; }
        i := i + 1;
      }
      assert ks[..i] == ks;
      ok := true;
    }

    lemma NothingSwapped(l: Locations, l2: Locations, ks: seq<Key>)
      ensures Swappable(l, l2, ks[..0]) && Exchange(l, l2, ks[..0]) == l && Exchange(l2, l, ks[..0]) == l2
    {
      ExchangeNothing(l, l2, ks);
    }

    // The next operand is where it was.
    lemma NextIsWritable(l: Locations, l2: Locations, ks: seq<Key>, i: nat)
      requires WritableAt(l, AsSet(ks)) && Distinct(ks) && i < |ks| && Swappable(l, l2, ks[..i])
      ensures WritableAt(Exchange(l, l2, ks[..i]), {ks[i]})
    {
      assert ks[i] in ks && ks[i] !in ks[..i];
    }

    lemma NextSwapped(l: Locations, l2: Locations, ks: seq<Key>, i: nat)
      requires Distinct(ks) && i < |ks| && Swappable(l, l2, ks[..i])
      ensures Swappable(l, l2, ks) ==> Swappable(l, l2, ks[..i + 1])
      ensures ks[i] in Exchange(l, l2, ks[..i]) && Exchange(l, l2, ks[..i])[ks[i]].Slot? && ks[i] in Exchange(l2, l, ks[..i]) <==> Swappable(l, l2, ks[..i + 1])
      ensures Swappable(l, l2, ks[..i + 1]) ==>
                && Exchange(l, l2, ks[..i + 1]) == Exchange(l, l2, ks[..i])[ks[i] := Exchange(l2, l, ks[..i])[ks[i]]]
                && Exchange(l2, l, ks[..i + 1]) == Exchange(l2, l, ks[..i])[ks[i] := Exchange(l, l2, ks[..i])[ks[i]]]
    {
      var more := ks[..i + 1];
      assert more == ks[..i] + [ks[i]] && ks[i] !in ks[..i] && more[..i] == ks[..i] && more[..i + 1] == more;
      if Swappable(l, l2, more) { ExchangeOneMore(l, l2, more, i); }
    }

    lemma OffsetIsLaidOut(k: Key)
      requires Valid() && k in offsetOfTemporary
      ensures offsetOfTemporary[k] in layout && k in Locations() && Locations()[k] == layout[offsetOfTemporary[k]]
    {
    }

    // Copies the bytes of an operand.
    method CopyBytes(from: Key, to: Key) returns (ok: bool)
      requires Valid()
      modifies this`memory
      ensures Valid()
      ensures from in Locations() && to in Locations() && Locations()[from] in old(StoreOf(layout, memory)) ==>
                ok && StoreOf(layout, memory) == old(StoreOf(layout, memory))[Locations()[to] := old(StoreOf(layout, memory))[Locations()[from]]]
      ensures ok ==> from in Locations() && to in Locations() && Locations()[from] in old(StoreOf(layout, memory))
    {
      hide Maps.Fits, Maps.Disjoint, Maps.Locations, Maps.Find, Maps.Domain, Holdable, StoreOf, Proper, Where;
      var p := GetBuffer(to);
      var q := GetBuffer(from);
      FindIsProper(to);
      FindIsProper(from);
      if q.Some? { StoreHas(layout, memory, q.value); }
      if p.None? || q.None? || q.value !in memory {
        return false;
      }
      StoreWritten(layout, memory, p.value, memory[q.value]);
      memory := memory[p.value := memory[q.value]];
      ok := true;
    }

    // Copies the bytes of operands, one operand after the other.
    method CopyOperands(froms: seq<Key>, tos: seq<Key>) returns (ok: bool)
      requires Valid() && |froms| == |tos|
      modifies this`memory
      ensures Valid()
      ensures (forall k :: k in froms || k in tos ==> k in old(Locations())) ==>
                var r := CopyAll(old(StoreOf(layout, memory)), Locate(old(Locations()), froms), Locate(old(Locations()), tos));
                && (ok <==> r.Some?)
                && (r.Some? ==> StoreOf(layout, memory) == r.value)
      ensures ok ==> forall k :: k in froms || k in tos ==> k in old(Locations())
    {
      hide Maps.Fits, Maps.Disjoint, Maps.Locations, Maps.Find, Maps.Domain, Holdable, StoreOf, Locate, Proper, Where, CopyAll;
      ghost var l, store := Locations(), StoreOf(layout, memory);
      ghost var here := forall k :: k in froms || k in tos ==> k in l;
      ghost var from, to := if here then Locate(l, froms) else [], if here then Locate(l, tos) else [];
      var i := 0;
      if here { CopyNothing(store, from, to); }
      while i < |froms|
        invariant 0 <= i <= |froms|
        invariant Valid()
        invariant forall k :: k in froms[..i] || k in tos[..i] ==> k in l
        invariant here ==> CopyAll(store, from[..i], to[..i]) == Some(StoreOf(layout, memory))
      {
        OneMore(froms, i);
        OneMore(tos, i);
        if here {
          OneMore(from, i);
          OneMore(to, i);
          CopyAllAppend(store, from[..i], to[..i], from[i], to[i]);
        }
        ok := CopyBytes(froms[i], tos[i]);
        if !ok {
          if here && CopyAll(store, from, to).Some? { CopyAllPrefix(store, from, to, i); }
          return;
        }
        i := i + 1;
      }
      AllTaken(froms);
      AllTaken(tos);
      if here {
        AllTaken(from);
        AllTaken(to);
      }
      ok := true;
    }

    lemma CopyNothing(store: map<Location, Bytes>, from: seq<Location>, to: seq<Location>)
      requires |from| == |to|
      ensures CopyAll(store, from[..0], to[..0]) == Some(store)
    {
    }

    lemma FindIsProper(k: Key)
      requires Valid()
      ensures Current().Find(k).Some? <==> k in Locations()
      ensures Current().Find(k).Some? ==>
                Proper(layout, Current().Find(k).value) && Locations()[k] == Where(layout, Current().Find(k).value)
    {
      hide Maps.Fits, Maps.Find, Maps.Domain, Proper, Where;
    }

    // ----- control flow steps -----

    method TakeIf(ghost k: Kernels) returns (ok: bool)
      requires AtStep() && code[nextStepIndex].IfStep?
      modifies this`nextStepIndex, this`offsetOfTemporary, this`inputIndex, this`outputIndex, this`constantReference
      ensures Valid() && 0 <= nextStepIndex
      ensures ok ==> Moves(code, old(Snapshot(nextStepIndex)), Snapshot(nextStepIndex))
      ensures old(AtMostOnce()) && MicroStep(k, code, old(Snapshot(nextStepIndex))).To? ==>
                ok && AtMostOnce() && MicroStep(k, code, old(Snapshot(nextStepIndex))) == To(Snapshot(nextStepIndex))
      ensures ok && old(AtMostOnce()) && old(Tidy()) ==> MicroStep(k, code, old(Snapshot(nextStepIndex))).To?
    {
      hide Maps.Fits, Maps.Disjoint, Maps.Locations, Holdable, StoreOf, Machine.SetInputs, Machine.SetOutputs, Read, IsTrue, MicroStep, Moves, LoopState, Proper, Where, WritableAt, Separated, AllSlots, Maps.Find, Maps.Domain;
      var step := code[nextStepIndex];
      ghost var s := Snapshot(nextStepIndex);
      IfStepDoes(k, s);
      ghost var tidy := Tidy();
      if tidy {
        OwnSeparated();
        BranchKeysHere(true);
        BranchKeysHere(false);
      }
      var c := ReadConditionValue(step.condition);
      if c.None? { return false; }
      nextStepIndex := if c.value then step.thenStepIndex else step.elseStepIndex;
      var inputs := if c.value then step.thenInputs else step.elseInputs;
      var outputs := if c.value then step.thenOutputs else step.elseOutputs;
      if |inputs| != |step.outerInputs| || |outputs| != |step.outerOutputs| { return false; }
      ghost var ls := Locations();
      ok := SetInputs(step.outerInputs, inputs);
      if !ok { return; }
      if tidy {
        InputsKeepWritable(ls, step.outerInputs, inputs, OutKeys(step));
        WritableInside(Locations(), OutKeys(step), AsSet(step.outerOutputs) + AsSet(outputs));
      }
      ok := SetOutputs(step.outerOutputs, outputs);
      BranchIsNext(s, Snapshot(nextStepIndex));
    }

    lemma OwnSeparated()
      requires AtStep() && Tidy()
      ensures OutKeys(code[nextStepIndex]) !! InKeys(code[nextStepIndex]) && WritableAt(Locations(), OutKeys(code[nextStepIndex])) && AllSlots(Locations2())
    {
      hide OutKeys, InKeys, WritableAt;
    }

    lemma BranchKeysHere(taken: bool)
      requires AtStep() && code[nextStepIndex].IfStep?
      requires OutKeys(code[nextStepIndex]) !! InKeys(code[nextStepIndex])
      ensures var step := code[nextStepIndex];
              var inputs, outputs := if taken then step.thenInputs else step.elseInputs, if taken then step.thenOutputs else step.elseOutputs;
              AsSet(inputs) !! OutKeys(step) && AsSet(step.outerOutputs) + AsSet(outputs) <= OutKeys(step)
    {
    }

    lemma BranchIsNext(s: State, s': State)
      requires s.pc < |code| && code[s.pc].IfStep?
      requires (s'.pc == code[s.pc].thenStepIndex || s'.pc == code[s.pc].elseStepIndex) && s'.loops == s.loops
      ensures Moves(code, s, s')
    {
    }

    lemma IfStepDoes(k: Kernels, s: State)
      requires s.pc < |code| && code[s.pc].IfStep?
      ensures MicroStep(k, code, s).To? ==>
                && var step := code[s.pc];
                && Read(s, step.condition).Some?
                && var c := IsTrue(Read(s, step.condition).value);
                && var inputs, outputs := if c then step.thenInputs else step.elseInputs, if c then step.thenOutputs else step.elseOutputs;
                && |inputs| == |step.outerInputs| && |outputs| == |step.outerOutputs|
                && var ls := Machine.SetInputs(s.locations, step.outerInputs, inputs);
                && ls.Some?
                && var r := Machine.SetOutputs(ls.value, step.outerOutputs, outputs);
                && r.Some?
                && MicroStep(k, code, s) == To(s.(pc := if c then step.thenStepIndex else step.elseStepIndex, locations := r.value))
      ensures var step := code[s.pc];
              Read(s, step.condition).Some? ==>
                var c := IsTrue(Read(s, step.condition).value);
                var ls := Machine.SetInputs(s.locations, step.outerInputs, if c then step.thenInputs else step.elseInputs);
                ls.Some? && Machine.SetOutputs(ls.value, step.outerOutputs, if c then step.thenOutputs else step.elseOutputs).Some? ==> MicroStep(k, code, s).To?
    {
      hide Machine.SetInputs, Machine.SetOutputs, Read, IsTrue;
      if MicroStep(k, code, s).To? {
        var step := code[s.pc];
        var c := IsTrue(Read(s, step.condition).value);
        var ls := Machine.SetInputs(s.locations, step.outerInputs, if c then step.thenInputs else step.elseInputs);
        SetInputsLengths(s.locations, step.outerInputs, if c then step.thenInputs else step.elseInputs);
        SetOutputsLengths(ls.value, step.outerOutputs, if c then step.thenOutputs else step.elseOutputs);
      }
    }

    method TakeWhile(ghost k: Kernels) returns (ok: bool)
      requires AtStep() && code[nextStepIndex].WhileStep? && Distinct(code[nextStepIndex].bodyOutputs)
      modifies this`nextStepIndex, this`offsetOfTemporary, this`offsetOfTemporary2, this`inputIndex, this`outputIndex, this`constantReference,
               this`whileState, this`memory
      ensures Valid() && 0 <= nextStepIndex
      ensures ok ==> Moves(code, old(Snapshot(nextStepIndex)), Snapshot(nextStepIndex))
      ensures old(AtMostOnce()) && MicroStep(k, code, old(Snapshot(nextStepIndex))).To? ==>
                ok && AtMostOnce() && MicroStep(k, code, old(Snapshot(nextStepIndex))) == To(Snapshot(nextStepIndex))
      ensures ok && old(AtMostOnce()) && old(Tidy()) ==> MicroStep(k, code, old(Snapshot(nextStepIndex))).To?
    {
      hide Maps.Fits, Maps.Disjoint, Maps.Locations, Holdable, StoreOf, MicroStep, Moves, Separated, AllSlots, WritableAt;
      ghost var s := Snapshot(nextStepIndex);
      var state := if nextStepIndex in whileState then whileState[nextStepIndex] else OUTSIDE_LOOP;
      WhileStepIs(k, s);
      if state.stage == EvaluateCondition {
        ok := EvaluateTheCondition(k, state);
      } else {
        var c := ReadConditionValue(code[nextStepIndex].condOutput);
        if c.None? {
          ReadFails(k, s);
          return false;
        }
        if c.value {
          ok := EvaluateTheBody(k, state);
        } else {
          ok := Exit(k, state);
        }
      }
    }

    lemma WhileStepIs(k: Kernels, s: State)
      requires s.pc < |code| && code[s.pc].WhileStep?
      ensures MicroStep(k, code, s) == if LoopState(s, s.pc).stage == EvaluateCondition then EnterCondition(code[s.pc], s) else EnterBodyOrExit(code[s.pc], s)
      ensures LoopState(s, s.pc) == if s.pc in s.loops then s.loops[s.pc] else OUTSIDE_LOOP
    {
      hide EnterCondition, EnterBodyOrExit;
    }

    lemma ReadFails(k: Kernels, s: State)
      requires s.pc < |code| && code[s.pc].WhileStep? && LoopState(s, s.pc).stage != EvaluateCondition
      requires Read(s, code[s.pc].condOutput) == None
      ensures !MicroStep(k, code, s).To?
    {
      hide EnterBody, ExitLoop, EnterCondition;
    }

    method EvaluateTheCondition(ghost k: Kernels, state: WhileState) returns (ok: bool)
      requires AtStep() && code[nextStepIndex].WhileStep?
      requires state == LoopState(Snapshot(nextStepIndex), nextStepIndex) && state.stage == EvaluateCondition
      modifies this`nextStepIndex, this`offsetOfTemporary, this`inputIndex, this`outputIndex, this`constantReference, this`whileState
      ensures Valid() && 0 <= nextStepIndex
      ensures ok ==> Moves(code, old(Snapshot(nextStepIndex)), Snapshot(nextStepIndex))
      ensures old(AtMostOnce()) && EnterCondition(code[old(nextStepIndex)], old(Snapshot(nextStepIndex))).To? ==>
                ok && AtMostOnce() && EnterCondition(code[old(nextStepIndex)], old(Snapshot(nextStepIndex))) == To(Snapshot(nextStepIndex))
      ensures ok ==> EnterCondition(code[old(nextStepIndex)], old(Snapshot(nextStepIndex))).To?
    {
      hide Maps.Fits, Maps.Disjoint, Maps.Locations, Holdable, StoreOf, Machine.SetInputs, Sources, Source, EnterCondition, Moves, LoopState;
      var w := code[nextStepIndex];
      ghost var s := Snapshot(nextStepIndex);
      var iteration := if state.iteration.None? then 0 else state.iteration.value + 1;
      EnterConditionDoes(w, s, iteration);
      whileState := whileState[nextStepIndex := WhileState(EvaluateBody, Some(iteration))];
      nextStepIndex := w.condStepIndex;
      if |w.condInputs| != |w.outerInputs| || |w.condInputs| < |w.bodyOutputs| { return false; }
      ok := SetInputs(Sources(w, iteration), w.condInputs);
      ConditionIsNext(s, iteration, Snapshot(nextStepIndex));
    }

    lemma EnterConditionDoes(w: LogicalStep, s: State, iteration: nat)
      requires w.WhileStep?
      requires var state := LoopState(s, s.pc); iteration == if state.iteration.None? then 0 else state.iteration.value + 1
      ensures EnterCondition(w, s).To? ==>
                && |w.condInputs| == |w.outerInputs| && |w.condInputs| >= |w.bodyOutputs|
                && var ls := Machine.SetInputs(s.locations, Sources(w, iteration), w.condInputs);
                && ls.Some?
                && EnterCondition(w, s) == To(s.(pc := w.condStepIndex, locations := ls.value, loops := s.loops[s.pc := WhileState(EvaluateBody, Some(iteration))]))
      ensures |w.condInputs| >= |w.bodyOutputs| && Machine.SetInputs(s.locations, Sources(w, iteration), w.condInputs).Some? ==> EnterCondition(w, s).To?
    {
      hide Machine.SetInputs, LoopState, Sources;
      if EnterCondition(w, s).To? { SetInputsLengths(s.locations, Sources(w, iteration), w.condInputs); }
    }

    lemma ConditionIsNext(s: State, iteration: nat, s': State)
      requires s.pc < |code| && code[s.pc].WhileStep? && LoopState(s, s.pc).stage == EvaluateCondition
      requires s'.pc == code[s.pc].condStepIndex && s'.loops == s.loops[s.pc := WhileState(EvaluateBody, Some(iteration))]
      ensures Moves(code, s, s')
    {
    }

    method EvaluateTheBody(ghost k: Kernels, state: WhileState) returns (ok: bool)
      requires AtStep() && code[nextStepIndex].WhileStep? && Distinct(code[nextStepIndex].bodyOutputs)
      requires state == LoopState(Snapshot(nextStepIndex), nextStepIndex) && state.stage == EvaluateBody
      modifies this`nextStepIndex, this`offsetOfTemporary, this`offsetOfTemporary2, this`inputIndex, this`outputIndex, this`constantReference,
               this`whileState
      ensures Valid() && 0 <= nextStepIndex
      ensures ok ==> Moves(code, old(Snapshot(nextStepIndex)), Snapshot(nextStepIndex))
      ensures old(AtMostOnce()) && EnterBody(code[old(nextStepIndex)], old(Snapshot(nextStepIndex))).To? ==>
                ok && AtMostOnce() && EnterBody(code[old(nextStepIndex)], old(Snapshot(nextStepIndex))) == To(Snapshot(nextStepIndex))
      ensures ok && old(AtMostOnce()) && old(Tidy()) ==> EnterBody(code[old(nextStepIndex)], old(Snapshot(nextStepIndex))).To?
    {
      hide Maps.Fits, Maps.Disjoint, Maps.Locations, Holdable, StoreOf, Machine.SetInputs, Exchange, EnterBody, Moves, LoopState, Distinct, Swappable,
           WritableAt, Separated, AllSlots;
      ghost var tidy, ls := Tidy(), Locations();
      if tidy {
        OwnSeparated();
        BodyKeysHere();
      }
      var w := code[nextStepIndex];
      ghost var s := Snapshot(nextStepIndex);
      EnterBodyDoes(w, s);
      whileState := whileState[nextStepIndex := state.(stage := EvaluateCondition)];
      nextStepIndex := w.bodyStepIndex;
      if |w.condInputs| != |w.bodyInputs| { return false; }
      ok := SetInputs(w.condInputs, w.bodyInputs);
      if ok && tidy {
        InputsKeepWritable(ls, w.condInputs, w.bodyInputs, OutKeys(w));
        WritableInside(Locations(), OutKeys(w), AsSet(w.bodyOutputs));
      }
      if ok && state.iteration != Some(0) {
        ok := SwapBuffers(w.bodyOutputs);
      }
      BodyIsNext(s, state, Snapshot(nextStepIndex));
    }

    lemma BodyKeysHere()
      requires AtStep() && code[nextStepIndex].WhileStep?
      requires OutKeys(code[nextStepIndex]) !! InKeys(code[nextStepIndex])
      ensures var w := code[nextStepIndex]; AsSet(w.bodyInputs) !! OutKeys(w) && AsSet(w.bodyOutputs) <= OutKeys(w)
    {
    }

    lemma EnterBodyDoes(w: LogicalStep, s: State)
      requires w.WhileStep?
      ensures EnterBody(w, s).To? ==>
                && |w.condInputs| == |w.bodyInputs|
                && var ls := Machine.SetInputs(s.locations, w.condInputs, w.bodyInputs);
                && var state := LoopState(s, s.pc);
                && ls.Some?
                && var s' := s.(pc := w.bodyStepIndex, locations := ls.value, loops := s.loops[s.pc := state.(stage := EvaluateCondition)]);
                if state.iteration == Some(0) then EnterBody(w, s) == To(s')
                else
                  && Swappable(ls.value, s.locations2, w.bodyOutputs)
                  && EnterBody(w, s) == To(s'.(locations := Exchange(ls.value, s.locations2, w.bodyOutputs),
                                               locations2 := Exchange(s.locations2, ls.value, w.bodyOutputs)))
      ensures var ls := Machine.SetInputs(s.locations, w.condInputs, w.bodyInputs);
              ls.Some? && (LoopState(s, s.pc).iteration == Some(0) || Swappable(ls.value, s.locations2, w.bodyOutputs)) ==> EnterBody(w, s).To?
    {
      hide Machine.SetInputs, Exchange, LoopState;
      if EnterBody(w, s).To? { SetInputsLengths(s.locations, w.condInputs, w.bodyInputs); }
    }

    lemma BodyIsNext(s: State, state: WhileState, s': State)
      requires s.pc < |code| && code[s.pc].WhileStep? && state == LoopState(s, s.pc) && state.stage == EvaluateBody
      requires s'.pc == code[s.pc].bodyStepIndex && s'.loops == s.loops[s.pc := state.(stage := EvaluateCondition)]
      ensures Moves(code, s, s')
    {
    }

    // The loop is over: its outputs are copied out of the condition's inputs.
    method Exit(ghost k: Kernels, state: WhileState) returns (ok: bool)
      requires AtStep() && code[nextStepIndex].WhileStep?
      requires state == LoopState(Snapshot(nextStepIndex), nextStepIndex) && state.stage == EvaluateBody
      modifies this`nextStepIndex, this`whileState, this`memory
      ensures Valid() && 0 <= nextStepIndex && Current() == old(Current())
      ensures ok ==> Moves(code, old(Snapshot(nextStepIndex)), Snapshot(nextStepIndex))
      ensures ExitLoop(code[old(nextStepIndex)], old(Snapshot(nextStepIndex))).To? ==>
                ok && ExitLoop(code[old(nextStepIndex)], old(Snapshot(nextStepIndex))) == To(Snapshot(nextStepIndex))
      ensures ok && old(Tidy()) ==> ExitLoop(code[old(nextStepIndex)], old(Snapshot(nextStepIndex))).To?
    {
      hide Maps.Fits, Maps.Disjoint, Maps.Locations, Holdable, StoreOf, CopyAll, Locate, Separated, AllSlots, Maps.Find, Maps.Domain;
      if Tidy() {
        OwnSeparated();
        LoopOutputsHere();
      }
      var w := code[nextStepIndex];
      ghost var s := Snapshot(nextStepIndex);
      whileState := whileState[nextStepIndex := OUTSIDE_LOOP];
      nextStepIndex := w.exitStepIndex;
      if |w.outerOutputs| > |w.bodyOutputs| || |w.outerOutputs| > |w.condInputs| { return false; }
      ok := CopyOperands(w.condInputs[..|w.outerOutputs|], w.outerOutputs);
    }

    lemma LoopOutputsHere()
      requires AtStep() && code[nextStepIndex].WhileStep? && WritableAt(Locations(), OutKeys(code[nextStepIndex]))
      ensures forall x :: x in code[nextStepIndex].outerOutputs && x in Locations() ==> Writable(Locations()[x])
    {
    }

    // ----- calls of next() -----

    /** The controller runs the plan of a schedule and control is somewhere in it. */
    ghost predicate Running(m: Model, gs: seq<Group>)
      reads this
    {
      && Valid() && 0 <= nextStepIndex
      && InstalledPlan(code, m, gs) && DistinctLoops()
      && Coherent(gs, Snapshot(nextStepIndex))
    }

    ghost predicate DistinctLoops() {
      forall p :: 0 <= p < |code| && code[p].WhileStep? ==> Distinct(code[p].bodyOutputs)
    }

    /** Nothing that operands are mapped with has changed. */
    twostate predicate SameOperands()
      reads this
    {
      && Current() == old(Current()) && offsetOfTemporary2 == old(offsetOfTemporary2)
      && whileState == old(whileState) && memory == old(memory)
    }

    /** The outcome of a call that started at `s` and that the machine brings to `t`. */
    ghost predicate CameTo(t: State, r: Next)
      reads this
    {
      && Valid() && AtMostOnce() && t.pc <= |code|
      && r == (if t.pc == |code| then Finished else Execute(t.pc))
      && Snapshot(t.pc) == t
    }

    // Takes one control flow step.
    method TakeStep(ghost k: Kernels) returns (ok: bool)
      requires AtStep() && !code[nextStepIndex].ExecutionStep? && DistinctLoops()
      modifies this`nextStepIndex, this`offsetOfTemporary, this`offsetOfTemporary2, this`inputIndex, this`outputIndex, this`constantReference,
               this`whileState, this`memory
      ensures Valid() && 0 <= nextStepIndex
      ensures ok ==> Moves(code, old(Snapshot(nextStepIndex)), Snapshot(nextStepIndex))
      ensures old(AtMostOnce()) && MicroStep(k, code, old(Snapshot(nextStepIndex))).To? ==>
                ok && AtMostOnce() && MicroStep(k, code, old(Snapshot(nextStepIndex))) == To(Snapshot(nextStepIndex))
      ensures ok && old(AtMostOnce()) && old(Tidy()) ==> MicroStep(k, code, old(Snapshot(nextStepIndex))).To?
    {
      hide Maps.Fits, Maps.Disjoint, Maps.Locations, Holdable, StoreOf, MicroStep, Moves, Tidy;
      match code[nextStepIndex] {
        case IfStep(_, _, _, _, _, _, _, _, _) =>
          ok := TakeIf(k);
        case WhileStep(_, _, _, _, _, _, _, _, _) =>
          ok := TakeWhile(k);
        case GotoStep(target) =>
          GotoGoes(k, Snapshot(nextStepIndex));
          nextStepIndex := target;
          ok := true;
      }
    }

    // Takes control flow steps up to the next execution step or the end of the plan.
    method NextCompound(ghost k: Kernels, ghost m: Model, ghost gs: seq<Group>) returns (r: Next)
      requires Running(m, gs)
      modifies this
      ensures Valid()
      ensures r.Execute? ==> && r.step < |code| && code[r.step].ExecutionStep?
                             && nextStepIndex == r.step + 1 && fallbackNextStepIndex == r.step
                             && Coherent(gs, Snapshot(r.step))
      ensures r.Finished? ==> nextStepIndex == BAD_STEP_INDEX
      ensures old(nextStepIndex) < |code| && code[old(nextStepIndex)].ExecutionStep? ==>
                r == Execute(old(nextStepIndex)) && SameOperands()
      ensures old(AtMostOnce()) ==>
                forall n :: AdvanceBy(k, code, old(Snapshot(nextStepIndex)), n).Stopped? ==>
                  CameTo(AdvanceBy(k, code, old(Snapshot(nextStepIndex)), n).state, r)
      ensures old(AtMostOnce()) && Separated(code) && Owned(code, old(Snapshot(nextStepIndex))) ==>
                forall n :: AdvanceBy(k, code, old(Snapshot(nextStepIndex)), n).Broken? ==> r.OpFailed?
      decreases Rank(gs, 0, 0, nextStepIndex, Snapshot(nextStepIndex))
    {
      hide Maps.Fits, Maps.Disjoint, Maps.Locations, Holdable, StoreOf, InstalledPlan, Coherent, Rank, MicroStep, Moves, Tidy, Separated, Owned, AdvanceBy, Swappable, LoopState;
      ghost var s := Snapshot(nextStepIndex);
      ghost var owned := AtMostOnce() && Separated(code) && Owned(code, s);
      if owned { OwnedIsTidy(nextStepIndex); }
      AdvanceUnfolds(k, code, s);
      if nextStepIndex == |code| {
        nextStepIndex := BAD_STEP_INDEX;
        return Finished;
      }
      if code[nextStepIndex].ExecutionStep? {
        fallbackNextStepIndex := nextStepIndex;
        nextStepIndex := nextStepIndex + 1;
        return Execute(nextStepIndex - 1);
      }
      var ok := TakeStep(k);
      if !ok { return OpFailed; }
      StepKeepsCoherent(code, m, gs, s, Snapshot(nextStepIndex));
      if owned { StepKeepsOwned(k, code, s); }
      r := NextCompound(k, m, gs);
    }

    lemma AdvanceUnfolds(k: Kernels, code: seq<LogicalStep>, s: State)
      ensures s.pc == |code| || (s.pc < |code| && code[s.pc].ExecutionStep?) ==> forall n: nat :: AdvanceBy(k, code, s, n) == Stopped(s)
      ensures s.pc < |code| && !code[s.pc].ExecutionStep? ==>
                forall n: nat :: AdvanceBy(k, code, s, n) ==
                  if n == 0 then Unfinished
                  else if MicroStep(k, code, s).To? then AdvanceBy(k, code, MicroStep(k, code, s).state, n - 1)
                  else Broken
    {
      hide MicroStep;
    }

    lemma TidyIsOwned(pc: nat)
      requires Valid() && Tidy()
      ensures Separated(code) && Owned(code, Snapshot(pc))
    {
      hide Maps.Fits, Maps.Locations, Holdable, StoreOf, WritableAt, AllSlots, OutKeys, InKeys;
    }

    lemma OwnedIsTidy(pc: nat)
      requires Valid() && Separated(code) && Owned(code, Snapshot(pc))
      ensures Tidy()
    {
      hide Maps.Fits, Maps.Locations, Holdable, StoreOf, WritableAt, AllSlots, OutKeys, InKeys;
    }

    lemma GotoGoes(k: Kernels, s: State)
      requires s.pc < |code| && code[s.pc].GotoStep?
      ensures MicroStep(k, code, s) == To(s.(pc := code[s.pc].target))
      ensures Moves(code, s, s.(pc := code[s.pc].target))
    {
    }

    // Makes the last execution step the next one again, to be run on the CPU.
    method Fallback(ghost k: Kernels, ghost m: Model, ghost gs: seq<Group>) returns (r: Next)
      requires Valid() && InstalledPlan(code, m, gs) && DistinctLoops()
      requires fallbackNextStepIndex != BAD_STEP_INDEX ==>
                 && 0 <= fallbackNextStepIndex < |code| && code[fallbackNextStepIndex].ExecutionStep?
                 && Coherent(gs, Snapshot(fallbackNextStepIndex))
      modifies this
      ensures Valid() && SameOperands()
      ensures if old(fallbackNextStepIndex) == BAD_STEP_INDEX || old(nextStepIndex) == BAD_STEP_INDEX then
                r == OpFailed && nextStepIndex == old(nextStepIndex)
              else
                r == Execute(old(fallbackNextStepIndex)) && nextStepIndex == old(fallbackNextStepIndex) + 1
                && fallbackNextStepIndex == old(fallbackNextStepIndex)
    {
      hide Maps.Fits, Maps.Disjoint, Maps.Locations, Holdable, StoreOf, InstalledPlan, Coherent, Rank, MicroStep, Moves, AdvanceBy;
      if fallbackNextStepIndex == BAD_STEP_INDEX || nextStepIndex == BAD_STEP_INDEX {
        return OpFailed;
      }
      nextStepIndex := fallbackNextStepIndex;
      r := NextCompound(k, m, gs);
    }

    // ----- execution steps -----

    // A step writes to temporaries and to outputs of the main model only.
    method MapOutput(key: Key) returns (r: Option<Place>)
      requires Valid()
      ensures r.Some? ==> Proper(layout, r.value) && key in Locations()
      ensures key in Locations() && Writable(Locations()[key]) ==> r == Current().Find(key)
    {
      r := None;
      if key in offsetOfTemporary {
        r := Some(Temporary(offsetOfTemporary[key]));
      } else if key in outputIndex {
        r := Some(Result(outputIndex[key]));
      }
    }

    method ReadInputs(ghost pc: nat, keys: seq<Key>) returns (r: Option<seq<Bytes>>)
      requires Valid()
      ensures Readable(Snapshot(pc), keys) ==> r == Some(ReadAll(Snapshot(pc), keys))
      ensures r.Some? ==> |r.value| == |keys| && Readable(Snapshot(pc), keys)
    {
      hide Maps.Fits, Maps.Disjoint, Maps.Locations, Maps.Find, Holdable, StoreOf, Proper, Where;
      var args: seq<Bytes> := [];
      ghost var s := Snapshot(pc);
      var i := 0;
      while i < |keys|
        invariant 0 <= i <= |keys| && |args| == i
        invariant Readable(s, keys) ==> args == ReadAll(s, keys)[..i]
        invariant forall j :: 0 <= j < i ==> Read(s, keys[j]).Some?
      {
        var p := GetBuffer(keys[i]);
        ReadAgrees(layout, Current(), memory, s, keys[i]);
        if Readable(s, keys) { assert keys[i] in keys && Read(s, keys[i]).Some?; }
        if p.None? || p.value !in memory { return None; }
        args := args + [memory[p.value]];
        i := i + 1;
      }
      AllReadable(s, keys);
      assert ReadAll(s, keys)[..i] == ReadAll(s, keys);
      r := Some(args);
    }

    lemma AllReadable(s: State, keys: seq<Key>)
      requires forall j :: 0 <= j < |keys| ==> Read(s, keys[j]).Some?
      ensures Readable(s, keys)
    {
    }

    method WriteOutput(key: Key, v: Bytes) returns (ok: bool)
      requires Valid()
      modifies this`memory
      ensures Valid()
      ensures key in Locations() && Writable(Locations()[key]) ==>
                ok && StoreOf(layout, memory) == old(StoreOf(layout, memory))[Locations()[key] := v]
      ensures ok ==> key in Locations()
    {
      hide Maps.Fits, Maps.Disjoint, Maps.Locations, Maps.Find, Maps.Domain, Holdable, StoreOf, Proper, Where;
      var p := MapOutput(key);
      FindIsProper(key);
      if p.None? { return false; }
      StoreWritten(layout, memory, p.value, v);
      memory := memory[p.value := v];
      ok := true;
    }

    method WriteOutputs(keys: seq<Key>, vals: seq<Bytes>) returns (ok: bool)
      requires Valid() && |keys| == |vals|
      modifies this`memory
      ensures Valid()
      ensures AllWritable(old(Locations()), keys) ==>
                ok && StoreOf(layout, memory) == Stored(old(StoreOf(layout, memory)), old(Locations()), keys, vals)
      ensures ok ==> forall k :: k in keys ==> k in old(Locations())
    {
      hide Maps.Fits, Maps.Disjoint, Maps.Locations, Maps.Find, Holdable, StoreOf, Proper, Where, Stored, Writable;
      ghost var store, locations := StoreOf(layout, memory), Locations();
      ghost var can := AllWritable(locations, keys);
      if can { StoredNothing(store, locations, keys, vals); }
      var i := 0;
      while i < |keys|
        invariant 0 <= i <= |keys|
        invariant Valid()
        invariant forall k :: k in keys[..i] ==> k in locations
        invariant can ==> (forall k :: k in keys[..i] ==> k in locations) && StoreOf(layout, memory) == Stored(store, locations, keys[..i], vals[..i])
      {
        if can {
          assert keys[i] in keys;
          StoredAppend(store, locations, keys, vals, i);
        }
        OneMore(keys, i);
        ok := WriteOutput(keys[i], vals[i]);
        if !ok { return; }
        i := i + 1;
      }
      assert keys[..i] == keys && vals[..i] == vals;
      ok := true;
    }

    lemma StoredNothing(store: map<Location, Bytes>, ls: Locations, keys: seq<Key>, vals: seq<Bytes>)
      requires |keys| == |vals|
      ensures (forall k :: k in keys[..0] ==> k in ls) && Stored(store, ls, keys[..0], vals[..0]) == store
    {
    }

    // Runs the step model of an execution step on a device.
    method Compute(k: Kernels, p: nat) returns (ok: bool)
      requires Valid() && p < |code| && code[p].ExecutionStep?
      modifies this`memory
      ensures Valid()
      ensures MicroStep(k, code, old(Snapshot(p))).To? ==> ok && MicroStep(k, code, old(Snapshot(p))) == To(Snapshot(p + 1))
      ensures ok && old(Tidy()) ==> MicroStep(k, code, old(Snapshot(p))).To?
    {
      hide Maps.Fits, Maps.Disjoint, Maps.Locations, Maps.Find, Holdable, StoreOf, Proper, Where, RunStep, Stored, Readable, ReadAll, AllWritable, MicroStep, Knows, Get, Keys, Separated, AllSlots, WritableAt, OutKeys;
      var step := code[p];
      ghost var s := Snapshot(p);
      ExecutionStepDoes(k, s);
      if Tidy() { StepOutputsHere(p); }
      var args := ReadInputs(p, Keys(step.sourceModelIndex, step.stepInputs));
      if args.None? { return false; }
      var run := RunStep(k, step, args.value);
      if !run.Done? || !Knows(run.value, step.stepOutputs) { return false; }
      ok := WriteOutputs(Keys(step.sourceModelIndex, step.stepOutputs), Get(run.value, step.stepOutputs));
    }

    lemma StepOutputsHere(p: nat)
      requires Valid() && p < |code| && code[p].ExecutionStep? && Tidy()
      ensures var outs := Keys(code[p].sourceModelIndex, code[p].stepOutputs);
              (forall x :: x in outs ==> x in Locations()) ==> AllWritable(Locations(), outs)
    {
      assert WritableAt(Locations(), OutKeys(code[p]));
      hide Separated, AllSlots;
    }

    lemma ExecutionStepDoes(k: Kernels, s: State)
      requires s.pc < |code| && code[s.pc].ExecutionStep?
      ensures MicroStep(k, code, s).To? ==>
                && var step := code[s.pc];
                && var ins, outs := Keys(step.sourceModelIndex, step.stepInputs), Keys(step.sourceModelIndex, step.stepOutputs);
                && Readable(s, ins) && AllWritable(s.locations, outs)
                && var run := RunStep(k, step, ReadAll(s, ins));
                && run.Done? && Knows(run.value, step.stepOutputs)
                && MicroStep(k, code, s) == To(s.(pc := s.pc + 1, store := Stored(s.store, s.locations, outs, Get(run.value, step.stepOutputs))))
      ensures var step := code[s.pc];
              var ins, outs := Keys(step.sourceModelIndex, step.stepInputs), Keys(step.sourceModelIndex, step.stepOutputs);
              Readable(s, ins) && AllWritable(s.locations, outs) ==>
                var run := RunStep(k, step, ReadAll(s, ins));
                run.Done? && Knows(run.value, step.stepOutputs) ==> MicroStep(k, code, s).To?
    {
      hide Readable, Locate, Bind, Constants, RunOperations, ReadAll, Keys;
    }

    // ----- whole runs -----

    /** The controller keeps step with a run of the machine. */
    ghost predicate InStep(k: Kernels, s0: State, taken: nat)
      reads this
    {
      Valid() && 0 <= nextStepIndex && AtMostOnce() && Tidy() && Steps(k, code, s0, taken) == To(Snapshot(nextStepIndex))
    }

    // Calls next() and executes the step that it gives.
    method Round(k: Kernels, ghost m: Model, ghost gs: seq<Group>, ghost s0: State, ghost taken: nat)
      returns (r: Next, ghost taken': nat)
      requires Running(m, gs) && InStep(k, s0, taken)
      modifies this
      ensures Valid()
      ensures r.Execute? ==> Running(m, gs) && InStep(k, s0, taken') && taken < taken'
      ensures r.Finished? ==> Steps(k, code, s0, taken').Ended? && StoreOf(layout, memory) == Steps(k, code, s0, taken').final.store
      ensures r.OpFailed? ==> Steps(k, code, s0, taken').Crashed?
    {
      hide Maps.Fits, Maps.Disjoint, Maps.Locations, Holdable, StoreOf, InstalledPlan, Coherent, Rank, MicroStep, Moves, AdvanceBy, Steps, DistinctLoops, Tidy;
      ghost var s := Snapshot(nextStepIndex);
      TidyIsOwned(nextStepIndex);
      ghost var bound, t, j := CallComesTo(k, code, m, gs, s);
      StepsCompose(k, code, s0, taken, s, j);
      r := NextCompound(k, m, gs);
      taken' := taken + j;
      if r.OpFailed? { return; }
      StepsKeepOwned(k, code, s, j);
      taken' := taken + j + 1;
      OneMoreStep(k, code, s0, taken + j, t);
      if r.Execute? {
        ghost var before := Snapshot(r.step);
        OwnedIsTidy(r.step);
        var ok := Compute(k, r.step);
        NotEndedEarly(k, code, before);
        if !ok { return OpFailed, taken'; }
        ExecutionKeepsCoherent(code, m, gs, before, Snapshot(nextStepIndex));
        StepKeepsOwned(k, code, before);
        OwnedIsTidy(nextStepIndex);
      } else {
        EndOfPlan(k, t);
      }
    }

    lemma EndOfPlan(k: Kernels, t: State)
      requires t.pc == |code|
      ensures MicroStep(k, code, t) == Ended(t)
    {
    }

    /** Repeats rounds, at most `budget` times and once more. It finishes exactly where the machine
        ends, with the same contents everywhere; otherwise the machine has crashed, or has taken
        more steps than the budget. */
    method Run(k: Kernels, ghost m: Model, ghost gs: seq<Group>, budget: nat) returns (finished: bool, ghost taken: nat)
      requires Running(m, gs) && AtMostOnce() && Tidy()
      modifies this
      ensures Valid()
      ensures finished ==>
                && Steps(k, code, old(Snapshot(nextStepIndex)), taken).Ended?
                && StoreOf(layout, memory) == Steps(k, code, old(Snapshot(nextStepIndex)), taken).final.store
      ensures !finished ==>
                || Steps(k, code, old(Snapshot(nextStepIndex)), taken).Crashed?
                || (Steps(k, code, old(Snapshot(nextStepIndex)), taken).To? && taken > budget)
    {
      hide Maps.Fits, Maps.Disjoint, Maps.Locations, Holdable, StoreOf, InstalledPlan, Coherent, Steps, DistinctLoops, Tidy;
      ghost var s0 := Snapshot(nextStepIndex);
      taken := 0;
      NoSteps(k, s0);
      var round := 0;
      while round <= budget
        invariant Running(m, gs) && InStep(k, s0, taken) && round <= taken
        decreases budget + 1 - round
      {
        var r;
        r, taken := Round(k, m, gs, s0, taken);
        if !r.Execute? {
          return r.Finished?, taken;
        }
        round := round + 1;
      }
      finished := false;
    }

    lemma NoSteps(k: Kernels, s: State)
      ensures Steps(k, code, s, 0) == To(s)
    {
    }
  }
}
