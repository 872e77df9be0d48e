/** Places of operands in the controller, and the locations of the machine that they
    stand for. */
module Places {
  import opened Options
  import opened Models
  import opened FlatPlans
  import opened Machine

  // Where the bytes of an operand are.
  datatype Place =
    | Temporary(offset: nat)
    | Argument(index: nat)
    | Result(index: nat)
    | Reference(key: Key)

  // The operand that each offset was laid out for.
  type Layout = map<nat, Location>

  ghost predicate Proper(layout: Layout, p: Place) {
    match p
    case Temporary(o) => o in layout
    case Argument(_) => true
    case Result(_) => true
    case Reference(k) => Location.Constant(k) !in layout.Values
  }

  /** The location of the machine that a place stands for. */
  ghost function Where(layout: Layout, p: Place): Location
    requires Proper(layout, p)
  {
    match p
    case Temporary(o) => layout[o]
    case Argument(i) => MainInput(i)
    case Result(i) => MainOutput(i)
    case Reference(k) => Location.Constant(k)
  }

  /** No two offsets are laid out for the same operand. */
  ghost predicate IsLayout(layout: Layout) {
    && (forall o :: o in layout ==> layout[o].Slot? || layout[o].Constant?)
    && (forall o, o' :: o in layout && o' in layout && layout[o] == layout[o'] ==> o == o')
  }

  lemma WhereIsInjective(layout: Layout, p: Place, q: Place)
    requires IsLayout(layout) && Proper(layout, p) && Proper(layout, q) && Where(layout, p) == Where(layout, q)
    ensures p == q
  {
  }

  // The contents of the four maps at one time.
  datatype Maps = Maps(
    offsets: map<Key, nat>,
    inputs: map<Key, nat>,
    outputs: map<Key, nat>,
    references: map<Key, Key>)
  {
    function Domain(): set<Key> {
      offsets.Keys + inputs.Keys + outputs.Keys + references.Keys
    }

    // The place of an operand, looked up in the order of the four maps.
    function Find(k: Key): (r: Option<Place>)
      ensures r.Some? <==> k in Domain()
    {
      if k in offsets then Some(Temporary(offsets[k]))
      else if k in inputs then Some(Argument(inputs[k]))
      else if k in outputs then Some(Result(outputs[k]))
      else if k in references then Some(Reference(references[k]))
      else None
    }

    /** A key is in at most one map. */
    ghost predicate Disjoint() {
      && (forall k :: k in offsets ==> k !in inputs && k !in outputs && k !in references)
      && (forall k :: k in inputs ==> k !in outputs && k !in references)
      && (forall k :: k in outputs ==> k !in references)
    }

    ghost predicate Fits(layout: Layout) {
      && (forall k :: k in offsets ==> offsets[k] in layout)
      && (forall k :: k in references ==> Proper(layout, Reference(references[k])))
    }

    ghost function Locations(layout: Layout): (r: Locations)
      requires Fits(layout)
      ensures r.Keys == Domain()
      ensures forall k :: k in r ==> Proper(layout, Find(k).value) && r[k] == Where(layout, Find(k).value)
    {
      map k | k in Domain() :: Where(layout, Find(k).value)
    }

    function Erase(k: Key): Maps {
      Maps(offsets - {k}, inputs - {k}, outputs - {k}, references - {k})
    }

    // With `k` where `p` says.
    function Put(k: Key, p: Place): Maps {
      match p
      case Temporary(o) => this.(offsets := offsets[k := o])
      case Argument(i) => this.(inputs := inputs[k := i])
      case Result(i) => this.(outputs := outputs[k := i])
      case Reference(c) => this.(references := references[k := c])
    }
  }

  lemma ErasedFinds(m: Maps, k: Key)
    ensures forall x :: x != k ==> m.Erase(k).Find(x) == m.Find(x)
  {
    hide Maps.Domain;
  }

  lemma ErasedFits(m: Maps, layout: Layout, k: Key)
    requires m.Fits(layout)
    ensures m.Erase(k).Fits(layout)
  {
    hide Proper;
  }

  lemma ErasedLocations(m: Maps, layout: Layout, k: Key)
    requires m.Fits(layout)
    ensures m.Erase(k).Fits(layout)
    ensures m.Erase(k).Locations(layout) == m.Locations(layout) - {k}
  {
    hide Where, Proper, Maps.Find, Maps.Domain, Maps.Erase, Maps.Fits, Maps.Locations;
    ErasedFits(m, layout, k);
    ErasedDomain(m, k);
    ErasedFinds(m, k);
  }

  lemma ErasedDomain(m: Maps, k: Key)
    ensures m.Erase(k).Domain() == m.Domain() - {k}
    ensures m.Disjoint() ==> m.Erase(k).Disjoint()
  {
  }

  /** An operand that is put where it cannot be found elsewhere is found there. */
  lemma PutLocations(m: Maps, layout: Layout, k: Key, p: Place)
    requires m.Fits(layout) && k !in m.Domain() && Proper(layout, p)
    ensures m.Put(k, p).Fits(layout)
    ensures m.Put(k, p).Locations(layout) == m.Locations(layout)[k := Where(layout, p)]
  {
    PutDomain(m, k, p);
    hide Where, Proper;
    var e := m.Put(k, p);
    assert e.Fits(layout);
    SameFinds(m, e, layout, k, p);
  }

  lemma SameFinds(m: Maps, e: Maps, layout: Layout, k: Key, p: Place)
    requires m.Fits(layout) && e.Fits(layout) && k !in m.Domain() && Proper(layout, p)
    requires e.Domain() == m.Domain() + {k} && e.Find(k) == Some(p)
    requires forall x :: x in m.Domain() ==> e.Find(x) == m.Find(x)
    ensures e.Locations(layout) == m.Locations(layout)[k := Where(layout, p)]
  {
    hide Where, Proper, Maps.Find, Maps.Domain, Maps.Fits;
  }

  lemma PutDomain(m: Maps, k: Key, p: Place)
    requires k !in m.Domain()
    ensures m.Put(k, p).Domain() == m.Domain() + {k}
    ensures m.Put(k, p).Find(k) == Some(p)
    ensures forall x :: x in m.Domain() ==> m.Put(k, p).Find(x) == m.Find(x)
  {
  }

  lemma PutIsDisjoint(m: Maps, k: Key, p: Place)
    requires k !in m.Domain() && m.Disjoint()
    ensures m.Put(k, p).Disjoint()
  {
  }

  // ----- moving operands -----

  function InputMoved(m: Maps, outer: Key, inner: Key): Option<Maps> {
    var e := m.Erase(inner);
    match e.Find(outer)
    case Some(p) => Some(e.Put(inner, p))
    case None => None
  }

  /** Moving an input in the maps is moving its location. */
  lemma InputMovedAgrees(m: Maps, layout: Layout, outer: Key, inner: Key)
    requires m.Fits(layout)
    ensures match InputMoved(m, outer, inner)
            case Some(r) =>
              && r.Fits(layout) && (m.Disjoint() ==> r.Disjoint())
              && SetInput(m.Locations(layout), outer, inner) == Some(r.Locations(layout))
            case None => SetInput(m.Locations(layout), outer, inner) == None
    ensures m.Erase(inner).Fits(layout)
  {
    ErasedLocations(m, layout, inner);
    ErasedDomain(m, inner);
    var e := m.Erase(inner);
    hide Maps.Erase, Maps.Put, Maps.Disjoint, Maps.Fits, Maps.Domain, Where, Proper;
    var p := e.Find(outer);
    if p.Some? {
      assert e.Locations(layout)[outer] == Where(layout, p.value);
      PutLocations(e, layout, inner, p.value);
      if e.Disjoint() { PutIsDisjoint(e, inner, p.value); }
    }
  }

  lemma {:induction false} SetInputsAppend(ls: Locations, outers: seq<Key>, inners: seq<Key>, x: Key, y: Key)
    requires |outers| == |inners|
    ensures SetInputs(ls, outers + [x], inners + [y]) ==
            match SetInputs(ls, outers, inners)
            case Some(r) => SetInput(r, x, y)
            case None => None
    decreases |outers|
  {
    if outers == [] {
      assert outers + [x] == [x] && inners + [y] == [y];
    } else {
      assert (outers + [x])[1..] == outers[1..] + [x] && (inners + [y])[1..] == inners[1..] + [y];
      match SetInput(ls, outers[0], inners[0]) {
        case Some(r) => SetInputsAppend(r, outers[1..], inners[1..], x, y);
        case None =>
      }
    }
  }

  lemma {:induction false} SetOutputsAppend(ls: Locations, outers: seq<Key>, inners: seq<Key>, x: Key, y: Key)
    requires |outers| == |inners|
    ensures SetOutputs(ls, outers + [x], inners + [y]) ==
            match SetOutputs(ls, outers, inners)
            case Some(r) => SetOutput(r, x, y)
            case None => None
    decreases |outers|
  {
    if outers == [] {
      assert outers + [x] == [x] && inners + [y] == [y];
    } else {
      assert (outers + [x])[1..] == outers[1..] + [x] && (inners + [y])[1..] == inners[1..] + [y];
      match SetOutput(ls, outers[0], inners[0]) {
        case Some(r) => SetOutputsAppend(r, outers[1..], inners[1..], x, y);
        case None =>
      }
    }
  }

  /** A prefix of a list of moves that succeeds has succeeded. */
  lemma {:induction false} SetOutputsPrefix(ls: Locations, outers: seq<Key>, inners: seq<Key>, i: nat)
    requires |outers| == |inners| && i <= |outers|
    requires SetOutputs(ls, outers, inners).Some?
    ensures SetOutputs(ls, outers[..i], inners[..i]).Some?
    decreases |outers| - i
  {
    if i < |outers| {
      SetOutputsPrefix(ls, outers, inners, i + 1);
      assert outers[..i + 1] == outers[..i] + [outers[i]] && inners[..i + 1] == inners[..i] + [inners[i]];
      SetOutputsAppend(ls, outers[..i], inners[..i], outers[i], inners[i]);
    } else {
      assert outers[..i] == outers && inners[..i] == inners;
    }
  }

  lemma {:induction false} SetInputsPrefix(ls: Locations, outers: seq<Key>, inners: seq<Key>, i: nat)
    requires |outers| == |inners| && i <= |outers|
    requires SetInputs(ls, outers, inners).Some?
    ensures SetInputs(ls, outers[..i], inners[..i]).Some?
    decreases |outers| - i
  {
    if i < |outers| {
      SetInputsPrefix(ls, outers, inners, i + 1);
      assert outers[..i + 1] == outers[..i] + [outers[i]] && inners[..i + 1] == inners[..i] + [inners[i]];
      SetInputsAppend(ls, outers[..i], inners[..i], outers[i], inners[i]);
    } else {
      assert outers[..i] == outers && inners[..i] == inners;
    }
  }

  lemma {:induction false} SetInputsLengths(ls: Locations, outers: seq<Key>, inners: seq<Key>)
    requires SetInputs(ls, outers, inners).Some?
    ensures |outers| == |inners|
    decreases |outers|
  {
    if outers != [] {
      SetInputsLengths(SetInput(ls, outers[0], inners[0]).value, outers[1..], inners[1..]);
    }
  }

  lemma {:induction false} SetOutputsLengths(ls: Locations, outers: seq<Key>, inners: seq<Key>)
    requires SetOutputs(ls, outers, inners).Some?
    ensures |outers| == |inners|
    decreases |outers|
  {
    if outers != [] {
      SetOutputsLengths(SetOutput(ls, outers[0], inners[0]).value, outers[1..], inners[1..]);
    }
  }

  // Erases and looks up an output in two of the maps only.
  function OutputMoved(m: Maps, outer: Key, inner: Key): Option<Maps> {
    var e := m.(offsets := m.offsets - {inner}, outputs := m.outputs - {inner});
    if outer in e.offsets then Some(e.Put(inner, Temporary(e.offsets[outer])))
    else if outer in e.outputs then Some(e.Put(inner, Result(e.outputs[outer])))
    else None
  }

  lemma OutputMovedIs(m: Maps, outer: Key, inner: Key)
    ensures var offsets, outputs := m.offsets - {inner}, m.outputs - {inner};
            OutputMoved(m, outer, inner) ==
            if outer in offsets then Some(m.(offsets := offsets[inner := offsets[outer]], outputs := outputs))
            else if outer in outputs then Some(m.(offsets := offsets, outputs := outputs[inner := outputs[outer]]))
            else None
  {
  }

  lemma OutputErasedFits(m: Maps, layout: Layout, inner: Key)
    requires m.Fits(layout)
    ensures m.(offsets := m.offsets - {inner}, outputs := m.outputs - {inner}).Fits(layout)
  {
    hide Proper;
  }

  /** Moving an output in the maps is moving its location, if the machine can. */
  lemma OutputMovedAgrees(m: Maps, layout: Layout, outer: Key, inner: Key)
    requires m.Fits(layout)
    ensures OutputMoved(m, outer, inner).Some? ==> OutputMoved(m, outer, inner).value.Fits(layout)
    ensures m.Disjoint() && SetOutput(m.Locations(layout), outer, inner).Some? ==>
              && OutputMoved(m, outer, inner).Some? && OutputMoved(m, outer, inner).value.Disjoint()
              && SetOutput(m.Locations(layout), outer, inner) == Some(OutputMoved(m, outer, inner).value.Locations(layout))
  {
    if m.Disjoint() && SetOutput(m.Locations(layout), outer, inner).Some? {
      OutputIsClean(m, layout, outer, inner);
      InputMovedAgrees(m, layout, outer, inner);
    }
  }

  /** What the machine lets be an output is in none of the other maps, and neither is
      what it takes the location from. */
  lemma OutputIsClean(m: Maps, layout: Layout, outer: Key, inner: Key)
    requires m.Fits(layout) && m.Disjoint() && SetOutput(m.Locations(layout), outer, inner).Some?
    ensures inner !in m.inputs && inner !in m.references
    ensures OutputMoved(m, outer, inner) == InputMoved(m, outer, inner)
    ensures OutputMoved(m, outer, inner).Some?
    ensures SetOutput(m.Locations(layout), outer, inner) == SetInput(m.Locations(layout), outer, inner)
  {
    var ls := m.Locations(layout);
    assert outer != inner && outer in ls && Writable(ls[outer]) && (inner in ls ==> Writable(ls[inner]));
    assert SetOutput(ls, outer, inner) == SetInput(ls, outer, inner);
    hide SetOutput, SetInput;
    WritableIsFound(m, layout, outer);
    if inner in ls { WritableIsFound(m, layout, inner); }
    assert inner in m.inputs || inner in m.references ==> inner in ls;
    hide Maps.Locations, Maps.Fits, Where, Proper, Writable;
    CleanlyMoved(m, outer, inner);
  }

  lemma CleanlyMoved(m: Maps, outer: Key, inner: Key)
    requires outer != inner && inner !in m.inputs && inner !in m.references && outer !in m.inputs && (outer in m.offsets || outer in m.outputs)
    ensures OutputMoved(m, outer, inner) == InputMoved(m, outer, inner) && OutputMoved(m, outer, inner).Some?
  {
    assert m.Erase(inner) == m.(offsets := m.offsets - {inner}, outputs := m.outputs - {inner});
  }

  /** Where a key is in one map only, it is found there. */
  lemma FindsIn(m: Maps, k: Key)
    requires m.Disjoint()
    ensures k in m.Domain() <==> k in m.offsets || k in m.inputs || k in m.outputs || k in m.references
    ensures k in m.offsets ==> m.Find(k) == Some(Temporary(m.offsets[k]))
    ensures k in m.inputs ==> m.Find(k) == Some(Argument(m.inputs[k]))
    ensures k in m.outputs ==> m.Find(k) == Some(Result(m.outputs[k]))
    ensures k in m.references ==> m.Find(k) == Some(Reference(m.references[k]))
  {
  }

  lemma WritableIsFound(m: Maps, layout: Layout, k: Key)
    requires m.Fits(layout) && m.Disjoint() && k in m.Locations(layout) && Writable(m.Locations(layout)[k])
    ensures k !in m.inputs && k !in m.references && (k in m.offsets || k in m.outputs)
  {
  }

  // ----- contents -----

  ghost predicate Holdable(layout: Layout, memory: map<Place, Bytes>) {
    IsLayout(layout) && forall p :: p in memory ==> Proper(layout, p)
  }

  ghost function StoreOf(layout: Layout, memory: map<Place, Bytes>): map<Location, Bytes>
    requires Holdable(layout, memory)
  {
    InjectiveOn(layout, memory.Keys);
    map p | p in memory :: Where(layout, p) := memory[p]
  }

  lemma InjectiveOn(layout: Layout, ps: set<Place>)
    requires IsLayout(layout) && forall p :: p in ps ==> Proper(layout, p)
    ensures forall p, q :: p in ps && q in ps && Where(layout, p) == Where(layout, q) ==> p == q
  {
    hide Where, Proper, IsLayout;
    forall p, q | p in ps && q in ps && Where(layout, p) == Where(layout, q) ensures p == q {
      WhereIsInjective(layout, p, q);
    }
  }

  lemma StoreHas(layout: Layout, memory: map<Place, Bytes>, p: Place)
    requires Holdable(layout, memory) && Proper(layout, p)
    ensures Where(layout, p) in StoreOf(layout, memory) <==> p in memory
    ensures p in memory ==> StoreOf(layout, memory)[Where(layout, p)] == memory[p]
  {
    hide Where, Proper;
    InjectiveOn(layout, memory.Keys + {p});
  }

  lemma StoreIsFrom(layout: Layout, memory: map<Place, Bytes>, l: Location)
    requires Holdable(layout, memory) && l in StoreOf(layout, memory)
    ensures exists p :: p in memory && Proper(layout, p) && Where(layout, p) == l
  {
    hide Where, Proper, IsLayout;
  }

  lemma StoreWrittenAt(layout: Layout, memory: map<Place, Bytes>, p: Place, v: Bytes, l: Location)
    requires Holdable(layout, memory) && Proper(layout, p)
    ensures Holdable(layout, memory[p := v])
    ensures var a, b := StoreOf(layout, memory[p := v]), StoreOf(layout, memory)[Where(layout, p) := v];
            (l in a <==> l in b) && (l in a ==> a[l] == b[l])
  {
    hide Where, Proper, IsLayout, StoreOf;
    var a, b := StoreOf(layout, memory[p := v]), StoreOf(layout, memory)[Where(layout, p) := v];
    StoreHas(layout, memory[p := v], p);
    if l != Where(layout, p) {
      if l in a {
        StoreIsFrom(layout, memory[p := v], l);
        var q :| q in memory[p := v] && Where(layout, q) == l;
        StoreHas(layout, memory[p := v], q);
        StoreHas(layout, memory, q);
      }
      if l in b {
        StoreIsFrom(layout, memory, l);
        var q :| q in memory && Where(layout, q) == l;
        StoreHas(layout, memory[p := v], q);
        StoreHas(layout, memory, q);
      }
    }
  }

  lemma StoreWritten(layout: Layout, memory: map<Place, Bytes>, p: Place, v: Bytes)
    requires Holdable(layout, memory) && Proper(layout, p)
    ensures Holdable(layout, memory[p := v])
    ensures StoreOf(layout, memory[p := v]) == StoreOf(layout, memory)[Where(layout, p) := v]
  {
    hide Where, Proper, IsLayout, StoreOf;
    var a, b := StoreOf(layout, memory[p := v]), StoreOf(layout, memory)[Where(layout, p) := v];
    forall l | l in a || l in b ensures l in a && l in b && a[l] == b[l] {
      StoreWrittenAt(layout, memory, p, v, l);
    }
  }

  /** Reading in the machine is reading at the place that the maps give. */
  lemma ReadAgrees(layout: Layout, m: Maps, memory: map<Place, Bytes>, s: State, k: Key)
    requires m.Fits(layout) && Holdable(layout, memory)
    requires s.locations == m.Locations(layout) && s.store == StoreOf(layout, memory)
    ensures Read(s, k) ==
            match m.Find(k)
            case Some(p) => (if p in memory then Some(memory[p]) else None)
            case None => None
    ensures m.Find(k).Some? ==> Proper(layout, m.Find(k).value)
  {
    hide StoreOf, Where, Proper, IsLayout, Holdable;
    match m.Find(k) {
      case Some(p) => StoreHas(layout, memory, p);
      case None =>
    }
  }

  // ----- changing buffers -----

  /** A temporary that moves to another offset. */
  lemma OffsetFinds(m: Maps, k: Key, o: nat)
    requires k in m.offsets
    ensures var e := m.(offsets := m.offsets[k := o]);
            && e.Domain() == m.Domain() && e.Find(k) == Some(Temporary(o))
            && (forall x :: x != k ==> e.Find(x) == m.Find(x)) && (m.Disjoint() ==> e.Disjoint())
  {
  }

  lemma OffsetChanged(m: Maps, layout: Layout, k: Key, o: nat)
    requires m.Fits(layout) && k in m.offsets && o in layout
    ensures var e := m.(offsets := m.offsets[k := o]);
            && e.Fits(layout) && (m.Disjoint() ==> e.Disjoint())
            && e.Locations(layout) == m.Locations(layout)[k := layout[o]]
  {
    hide Proper, Where, Maps.Find, Maps.Domain, Maps.Disjoint, Maps.Fits, Maps.Locations;
    OffsetFinds(m, k, o);
    OffsetFits(m, layout, k, o);
  }

  lemma OffsetFits(m: Maps, layout: Layout, k: Key, o: nat)
    requires m.Fits(layout) && k in m.offsets && o in layout
    ensures m.(offsets := m.offsets[k := o]).Fits(layout) && k in m.Domain()
    ensures Proper(layout, Temporary(o)) && Where(layout, Temporary(o)) == layout[o]
  {
  }

  lemma SlotIsTemporary(m: Maps, layout: Layout, k: Key)
    requires m.Fits(layout) && k in m.Locations(layout) && m.Locations(layout)[k].Slot?
    ensures k in m.offsets && layout[m.offsets[k]] == m.Locations(layout)[k]
  {
  }

  lemma ExchangeAppend(a: Locations, b: Locations, ks: seq<Key>, k: Key)
    requires k in a && k in b && k !in ks && forall x :: x in ks ==> x in b
    ensures Exchange(a, b, ks + [k]) == Exchange(a, b, ks)[k := b[k]]
    ensures Exchange(a, b, ks)[k] == a[k]
  {
    var l, r := Exchange(a, b, ks + [k]), Exchange(a, b, ks)[k := b[k]];
    assert l.Keys == r.Keys;
  }

  // ----- copying -----

  lemma {:induction false} CopyAllAppend(store: map<Location, Bytes>, from: seq<Location>, to: seq<Location>, x: Location, y: Location)
    requires |from| == |to|
    ensures CopyAll(store, from + [x], to + [y]) ==
            match CopyAll(store, from, to)
            case Some(r) => (if x in r then Some(r[y := r[x]]) else None)
            case None => None
    decreases |from|
  {
    if from == [] {
      assert from + [x] == [x] && to + [y] == [y];
    } else {
      assert (from + [x])[1..] == from[1..] + [x] && (to + [y])[1..] == to[1..] + [y];
      if from[0] in store {
        CopyAllAppend(store[to[0] := store[from[0]]], from[1..], to[1..], x, y);
      }
    }
  }

  lemma {:induction false} CopyAllPrefix(store: map<Location, Bytes>, from: seq<Location>, to: seq<Location>, i: nat)
    requires |from| == |to| && i <= |from|
    requires CopyAll(store, from, to).Some?
    ensures CopyAll(store, from[..i], to[..i]).Some?
    ensures i < |from| ==> from[i] in CopyAll(store, from[..i], to[..i]).value
    decreases |from| - i
  {
    if i < |from| {
      CopyAllPrefix(store, from, to, i + 1);
      assert from[..i + 1] == from[..i] + [from[i]] && to[..i + 1] == to[..i] + [to[i]];
      CopyAllAppend(store, from[..i], to[..i], from[i], to[i]);
    } else {
      assert from[..i] == from && to[..i] == to;
    }
  }
}
