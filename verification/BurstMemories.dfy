/** The memories of a burst: the client gives every memory a slot, and the server keeps
    the memories of the slots that it has seen. */
module BurstMemories {
  import opened Options

  type Key = int

  // A handle to shared memory. A default one is not valid.
  datatype Memory = Memory(valid: bool, id: int)

  const NO_MEMORY := Memory(false, 0)
  const MAX_SLOTS := 0x7FFF_FFFF

  // ----- the client's memories -----

  // The slot of each key, the stack of free slots, and the memory in each slot.
  datatype SlotCache = SlotCache(slotOf: map<Key, nat>, free: seq<nat>, memories: seq<Memory>)

  const EMPTY := SlotCache(map[], [], [])

  ghost predicate Bound(c: SlotCache, slot: nat) {
    exists k :: k in c.slotOf && c.slotOf[k] == slot
  }

  ghost predicate NoDuplicates(s: seq<nat>) {
    forall i, j :: 0 <= i < j < |s| ==> s[i] != s[j]
  }

  /** Every slot ever used is bound to one key or is free, once, and empty. */
  ghost predicate WellFormed(c: SlotCache) {
    && (forall k :: k in c.slotOf ==> c.slotOf[k] < |c.memories|)
    && (forall k, k' :: k in c.slotOf && k' in c.slotOf && c.slotOf[k] == c.slotOf[k'] ==> k == k')
    && NoDuplicates(c.free)
    && (forall s :: s in c.free ==> s < |c.memories| && c.memories[s] == NO_MEMORY)
    && (forall s: nat :: s < |c.memories| ==> (s in c.free <==> !Bound(c, s)))
    && |c.slotOf| + |c.free| == |c.memories| <= MAX_SLOTS
  }

  // The slot on top of the stack, or one that has never been used.
  function AllocateSlot(c: SlotCache): Option<(nat, SlotCache)> {
    if |c.free| > 0 then Some((c.free[|c.free| - 1], c.(free := c.free[..|c.free| - 1])))
    else if |c.memories| < MAX_SLOTS then Some((|c.memories|, c.(memories := c.memories + [NO_MEMORY])))
    else None
  }

  function SlotFor(c: SlotCache, memory: Memory, key: Key): Option<(nat, SlotCache)> {
    if key in c.slotOf then Some((c.slotOf[key], c))
    else
      match AllocateSlot(c)
      case None => None
      case Some((slot, c')) =>
        if slot >= |c'.memories| then None
        else Some((slot, c'.(slotOf := c'.slotOf[key := slot], memories := c'.memories[slot := memory])))
  }

  function SlotsFor(c: SlotCache, memories: seq<Memory>, keys: seq<Key>): Option<(seq<nat>, SlotCache)>
    requires |memories| == |keys|
    decreases |keys|
  {
    if keys == [] then Some(([], c))
    else
      match SlotFor(c, memories[0], keys[0])
      case None => None
      case Some((slot, c')) =>
        match SlotsFor(c', memories[1..], keys[1..])
        case None => None
        case Some((slots, c'')) => Some(([slot] + slots, c''))
  }

  function Freed(c: SlotCache, key: Key): SlotCache
    requires key in c.slotOf && c.slotOf[key] < |c.memories|
  {
    var slot := c.slotOf[key];
    SlotCache(c.slotOf - {key}, c.free + [slot], c.memories[slot := NO_MEMORY])
  }

  // What the client has for a slot.
  function Lookup(c: SlotCache, slot: int): Memory {
    if 0 <= slot < |c.memories| then c.memories[slot] else NO_MEMORY
  }

  // The memories of the slots, unless one of them is not valid.
  function MemoriesOf(c: SlotCache, slots: seq<int>): Option<seq<Memory>> {
    var memories := seq(|slots|, i requires 0 <= i < |slots| => Lookup(c, slots[i]));
    if forall m :: m in memories ==> m.valid then Some(memories) else None
  }

  // ----- slots are handed out once -----

  /** What is bound stays bound to the same slot, with the same memory. */
  ghost predicate Keeps(c: SlotCache, c': SlotCache) {
    && (forall k :: k in c.slotOf ==> k in c'.slotOf && c'.slotOf[k] == c.slotOf[k])
    && |c.memories| <= |c'.memories|
    && (forall k :: k in c.slotOf ==> Lookup(c', c.slotOf[k]) == Lookup(c, c.slotOf[k]))
  }

  /** The slot is out of use in c, and c0 is c without it among the free ones. */
  ghost predicate TakenOut(c: SlotCache, slot: nat, c0: SlotCache) {
    && c0.slotOf == c.slotOf && !Bound(c, slot) && slot < |c0.memories| && |c.memories| <= |c0.memories|
    && slot !in c0.free && NoDuplicates(c0.free)
    && (forall s :: s in c0.free ==> s in c.free) && (forall s :: s in c.free ==> s == slot || s in c0.free)
    && (forall s: nat :: s < |c.memories| ==> c0.memories[s] == c.memories[s])
    && (|c0.memories| == |c.memories| || (|c0.memories| == |c.memories| + 1 && slot == |c.memories|))
    && |c0.slotOf| + |c0.free| + 1 == |c0.memories| <= MAX_SLOTS
  }

  lemma AllocateKeeps(c: SlotCache)
    requires WellFormed(c)
    ensures AllocateSlot(c).None? <==> |c.slotOf| == MAX_SLOTS
    ensures AllocateSlot(c).Some? ==> TakenOut(c, AllocateSlot(c).value.0, AllocateSlot(c).value.1)
  {
    if |c.free| > 0 {
      var slot := c.free[|c.free| - 1];
      assert slot in c.free;
      assert forall s :: s in c.free ==> s == slot || s in c.free[..|c.free| - 1];
    }
  }

  lemma BindKeeps(c: SlotCache, slot: nat, c0: SlotCache, memory: Memory, key: Key)
    requires WellFormed(c) && TakenOut(c, slot, c0) && key !in c.slotOf
    ensures var c' := c0.(slotOf := c0.slotOf[key := slot], memories := c0.memories[slot := memory]);
            Keeps(c, c') && c'.slotOf.Keys == c.slotOf.Keys + {key} && c'.memories[slot] == memory
  {
    var c' := c0.(slotOf := c0.slotOf[key := slot], memories := c0.memories[slot := memory]);
    forall k | k in c.slotOf ensures Lookup(c', c.slotOf[k]) == Lookup(c, c.slotOf[k]) {
      assert Bound(c, c.slotOf[k]);
    }
  }

  lemma BoundAfter(c: SlotCache, slot: nat, c0: SlotCache, memory: Memory, key: Key, s: nat)
    requires c0.slotOf == c.slotOf && key !in c.slotOf && slot < |c0.memories|
    ensures Bound(c0.(slotOf := c0.slotOf[key := slot], memories := c0.memories[slot := memory]), s) <==> s == slot || Bound(c, s)
  {
    var c' := c0.(slotOf := c0.slotOf[key := slot], memories := c0.memories[slot := memory]);
    if s == slot {
      assert key in c'.slotOf && c'.slotOf[key] == s;
    } else if Bound(c, s) {
      var k :| k in c.slotOf && c.slotOf[k] == s;
      assert k in c'.slotOf && c'.slotOf[k] == s;
    }
  }

  lemma BoundIsInjective(c: SlotCache, slot: nat, key: Key)
    requires WellFormed(c) && !Bound(c, slot) && key !in c.slotOf
    ensures var slotOf := c.slotOf[key := slot];
            && |slotOf| == |c.slotOf| + 1
            && forall k, k' :: k in slotOf && k' in slotOf && slotOf[k] == slotOf[k'] ==> k == k'
  {
    assert forall k :: k in c.slotOf ==> Bound(c, c.slotOf[k]);
    hide Bound, NoDuplicates;
  }

  lemma BindIsWellFormed(c: SlotCache, slot: nat, c0: SlotCache, memory: Memory, key: Key)
    requires WellFormed(c) && TakenOut(c, slot, c0) && key !in c.slotOf
    ensures WellFormed(c0.(slotOf := c0.slotOf[key := slot], memories := c0.memories[slot := memory]))
  {
    var c' := c0.(slotOf := c0.slotOf[key := slot], memories := c0.memories[slot := memory]);
    BoundIsInjective(c, slot, key);
    hide Bound, NoDuplicates;
    forall s: nat | s < |c'.memories| ensures s in c'.free <==> !Bound(c', s) {
      BoundAfter(c, slot, c0, memory, key, s);
    }
  }

  lemma GetSlotKeeps(c: SlotCache, memory: Memory, key: Key)
    requires WellFormed(c)
    ensures SlotFor(c, memory, key).None? <==> key !in c.slotOf && |c.slotOf| == MAX_SLOTS
    ensures match SlotFor(c, memory, key)
            case None => true
            case Some((slot, c')) =>
              && WellFormed(c') && Keeps(c, c') && c'.slotOf.Keys == c.slotOf.Keys + {key}
              && c'.slotOf[key] == slot && (key !in c.slotOf ==> c'.memories[slot] == memory)
  {
    if key !in c.slotOf {
      AllocateKeeps(c);
      if AllocateSlot(c).Some? {
        var (slot, c0) := AllocateSlot(c).value;
        BindKeeps(c, slot, c0, memory, key);
        BindIsWellFormed(c, slot, c0, memory, key);
      }
    }
  }

  /** The keys name memories: a bound key names the memory it was bound with, and a key
      that occurs twice names one memory. */
  ghost predicate Named(c: SlotCache, memories: seq<Memory>, keys: seq<Key>)
    requires |memories| == |keys|
  {
    && (forall i :: 0 <= i < |keys| && keys[i] in c.slotOf ==> Lookup(c, c.slotOf[keys[i]]) == memories[i])
    && (forall i, j :: 0 <= i < j < |keys| && keys[i] == keys[j] ==> memories[i] == memories[j])
  }

  ghost function KeySet(keys: seq<Key>): set<Key> { set k | k in keys }

  ghost predicate SlotsFit(c: SlotCache, slots: seq<nat>, keys: seq<Key>) {
    |slots| == |keys| && forall i :: 0 <= i < |keys| ==> keys[i] in c.slotOf && c.slotOf[keys[i]] == slots[i]
  }

  /** Every key is bound to its slot, and the slots hold the given memories exactly if
      the keys name them. */
  ghost predicate Got(c: SlotCache, memories: seq<Memory>, keys: seq<Key>, slots: seq<nat>, c': SlotCache)
    requires |memories| == |keys|
    ensures Got(c, memories, keys, slots, c') ==> |slots| == |keys|
  {
    && WellFormed(c') && Keeps(c, c') && c'.slotOf.Keys == c.slotOf.Keys + KeySet(keys) && SlotsFit(c', slots, keys)
    && ((forall i :: 0 <= i < |keys| ==> Lookup(c', slots[i]) == memories[i]) <==> Named(c, memories, keys))
  }

  /** Slots run out exactly if there are more keys than slots. */
  lemma {:induction false} SlotsRunOut(c: SlotCache, memories: seq<Memory>, keys: seq<Key>)
    requires WellFormed(c) && |memories| == |keys|
    ensures SlotsFor(c, memories, keys).None? <==> |c.slotOf.Keys + KeySet(keys)| > 0x7FFF_FFFF
    decreases |keys|
  {
    hide WellFormed, Keeps, SlotFor, KeySet;
    if keys == [] {
      NothingGot(c, memories, keys);
      SlotsAreEnough(c);
      assert c.slotOf.Keys + KeySet(keys) == c.slotOf.Keys;
    } else {
      var m, k, ms, ks := memories[0], keys[0], memories[1..], keys[1..];
      GetSlotKeeps(c, m, k);
      KeysSplit(c.slotOf.Keys, keys);
      if SlotFor(c, m, k).Some? {
        SlotsRunOut(SlotFor(c, m, k).value.1, ms, ks);
      } else {
        Larger(c.slotOf.Keys + {k}, c.slotOf.Keys + KeySet(keys));
      }
    }
  }

  lemma KeysSplit(bound: set<Key>, keys: seq<Key>)
    requires keys != []
    ensures bound + {keys[0]} + KeySet(keys[1..]) == bound + KeySet(keys) && keys[0] in KeySet(keys)
  {
    assert KeySet(keys) == {keys[0]} + KeySet(keys[1..]);
  }

  lemma {:induction false} GetSlotsKeeps(c: SlotCache, memories: seq<Memory>, keys: seq<Key>)
    requires WellFormed(c) && |memories| == |keys| && SlotsFor(c, memories, keys).Some?
    ensures Got(c, memories, keys, SlotsFor(c, memories, keys).value.0, SlotsFor(c, memories, keys).value.1)
    decreases |keys|
  {
    hide WellFormed, Named, Keeps, SlotFor, SlotsFit, Got, KeySet;
    if keys == [] {
      NothingGot(c, memories, keys);
    } else {
      var m, k, ms, ks := memories[0], keys[0], memories[1..], keys[1..];
      GetSlotKeeps(c, m, k);
      var (slot, c1) := SlotFor(c, m, k).value;
      GetSlotsKeeps(c1, ms, ks);
      var (slots, c') := SlotsFor(c1, ms, ks).value;
      InNewSlot(c, m, k);
      OneMoreGot(c, memories, keys, slot, c1, slots, c');
    }
  }

  lemma InNewSlot(c: SlotCache, memory: Memory, key: Key)
    requires WellFormed(c) && SlotFor(c, memory, key).Some?
    ensures var (slot, c') := SlotFor(c, memory, key).value; slot < |c'.memories|
  {
  }

  lemma NothingGot(c: SlotCache, memories: seq<Memory>, keys: seq<Key>)
    requires WellFormed(c) && keys == [] && memories == []
    ensures KeySet(keys) == {} && Got(c, memories, keys, [], c)
  {
    hide WellFormed;
    assert c.slotOf.Keys + KeySet(keys) == c.slotOf.Keys;
  }

  lemma OneMoreGot(c: SlotCache, memories: seq<Memory>, keys: seq<Key>, slot: nat, c1: SlotCache, slots: seq<nat>, c': SlotCache)
    requires WellFormed(c) && WellFormed(c1) && |memories| == |keys| > 0
    requires Keeps(c, c1) && c1.slotOf.Keys == c.slotOf.Keys + {keys[0]} && c1.slotOf[keys[0]] == slot
    requires keys[0] !in c.slotOf ==> slot < |c1.memories| && c1.memories[slot] == memories[0]
    requires Got(c1, memories[1..], keys[1..], slots, c')
    ensures Got(c, memories, keys, [slot] + slots, c')
  {
    hide WellFormed, Named, Keeps, SlotsFit;
    SlotsAreInRange(c);
    SlotsAreInRange(c1);
    KeepsTwice(c, c1, c', keys[0]);
    OneMoreSlot(c', slot, slots, keys);
    assert KeySet(keys) == {keys[0]} + KeySet(keys[1..]);
    NamedStep(c, c1, c', memories, keys, slot, slots);
  }

  lemma SlotsAreEnough(c: SlotCache)
    requires WellFormed(c)
    ensures |c.slotOf| <= MAX_SLOTS && |c.slotOf.Keys| == |c.slotOf|
  {
  }

  lemma SlotsAreInRange(c: SlotCache)
    requires WellFormed(c)
    ensures forall k :: k in c.slotOf ==> c.slotOf[k] < |c.memories|
  {
  }

  lemma OneMoreSlot(c: SlotCache, slot: nat, slots: seq<nat>, keys: seq<Key>)
    requires keys != [] && SlotsFit(c, slots, keys[1..]) && keys[0] in c.slotOf && c.slotOf[keys[0]] == slot
    ensures SlotsFit(c, [slot] + slots, keys)
  {
    var all := [slot] + slots;
    forall i | 0 <= i < |keys| ensures keys[i] in c.slotOf && c.slotOf[keys[i]] == all[i] {
      if i > 0 { assert keys[1..][i - 1] == keys[i]; }
    }
  }

  lemma KeepsTwice(c: SlotCache, c1: SlotCache, c': SlotCache, k: Key)
    requires Keeps(c, c1) && Keeps(c1, c') && (forall k :: k in c.slotOf ==> c.slotOf[k] < |c.memories|) && k in c1.slotOf
    ensures Keeps(c, c') && k in c'.slotOf && c'.slotOf[k] == c1.slotOf[k]
  {
  }

  lemma Larger(a: set<Key>, b: set<Key>)
    requires a <= b
    ensures |a| <= |b|
  {
    if a != b {
      assert |b| == |a| + |b - a| by { assert b == a + (b - a); }
    }
  }

  lemma KeptLookup(c: SlotCache, c': SlotCache, k: Key)
    requires Keeps(c, c') && k in c.slotOf
    ensures Lookup(c', c.slotOf[k]) == Lookup(c, c.slotOf[k])
  {
  }

  lemma NamedStep(c: SlotCache, c1: SlotCache, c': SlotCache, memories: seq<Memory>, keys: seq<Key>, slot: nat, slots: seq<nat>)
    requires |memories| == |keys| > 0 && |slots| == |keys| - 1
    requires Keeps(c, c1) && Keeps(c1, c') && c1.slotOf.Keys == c.slotOf.Keys + {keys[0]} && c1.slotOf[keys[0]] == slot < |c1.memories|
    requires forall k :: k in c.slotOf ==> c.slotOf[k] < |c.memories|
    requires keys[0] !in c.slotOf ==> c1.memories[slot] == memories[0]
    requires (forall i :: 0 <= i < |keys| - 1 ==> Lookup(c', slots[i]) == memories[1..][i]) <==> Named(c1, memories[1..], keys[1..])
    ensures (forall i :: 0 <= i < |keys| ==> Lookup(c', ([slot] + slots)[i]) == memories[i]) <==> Named(c, memories, keys)
  {
    var all := [slot] + slots;
    NamedSplits(c, c1, memories, keys, slot);
    KeptLookup(c1, c', keys[0]);
    hide Keeps, Named;
    assert all[0] == slot && Lookup(c', slot) == c1.memories[slot];
    assert forall i :: 1 <= i < |keys| ==> all[i] == slots[i - 1] && memories[1..][i - 1] == memories[i];
    if forall i :: 0 <= i < |keys| ==> Lookup(c', all[i]) == memories[i] {
      forall i | 0 <= i < |keys| - 1 ensures Lookup(c', slots[i]) == memories[1..][i] {
        assert Lookup(c', all[i + 1]) == memories[i + 1];
      }
    }
  }

  // What c1 adds to c: the first key, bound to a slot that holds the first memory if it is new.
  ghost predicate Extended(c: SlotCache, c1: SlotCache, memory: Memory, key: Key, slot: nat) {
    && Keeps(c, c1) && c1.slotOf.Keys == c.slotOf.Keys + {key} && c1.slotOf[key] == slot < |c1.memories|
    && (forall k :: k in c.slotOf ==> c.slotOf[k] < |c.memories|)
    && (key !in c.slotOf ==> c1.memories[slot] == memory)
  }

  lemma NamedRest(c: SlotCache, c1: SlotCache, memories: seq<Memory>, keys: seq<Key>, slot: nat)
    requires |memories| == |keys| > 0 && Extended(c, c1, memories[0], keys[0], slot)
    requires Named(c, memories, keys)
    ensures c1.memories[slot] == memories[0] && Named(c1, memories[1..], keys[1..])
  {
    var ms, ks := memories[1..], keys[1..];
    forall i | 0 <= i < |ks| && ks[i] in c1.slotOf ensures Lookup(c1, c1.slotOf[ks[i]]) == ms[i] {
      assert keys[i + 1] == ks[i];
    }
  }

  lemma NamedAgain(c: SlotCache, c1: SlotCache, memories: seq<Memory>, keys: seq<Key>, slot: nat)
    requires |memories| == |keys| > 0 && Extended(c, c1, memories[0], keys[0], slot)
    requires c1.memories[slot] == memories[0] && Named(c1, memories[1..], keys[1..])
    ensures Named(c, memories, keys)
  {
    var ms, ks := memories[1..], keys[1..];
    forall i | 0 <= i < |keys| && keys[i] in c.slotOf ensures Lookup(c, c.slotOf[keys[i]]) == memories[i] {
      if i > 0 { assert ks[i - 1] == keys[i]; } else { assert c1.slotOf[keys[0]] == c.slotOf[keys[0]]; }
    }
    forall i, j | 0 <= i < j < |keys| && keys[i] == keys[j] ensures memories[i] == memories[j] {
      assert ks[j - 1] == keys[j] && ms[j - 1] == memories[j];
      if i > 0 { assert ks[i - 1] == keys[i]; }
    }
  }

  lemma NamedSplits(c: SlotCache, c1: SlotCache, memories: seq<Memory>, keys: seq<Key>, slot: nat)
    requires |memories| == |keys| > 0 && Extended(c, c1, memories[0], keys[0], slot)
    ensures Named(c, memories, keys) <==> c1.memories[slot] == memories[0] && Named(c1, memories[1..], keys[1..])
  {
    hide Named, Keeps;
    if Named(c, memories, keys) { NamedRest(c, c1, memories, keys, slot); }
    if c1.memories[slot] == memories[0] && Named(c1, memories[1..], keys[1..]) { NamedAgain(c, c1, memories, keys, slot); }
  }

  lemma BoundAfterFreed(c: SlotCache, key: Key, s: nat)
    requires WellFormed(c) && key in c.slotOf
    ensures Bound(Freed(c, key), s) <==> Bound(c, s) && s != c.slotOf[key]
  {
    var slot, c' := c.slotOf[key], Freed(c, key);
    if Bound(c, s) && s != slot {
      var k :| k in c.slotOf && c.slotOf[k] == s;
      assert k in c'.slotOf;
    }
  }

  /** Freeing a key frees its slot and nothing else. */
  lemma FreedKeeps(c: SlotCache, key: Key)
    requires WellFormed(c) && key in c.slotOf
    ensures WellFormed(Freed(c, key)) && !Bound(Freed(c, key), c.slotOf[key])
    ensures forall x: int :: x != c.slotOf[key] ==> Lookup(Freed(c, key), x) == Lookup(c, x)
    ensures forall s: nat :: s != c.slotOf[key] ==> (Bound(Freed(c, key), s) <==> Bound(c, s))
  {
    var slot, c' := c.slotOf[key], Freed(c, key);
    forall s: nat ensures Bound(c', s) <==> Bound(c, s) && s != slot { BoundAfterFreed(c, key, s); }
    assert Bound(c, slot);
    hide Bound;
    assert |c'.slotOf| == |c.slotOf| - 1 by { assert c.slotOf == c'.slotOf[key := slot]; }
    assert forall s :: s in c'.free <==> s in c.free || s == slot;
  }

  class ExecutionBurstCallback {
    var memoryIdToSlot: map<Key, nat>
    var freeSlots: seq<nat>
    var memoryCache: seq<Memory>

    function State(): SlotCache
      reads this
    {
      SlotCache(memoryIdToSlot, freeSlots, memoryCache)
    }

    constructor ()
      ensures State() == EMPTY && WellFormed(State())
    {
      memoryIdToSlot, freeSlots, memoryCache := map[], [], [];
      new;
      assert forall s: nat :: !Bound(State(), s);
    }

    // Fails where the runtime stops the process.
    method AllocateSlotLocked() returns (slot: Option<nat>)
      modifies this
      ensures match AllocateSlot(old(State()))
              case None => slot == None && State() == old(State())
              case Some((s, c)) => slot == Some(s) && State() == c
    {
      if |freeSlots| > 0 {
        slot := Some(freeSlots[|freeSlots| - 1]);
        freeSlots := freeSlots[..|freeSlots| - 1];
        return;
      }
      if |memoryCache| >= MAX_SLOTS { return None; }
      slot := Some(|memoryCache|);
      memoryCache := memoryCache + [NO_MEMORY];
    }

    method GetSlotLocked(memory: Memory, key: Key) returns (slot: Option<nat>)
      requires WellFormed(State())
      modifies this
      ensures match SlotFor(old(State()), memory, key)
              case None => slot == None
              case Some((s, c)) => slot == Some(s) && State() == c && WellFormed(c)
    {
      GetSlotKeeps(State(), memory, key);
      if key in memoryIdToSlot { return Some(memoryIdToSlot[key]); }
      AllocateKeeps(State());
      slot := AllocateSlotLocked();
      if slot.None? { return; }
      memoryIdToSlot := memoryIdToSlot[key := slot.value];
      memoryCache := memoryCache[slot.value := memory];
    }

    // Retrieves or binds the slots of all memories.
    method GetSlots(memories: seq<Memory>, keys: seq<Key>) returns (slots: Option<seq<nat>>)
      requires WellFormed(State()) && |memories| == |keys|
      modifies this
      ensures match SlotsFor(old(State()), memories, keys)
              case None => slots == None
              case Some((all, c)) => slots == Some(all) && State() == c && WellFormed(c)
    {
      hide WellFormed, SlotFor;
      var all: seq<nat> := [];
      ghost var c0 := State();
      assert memories[0..] == memories && keys[0..] == keys;
      AfterNothing(SlotsFor(c0, memories, keys));
      for i := 0 to |memories|
        invariant WellFormed(State())
        invariant SlotsFor(c0, memories, keys) == After(all, SlotsFor(State(), memories[i..], keys[i..]))
      {
        ghost var before := State();
        var slot := GetSlotLocked(memories[i], keys[i]);
        assert memories[i..][1..] == memories[i + 1..] && keys[i..][1..] == keys[i + 1..];
        if slot.None? { return None; }
        AfterBoth(all, slot.value, SlotsFor(State(), memories[i + 1..], keys[i + 1..]));
        all := all + [slot.value];
      }
      assert all + [] == all;
      return Some(all);
    }

    // Unbinds a key. Says whether it was bound, and which slot is free now.
    method FreeMemory(key: Key) returns (valid: bool, slot: nat)
      requires WellFormed(State())
      modifies this
      ensures valid <==> key in old(memoryIdToSlot)
      ensures if valid then slot == old(memoryIdToSlot)[key] && State() == Freed(old(State()), key) else slot == 0 && State() == old(State())
      ensures WellFormed(State())
    {
      if key !in memoryIdToSlot { return false, 0; }
      FreedKeeps(State(), key);
      slot := memoryIdToSlot[key];
      memoryIdToSlot := memoryIdToSlot - {key};
      memoryCache := memoryCache[slot := NO_MEMORY];
      freeSlots := freeSlots + [slot];
      valid := true;
    }

    method GetMemories(slots: seq<int>) returns (r: Option<seq<Memory>>)
      ensures r == MemoriesOf(State(), slots)
    {
      var memories := [];
      for i := 0 to |slots|
        invariant |memories| == i && forall j :: 0 <= j < i ==> memories[j] == Lookup(State(), slots[j])
      {
        memories := memories + [if 0 <= slots[i] < |memoryCache| then memoryCache[slots[i]] else NO_MEMORY];
      }
      ghost var c := State();
      ghost var all := seq(|slots|, i requires 0 <= i < |slots| => Lookup(c, slots[i]));
      assert memories == all;
      if forall m :: m in memories ==> m.valid { r := Some(memories); } else { r := None; }
    }
  }

  function After(all: seq<nat>, rest: Option<(seq<nat>, SlotCache)>): Option<(seq<nat>, SlotCache)> {
    if rest.None? then None else Some((all + rest.value.0, rest.value.1))
  }

  lemma AfterNothing(rest: Option<(seq<nat>, SlotCache)>)
    ensures After([], rest) == rest
  {
    if rest.Some? { assert [] + rest.value.0 == rest.value.0; }
  }

  lemma AfterBoth(all: seq<nat>, slot: nat, rest: Option<(seq<nat>, SlotCache)>)
    ensures After(all, After([slot], rest)) == After(all + [slot], rest)
  {
    if rest.Some? { assert all + ([slot] + rest.value.0) == all + [slot] + rest.value.0; }
  }

  // ----- the server's memories -----

  type MemoryCache = map<int, Memory>

  function IsPresent(cache: MemoryCache, slot: int): bool {
    slot in cache && cache[slot].valid
  }

  ghost predicate Ascends(s: seq<int>) {
    forall i, j :: 0 <= i < j < |s| ==> s[i] < s[j]
  }

  /** The slots that are not present, each once, in ascending order. */
  ghost predicate AreUnknown(unknown: seq<int>, cache: MemoryCache, slots: seq<int>) {
    Ascends(unknown) && forall x :: x in unknown <==> x in slots && !IsPresent(cache, x)
  }

  // The cache after the client has been asked for the memories of slots.
  function Filled(cache: MemoryCache, c: SlotCache, slots: seq<int>): MemoryCache {
    var unknown := set x | x in slots && !IsPresent(cache, x);
    if forall x :: x in unknown ==> Lookup(c, x).valid then cache + map x | x in unknown :: Lookup(c, x) else cache
  }

  // What an execution gets for a slot. Looking up a slot that is missing makes an entry.
  function Pools(cache: MemoryCache, slots: seq<int>): (r: seq<Memory>)
    ensures |r| == |slots|
  {
    seq(|slots|, i requires 0 <= i < |slots| => if slots[i] in cache then cache[slots[i]] else NO_MEMORY)
  }

  function Touched(cache: MemoryCache, slots: seq<int>): MemoryCache {
    cache + map x | x in slots && x !in cache :: NO_MEMORY
  }

  /** Valid entries are what the client has for the slot; other entries are default ones. */
  ghost predicate Mirrors(cache: MemoryCache, c: SlotCache) {
    forall x :: x in cache ==> if cache[x].valid then cache[x] == Lookup(c, x) else cache[x] == NO_MEMORY
  }

  lemma FilledMirrors(cache: MemoryCache, c: SlotCache, slots: seq<int>)
    requires Mirrors(cache, c)
    ensures Mirrors(Filled(cache, c, slots), c) && Mirrors(Touched(Filled(cache, c, slots), slots), c)
  {
  }

  /** An execution runs with exactly what the client has for the slots if and only if,
      of those that the server does not know yet, all are valid or all are default. */
  lemma PoolsAreTheClients(cache: MemoryCache, c: SlotCache, slots: seq<int>)
    requires Mirrors(cache, c)
    ensures (forall i :: 0 <= i < |slots| ==> Pools(Filled(cache, c, slots), slots)[i] == Lookup(c, slots[i])) <==>
            || (forall x :: x in slots && !IsPresent(cache, x) ==> Lookup(c, x).valid)
            || (forall x :: x in slots && !IsPresent(cache, x) ==> Lookup(c, x) == NO_MEMORY)
  {
    var pools := Pools(Filled(cache, c, slots), slots);
    if !(forall x :: x in slots && !IsPresent(cache, x) ==> Lookup(c, x).valid) {
      assert Filled(cache, c, slots) == cache by {
        var x :| x in slots && !IsPresent(cache, x) && !Lookup(c, x).valid;
        assert x in (set x | x in slots && !IsPresent(cache, x));
      }
      forall x | x in slots && !IsPresent(cache, x) ensures exists i :: 0 <= i < |slots| && slots[i] == x && pools[i] == NO_MEMORY {
        var i :| 0 <= i < |slots| && slots[i] == x;
        assert pools[i] == NO_MEMORY;
      }
      forall i | 0 <= i < |slots| && (IsPresent(cache, slots[i]) || Lookup(c, slots[i]) == NO_MEMORY) ensures pools[i] == Lookup(c, slots[i]) {
      }
      if forall x :: x in slots && !IsPresent(cache, x) ==> Lookup(c, x) == NO_MEMORY {
        forall i | 0 <= i < |slots| ensures pools[i] == Lookup(c, slots[i]) {
          assert slots[i] in slots;
        }
      }
    } else {
      forall i | 0 <= i < |slots| ensures pools[i] == Lookup(c, slots[i]) {
        assert slots[i] in slots;
      }
    }
  }

  /** With one memory that is valid and one that is not, and a server that knows neither, the
      execution gets neither. */
  lemma OneInvalidHidesAll()
    ensures var c := SlotCache(map[10 := 0, 11 := 1], [], [Memory(true, 7), NO_MEMORY]);
            && WellFormed(c) && Lookup(c, 0) == Memory(true, 7)
            && Pools(Filled(map[], c, [0, 1]), [0, 1]) == [NO_MEMORY, NO_MEMORY]
  {
    var c := SlotCache(map[10 := 0, 11 := 1], [], [Memory(true, 7), NO_MEMORY]);
    assert 10 in c.slotOf && 11 in c.slotOf;
    assert 1 in (set x | x in [0, 1] && !IsPresent(map[], x)) && !Lookup(c, 1).valid;
  }

  class DefaultBurstExecutorWithCache {
    var memoryCache: MemoryCache

    constructor ()
      ensures memoryCache == map[]
    {
      memoryCache := map[];
    }

    method IsCacheEntryPresent(slot: int) returns (r: bool)
      ensures r == IsPresent(memoryCache, slot)
    {
      r := slot in memoryCache && memoryCache[slot].valid;
    }

    method AddCacheEntry(memory: Memory, slot: int)
      modifies this
      ensures memoryCache == old(memoryCache)[slot := memory]
    {
      memoryCache := memoryCache[slot := memory];
    }

    method RemoveCacheEntry(slot: int)
      modifies this
      ensures memoryCache == old(memoryCache) - {slot}
    {
      memoryCache := memoryCache - {slot};
    }

    // The memories that an execution with these slots runs with.
    method ConvertSlotsToPools(slots: seq<int>) returns (pools: seq<Memory>)
      modifies this
      ensures pools == Pools(old(memoryCache), slots) && memoryCache == Touched(old(memoryCache), slots)
    {
      hide Touched;
      ghost var cache := memoryCache;
      pools := [];
      NothingTouched(cache);
      for i := 0 to |slots|
        invariant pools == Pools(cache, slots)[..i]
        invariant memoryCache == Touched(cache, slots[..i])
      {
        assert slots[..i + 1] == slots[..i] + [slots[i]];
        OneMoreTouched(cache, slots[..i], slots[i]);
        if slots[i] !in memoryCache { memoryCache := memoryCache[slots[i] := NO_MEMORY]; }
        pools := pools + [memoryCache[slots[i]]];
      }
      assert slots[..|slots|] == slots;
    }
  }

  lemma NothingTouched(cache: MemoryCache)
    ensures forall s :: s == [] ==> Touched(cache, s) == cache
  {
  }

  lemma OneMoreTouched(cache: MemoryCache, slots: seq<int>, slot: int)
    ensures var t, t' := Touched(cache, slots), Touched(cache, slots + [slot]);
            && t' == (if slot in t then t else t[slot := NO_MEMORY])
            && t'[slot] == if slot in cache then cache[slot] else NO_MEMORY
  {
    assert forall x :: x in slots + [slot] <==> x in slots || x == slot;
  }

  // Puts a slot into its place in an ascending list, unless it is there already.
  method Insert(s: seq<int>, x: int) returns (r: seq<int>)
    requires Ascends(s)
    ensures Ascends(r) && forall y :: y in r <==> y in s || y == x
  {
    var i := 0;
    while i < |s| && s[i] < x
      invariant 0 <= i <= |s| && forall j :: 0 <= j < i ==> s[j] < x
    {
      i := i + 1;
    }
    if i < |s| && s[i] == x { return s; }
    r := s[..i] + [x] + s[i..];
    InsertedAscends(s, i, x);
    InsertedHas(s, i, x);
  }

  lemma InsertedAscends(s: seq<int>, i: nat, x: int)
    requires Ascends(s) && i <= |s| && (forall j :: 0 <= j < i ==> s[j] < x) && (i < |s| ==> x < s[i])
    ensures Ascends(s[..i] + [x] + s[i..])
  {
    var r := s[..i] + [x] + s[i..];
    assert forall j :: 0 <= j < i ==> r[j] == s[j];
    assert forall j :: i < j < |r| ==> r[j] == s[j - 1];
  }

  lemma InsertedHas(s: seq<int>, i: nat, x: int)
    requires i <= |s|
    ensures forall y :: y in s[..i] + [x] + s[i..] <==> y in s || y == x
  {
    assert s == s[..i] + s[i..];
    assert forall y :: y in s <==> y in s[..i] || y in s[i..];
  }

  // Finds the unknown slots, sorted and without duplicates.
  method FindUnknownSlots(executor: DefaultBurstExecutorWithCache, slots: seq<int>) returns (unknown: seq<int>)
    ensures AreUnknown(unknown, executor.memoryCache, slots)
  {
    unknown := [];
    for i := 0 to |slots|
      invariant AreUnknown(unknown, executor.memoryCache, slots[..i])
    {
      var present := executor.IsCacheEntryPresent(slots[i]);
      if !present { unknown := Insert(unknown, slots[i]); }
      assert slots[..i + 1] == slots[..i] + [slots[i]];
    }
    assert slots[..|slots|] == slots;
  }

  /** Asks the client for the memories that are missing. */
  method EnsureCacheEntriesArePresentLocked(executor: DefaultBurstExecutorWithCache, callback: ExecutionBurstCallback, slots: seq<int>)
    modifies executor
    ensures executor.memoryCache == Filled(old(executor.memoryCache), callback.State(), slots)
  {
    hide Lookup, MemoriesOf, IsPresent, AreUnknown, Filled, Added;
    ghost var cache, c := executor.memoryCache, callback.State();
    var unknown := FindUnknownSlots(executor, slots);
    FilledIs(cache, c, slots, unknown);
    if unknown == [] { return; }
    var returned := callback.GetMemories(unknown);
    if returned.None? { return; }
    NothingAdded(cache, c);
    for i := 0 to |unknown|
      invariant callback.State() == c
      invariant executor.memoryCache == Added(cache, c, unknown[..i])
    {
      assert unknown[..i + 1] == unknown[..i] + [unknown[i]];
      OneMoreAdded(cache, c, unknown[..i], unknown[i]);
      executor.AddCacheEntry(returned.value[i], unknown[i]);
    }
    assert unknown[..|unknown|] == unknown;
  }

  function Added(cache: MemoryCache, c: SlotCache, slots: seq<int>): MemoryCache {
    cache + map x | x in slots :: Lookup(c, x)
  }

  lemma NothingAdded(cache: MemoryCache, c: SlotCache)
    ensures forall s :: s == [] ==> Added(cache, c, s) == cache
  {
  }

  lemma OneMoreAdded(cache: MemoryCache, c: SlotCache, slots: seq<int>, slot: int)
    ensures Added(cache, c, slots + [slot]) == Added(cache, c, slots)[slot := Lookup(c, slot)]
  {
    assert forall x :: x in slots + [slot] <==> x in slots || x == slot;
  }

  lemma AllLookedUp(c: SlotCache, slots: seq<int>)
    ensures MemoriesOf(c, slots).Some? <==> forall x :: x in slots ==> Lookup(c, x).valid
    ensures MemoriesOf(c, slots).Some? ==>
              && |MemoriesOf(c, slots).value| == |slots|
              && forall i :: 0 <= i < |slots| ==> MemoriesOf(c, slots).value[i] == Lookup(c, slots[i])
  {
    hide Lookup;
    var all := seq(|slots|, i requires 0 <= i < |slots| => Lookup(c, slots[i]));
    if x :| x in slots && !Lookup(c, x).valid {
      var i :| 0 <= i < |slots| && slots[i] == x;
      assert all[i] in all;
    } else {
      forall m | m in all ensures m.valid {
        var i :| 0 <= i < |all| && all[i] == m;
        assert slots[i] in slots;
      }
    }
  }

  lemma FilledIs(cache: MemoryCache, c: SlotCache, slots: seq<int>, unknown: seq<int>)
    requires AreUnknown(unknown, cache, slots)
    ensures Filled(cache, c, slots) ==
            if MemoriesOf(c, unknown).None? || unknown == [] then cache else Added(cache, c, unknown)
    ensures MemoriesOf(c, unknown).Some? ==>
              && |MemoriesOf(c, unknown).value| == |unknown|
              && forall i :: 0 <= i < |unknown| ==> MemoriesOf(c, unknown).value[i] == Lookup(c, unknown[i])
  {
    hide Lookup, IsPresent, MemoriesOf;
    AllLookedUp(c, unknown);
    var missing := set x | x in slots && !IsPresent(cache, x);
    assert forall x :: x in missing <==> x in unknown;
    assert (map x | x in missing :: Lookup(c, x)) == map x | x in unknown :: Lookup(c, x);
  }
}
