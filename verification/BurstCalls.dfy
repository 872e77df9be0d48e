/** Calls over a whole run of the burst protocol: none is lost, repeated or mixed up, and keys
    that name memories give executions these memories. */
module BurstCalls {
  import opened Packets
  import opened BurstMemories
  import opened Bursts

  // What a call to compute is given.
  datatype Ask = Ask(
    inputs: seq<WireOperand<ArgumentInfo>>,
    outputs: seq<WireOperand<ArgumentInfo>>,
    measure: MeasureTiming,
    memories: seq<Memory>,
    keys: seq<Key>)

  function AskOf(call: Call): Ask {
    Ask(call.inputs, call.outputs, call.measure, call.memories, call.keys)
  }

  // The calls that the steps start.
  function Asked(steps: seq<Step>): seq<Ask> {
    if steps == [] then []
    else
      (match steps[0]
       case Compute(inputs, outputs, measure, memories, keys) => [Ask(inputs, outputs, measure, memories, keys)]
       case _ => []) + Asked(steps[1..])
  }

  // The calls that are over, by how they ended.
  function Over(events: seq<Event>): seq<Ask> {
    if events == [] then []
    else
      Over(events[..|events| - 1]) +
      match events[|events| - 1]
      case Ran(_, _, _, _) => []
      case Answered(call, _) => [AskOf(call)]
      case FellBack(call) => [AskOf(call)]
      case NotAnswered(call) => [AskOf(call)]
  }

  // The call that is going on.
  function Current(client: Client): seq<Ask> {
    match client
    case Idle => []
    case Ready(call) => [AskOf(call)]
    case Waiting(call) => [AskOf(call)]
    case Freeing(_) => []
  }

  lemma OneMoreOver(events: seq<Event>, e: Event)
    ensures Over(events + [e]) == Over(events) + if e.Ran? then [] else [AskOf(e.call)]
  {
    assert (events + [e])[..|events|] == events;
  }

  lemma StepKeepsCalls(s: State, step: Step)
    requires Next(s, step).Some?
    ensures var s' := Next(s, step).value;
            Over(s'.events) + Current(s'.client) == Over(s.events) + Current(s.client) + Asked([step])
  {
    hide Over, ParseRequest, ParseReply, Filled, Pools, Touched, Packet, RequestData, ReplyData, Freed, SlotsFor, Delivered;
    var s' := Next(s, step).value;
    assert Asked([step][1..]) == [];
    if |s'.events| > |s.events| {
      assert s'.events == s.events + [s'.events[|s.events|]];
      OneMoreOver(s.events, s'.events[|s.events|]);
    }
  }

  /** In every run the calls that are over, and the one that is going on, are those that were
      started, in order and with what they were given. */
  lemma {:induction false} CallsInOrder(s: State, steps: seq<Step>)
    requires Run(s, steps).Some?
    ensures var s' := Run(s, steps).value;
            Over(s'.events) + Current(s'.client) == Over(s.events) + Current(s.client) + Asked(steps)
    decreases |steps|
  {
    hide Next, Over, Current;
    if steps != [] {
      StepKeepsCalls(s, steps[0]);
      CallsInOrder(Next(s, steps[0]).value, steps[1..]);
      assert [steps[0]][1..] == [];
      assert Asked(steps) == Asked([steps[0]]) + Asked(steps[1..]);
    }
  }

  /** So it is from the start. */
  lemma NoCallIsLost(steps: seq<Step>)
    requires Run(INITIAL, steps).Some?
    ensures var s := Run(INITIAL, steps).value; Over(s.events) + Current(s.client) == Asked(steps)
  {
    CallsInOrder(INITIAL, steps);
  }

  // ----- keys that name memories -----

  /** Every call passes valid memories, each with the key that names it. */
  ghost predicate NamesMemories(named: Key -> Memory, step: Step) {
    step.Compute? ==>
      |step.memories| == |step.keys| &&
      forall i :: 0 <= i < |step.keys| ==> step.memories[i] == named(step.keys[i]) && step.memories[i].valid
  }

  /** Every bound slot has the memory that its key names, and all calls are clean. */
  ghost predicate AllNamed(named: Key -> Memory, s: State) {
    && WellFormed(s.memories)
    && (forall k :: k in s.memories.slotOf ==> Lookup(s.memories, s.memories.slotOf[k]) == named(k))
    && (s.client.Ready? || s.client.Waiting? ==> s.client.call.clean)
    && (forall e :: e in s.events && e.Answered? ==> e.call.clean)
  }

  lemma StepKeepsNames(named: Key -> Memory, s: State, step: Step)
    requires AllNamed(named, s) && NamesMemories(named, step) && Next(s, step).Some?
    ensures AllNamed(named, Next(s, step).value)
  {
    hide WellFormed, ParseRequest, ParseReply, Filled, Pools, Touched, Packet, RequestData, ReplyData, Delivered, Keeps, SlotsFor, Freed, Lookup;
    match step {
      case Compute(_, _, _, memories, keys) =>
        GetSlotsKeeps(s.memories, memories, keys);
        NamedAfter(named, s.memories, memories, keys, SlotsFor(s.memories, memories, keys).value.0, SlotsFor(s.memories, memories, keys).value.1);
      case FreeMemory(key) =>
        if key in s.memories.slotOf {
          FreedKeeps(s.memories, key);
          NamedAfterFree(named, s.memories, key);
        }
      case _ =>
    }
  }

  lemma NamedAfter(named: Key -> Memory, c: SlotCache, memories: seq<Memory>, keys: seq<Key>, slots: seq<nat>, c': SlotCache)
    requires |memories| == |keys| && Got(c, memories, keys, slots, c')
    requires forall k :: k in c.slotOf ==> Lookup(c, c.slotOf[k]) == named(k)
    requires forall i :: 0 <= i < |keys| ==> memories[i] == named(keys[i]) && memories[i].valid
    ensures forall k :: k in c'.slotOf ==> Lookup(c', c'.slotOf[k]) == named(k)
    ensures AreClean(c, memories, keys)
  {
    hide WellFormed, Lookup;
    forall i | 0 <= i < |keys| && keys[i] in c.slotOf ensures Lookup(c, c.slotOf[keys[i]]) == memories[i] {
      var k := keys[i];
      assert Lookup(c, c.slotOf[k]) == named(k) && memories[i] == named(keys[i]);
    }
    forall m | m in memories ensures m.valid {
    }
    assert Named(c, memories, keys);
    forall k | k in c'.slotOf ensures Lookup(c', c'.slotOf[k]) == named(k) {
      if k !in c.slotOf {
        assert k in KeySet(keys);
        var i :| 0 <= i < |keys| && keys[i] == k;
        assert c'.slotOf[keys[i]] == slots[i];
      }
    }
  }

  lemma NamedAfterFree(named: Key -> Memory, c: SlotCache, key: Key)
    requires WellFormed(c) && key in c.slotOf && forall k :: k in c.slotOf ==> Lookup(c, c.slotOf[k]) == named(k)
    ensures c.slotOf[key] < |c.memories| && forall k :: k in Freed(c, key).slotOf ==> Lookup(Freed(c, key), Freed(c, key).slotOf[k]) == named(k)
  {
  }

  lemma {:induction false} RunKeepsNames(named: Key -> Memory, s: State, steps: seq<Step>)
    requires AllNamed(named, s) && Run(s, steps).Some? && forall step :: step in steps ==> NamesMemories(named, step)
    ensures AllNamed(named, Run(s, steps).value)
    decreases |steps|
  {
    hide AllNamed, Next, NamesMemories;
    if steps != [] {
      assert steps[0] in steps && forall step :: step in steps[1..] ==> step in steps;
      StepKeepsNames(named, s, steps[0]);
      RunKeepsNames(named, Next(s, steps[0]).value, steps[1..]);
    }
  }

  /** If every call passes valid memories under keys that name them, every execution that
      answers a call gets exactly the memories that were passed to the call. */
  lemma ExecutionsGetTheMemories(named: Key -> Memory, steps: seq<Step>, i: nat)
    requires Run(INITIAL, steps).Some? && i < |Run(INITIAL, steps).value.events|
    requires forall step :: step in steps ==> NamesMemories(named, step)
    ensures var events := Run(INITIAL, steps).value.events;
            events[i].Answered? ==> i > 0 && events[i - 1].Ran? && events[i - 1].pools == events[i].call.memories
  {
    InitialInv();
    assert AllNamed(named, INITIAL);
    hide AllNamed, Run, NamesMemories;
    RunKeepsNames(named, INITIAL, steps);
    CachingIsTransparent(steps, i);
    AnswersAreClean(named, Run(INITIAL, steps).value, i);
  }

  lemma AnswersAreClean(named: Key -> Memory, s: State, i: nat)
    requires AllNamed(named, s) && i < |s.events|
    ensures s.events[i].Answered? ==> s.events[i].call.clean
  {
  }
}
