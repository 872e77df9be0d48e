/** The burst protocol: a client and a server exchange packets over two queues, and the
    steps of both interleave. The client runs one call at a time, under a lock. */
module Bursts {
  import opened Options
  import opened Packets
  import opened BurstMemories

  // The number of data that a queue holds.
  const CHANNEL_LENGTH := 1024

  const NO_TIMING := Timing(0xFFFF_FFFF_FFFF_FFFF, 0xFFFF_FFFF_FFFF_FFFF)
  const FAILURE := Reply(GENERAL_FAILURE, [], NO_TIMING)

  // A call to compute, with what the client has for its slots. It is clean if its memories
  // are valid and its keys name them.
  datatype Call = Call(inputs: seq<WireOperand<ArgumentInfo>>, outputs: seq<WireOperand<ArgumentInfo>>, measure: MeasureTiming,
                       memories: seq<Memory>, keys: seq<Key>, slots: seq<nat>, held: seq<Memory>, clean: bool)

  datatype Client = Idle | Ready(call: Call) | Waiting(call: Call) | Freeing(slot: nat)

  // The server holds its lock from Locked to Replied. It knows some of the slots before it
  // asks the client for the others.
  datatype Server = Listening | Received(request: Request) | Locked(request: Request) | Provided(request: Request, known: seq<bool>) | Executed(reply: Reply) | Replied

  datatype Event =
    | Ran(request: Request, known: seq<bool>, pools: seq<Memory>, reply: Reply)
    | Answered(call: Call, reply: Reply)
    | FellBack(call: Call)
    | NotAnswered(call: Call)

  datatype State = State(
    memories: SlotCache,
    client: Client,
    requests: seq<RequestDatum>,
    cache: MemoryCache,
    server: Server,
    results: seq<ResultDatum>,
    events: seq<Event>)

  datatype Step =
    | Compute(inputs: seq<WireOperand<ArgumentInfo>>, outputs: seq<WireOperand<ArgumentInfo>>, measure: MeasureTiming, memories: seq<Memory>, keys: seq<Key>)
    | SendRequest
    | TakeResult
    | FreeMemory(key: Key)
    | FreeRemotely
    | TakeRequest
    | Lock
    | Provide
    | Execute(reply: Reply)
    | SendResult
    | Unlock

  const INITIAL := State(EMPTY, Idle, [], map[], Listening, [], [])

  function RequestOf(call: Call): Request {
    Request(call.inputs, call.outputs, call.slots, call.measure)
  }

  function Packet(call: Call): seq<RequestDatum> {
    RequestData(RequestOf(call), |call.memories|)
  }

  // What is sent for a reply. A packet that does not fit is replaced by a failure.
  function Delivered(reply: Reply, room: int): Reply {
    if |ReplyData(reply)| > room then FAILURE else reply
  }

  predicate HoldsLock(server: Server) {
    server.Locked? || server.Provided? || server.Executed? || server.Replied?
  }

  // What the client has for each slot, and whether the server knows the slot.
  function Held(c: SlotCache, slots: seq<int>): (r: seq<Memory>)
    ensures |r| == |slots|
  {
    seq(|slots|, i requires 0 <= i < |slots| => Lookup(c, slots[i]))
  }

  function Known(cache: MemoryCache, slots: seq<int>): (r: seq<bool>)
    ensures |r| == |slots|
  {
    seq(|slots|, i requires 0 <= i < |slots| => IsPresent(cache, slots[i]))
  }

  /** Of the memories that the server does not know, the client has all or none. */
  ghost predicate AllOrNone(known: seq<bool>, held: seq<Memory>)
    requires |known| == |held|
  {
    || (forall i :: 0 <= i < |known| && !known[i] ==> held[i].valid)
    || (forall i :: 0 <= i < |known| && !known[i] ==> held[i] == NO_MEMORY)
  }

  /** Filling the cache serves a request with what the client has exactly then. */
  lemma ServedWithHeld(cache: MemoryCache, c: SlotCache, slots: seq<int>)
    requires Mirrors(cache, c)
    ensures Pools(Filled(cache, c, slots), slots) == Held(c, slots) <==> AllOrNone(Known(cache, slots), Held(c, slots))
  {
    hide Filled, Mirrors, IsPresent, Lookup;
    PoolsAreTheClients(cache, c, slots);
    var pools, held, known := Pools(Filled(cache, c, slots), slots), Held(c, slots), Known(cache, slots);
    assert forall i :: 0 <= i < |slots| ==> slots[i] in slots && held[i] == Lookup(c, slots[i]) && known[i] == IsPresent(cache, slots[i]);
    assert pools == held <==> forall i :: 0 <= i < |slots| ==> pools[i] == Lookup(c, slots[i]);
  }

  ghost predicate AreClean(c: SlotCache, memories: seq<Memory>, keys: seq<Key>)
    requires |memories| == |keys|
  {
    Named(c, memories, keys) && forall m :: m in memories ==> m.valid
  }

  // One step of the client or of the server, if it can be taken.
  ghost function Next(s: State, step: Step): Option<State> {
    match step
    case Compute(inputs, outputs, measure, memories, keys) =>
      if !s.client.Idle? || |memories| != |keys| then None
      else
        (match SlotsFor(s.memories, memories, keys)
         case None => None
         case Some((slots, c)) =>
           Some(s.(memories := c, client := Ready(Call(inputs, outputs, measure, memories, keys, slots, Held(c, slots), AreClean(s.memories, memories, keys))))))
    case SendRequest =>
      if !s.client.Ready? then None
      else if |Packet(s.client.call)| > CHANNEL_LENGTH - |s.requests| then
        Some(s.(client := Idle, events := s.events + [FellBack(s.client.call)]))
      else Some(s.(client := Waiting(s.client.call), requests := s.requests + Packet(s.client.call)))
    case TakeResult =>
      if !s.client.Waiting? || s.results == [] then None
      else
        var event := match ParseReply(s.results)
                     case Accepted(reply) => Answered(s.client.call, reply)
                     case _ => NotAnswered(s.client.call);
        Some(s.(client := Idle, results := [], events := s.events + [event]))
    case FreeMemory(key) =>
      if !s.client.Idle? then None
      else if key !in s.memories.slotOf || s.memories.slotOf[key] >= |s.memories.memories| then Some(s)
      else Some(s.(memories := Freed(s.memories, key), client := Freeing(s.memories.slotOf[key])))
    case FreeRemotely =>
      if !s.client.Freeing? || HoldsLock(s.server) then None
      else Some(s.(cache := s.cache - {s.client.slot}, client := Idle))
    case TakeRequest =>
      if !s.server.Listening? || s.requests == [] then None
      else
        (match ParseRequest(s.requests)
         case Accepted(request) => Some(s.(requests := [], server := Received(request)))
         case _ => Some(s.(requests := [], results := s.results + ReplyData(Delivered(FAILURE, CHANNEL_LENGTH - |s.results|)))))
    case Lock =>
      if !s.server.Received? then None else Some(s.(server := Locked(s.server.request)))
    case Provide =>
      if !s.server.Locked? then None
      else Some(s.(cache := Filled(s.cache, s.memories, s.server.request.slots), server := Provided(s.server.request, Known(s.cache, s.server.request.slots))))
    case Execute(reply) =>
      if !s.server.Provided? then None
      else
        var slots := s.server.request.slots;
        Some(s.(cache := Touched(s.cache, slots), server := Executed(reply),
                events := s.events + [Ran(s.server.request, s.server.known, Pools(s.cache, slots), reply)]))
    case SendResult =>
      if !s.server.Executed? then None
      else Some(s.(results := s.results + ReplyData(Delivered(s.server.reply, CHANNEL_LENGTH - |s.results|)), server := Replied))
    case Unlock =>
      if !s.server.Replied? then None else Some(s.(server := Listening))
  }

  /** A server refuses a request that it cannot read, and the client that waits is told of a
      failure. */
  lemma BadRequestIsRefused(s: State)
    requires s.server.Listening? && s.requests != [] && s.results == [] && s.client.Waiting? && !ParseRequest(s.requests).Accepted?
    ensures var refused := Next(s, TakeRequest);
            && refused.Some? && refused.value.server.Listening? && refused.value.requests == []
            && Next(refused.value, TakeResult) ==
               Some(s.(requests := [], client := Idle,
                       events := s.events + [Answered(s.client.call, Reply(GENERAL_FAILURE, [], Timing(0xFFFF_FFFF_FFFF_FFFF, 0xFFFF_FFFF_FFFF_FFFF)))]))
  {
    hide ParseRequest, ParseReply, ReplyData;
    FailureIsSent();
    assert [] + ReplyData(FAILURE) == ReplyData(FAILURE);
  }

  lemma FailureIsSent()
    ensures |ReplyData(FAILURE)| == 2 && ParseReply(ReplyData(FAILURE)) == Accepted(FAILURE)
  {
    ReplyDataLength(FAILURE);
    ReplyRoundTrip(FAILURE);
    hide ParseReply, ReplyData;
  }

  /** A result that cannot be read answers nothing. */
  lemma BadResultIsNoAnswer(s: State)
    requires s.client.Waiting? && s.results != [] && !ParseReply(s.results).Accepted?
    ensures Next(s, TakeResult) == Some(s.(client := Idle, results := [], events := s.events + [NotAnswered(s.client.call)]))
  {
  }

  ghost function Run(s: State, steps: seq<Step>): Option<State>
    decreases |steps|
  {
    if steps == [] then Some(s)
    else
      match Next(s, steps[0])
      case None => None
      case Some(s') => Run(s', steps[1..])
  }

  // ----- what every step keeps -----

  /** The call's slots are the ones that its keys are bound to. */
  ghost predicate CallFits(call: Call, c: SlotCache) {
    && |call.memories| == |call.keys| && SlotsFit(c, call.slots, call.keys) && call.held == Held(c, call.slots)
    && (call.clean ==> call.held == call.memories && forall m :: m in call.held ==> m.valid)
  }

  /** The last event is the execution of the call. */
  ghost predicate JustRan(events: seq<Event>, call: Call, reply: Reply) {
    |events| > 0 && Executes(events[|events| - 1], call, reply)
  }

  /** The event is an execution of the call. It gets what the client has for the slots if and
      only if the client has all or none of the memories that the server did not know, and
      that is what was passed if the call is clean. */
  ghost predicate Executes(e: Event, call: Call, reply: Reply) {
    && e.Ran? && e.request == RequestOf(call) && e.reply == reply
    && IsServed(call, e.known, e.pools)
  }

  ghost predicate IsServed(call: Call, known: seq<bool>, pools: seq<Memory>) {
    && |known| == |call.held|
    && (pools == call.held <==> AllOrNone(known, call.held))
    && (call.clean ==> call.held == call.memories && pools == call.memories)
  }

  ghost predicate Quiet(s: State) {
    && s.requests == [] && s.results == [] && !HoldsRequest(s.server)
    && (s.events == [] || !s.events[|s.events| - 1].Ran?)
  }

  predicate HoldsRequest(server: Server) {
    server.Received? || server.Locked? || server.Provided? || server.Executed?
  }

  /** Where the call is while the client waits: in the queue, at the server, or answered. */
  ghost predicate InProgress(s: State, call: Call) {
    if s.requests != [] then
      && s.requests == Packet(call) && |s.requests| <= CHANNEL_LENGTH && s.results == [] && !HoldsRequest(s.server)
      && (s.events == [] || !s.events[|s.events| - 1].Ran?)
    else if s.server.Executed? then s.results == [] && JustRan(s.events, call, s.server.reply)
    else if HoldsRequest(s.server) then
      && s.results == [] && s.server.request == RequestOf(call) && (s.events == [] || !s.events[|s.events| - 1].Ran?)
      && (s.server.Provided? ==> IsServed(call, s.server.known, Pools(s.cache, call.slots)))
    else
      && s.events != [] && s.events[|s.events| - 1].Ran?
      && JustRan(s.events, call, s.events[|s.events| - 1].reply)
      && s.results == ReplyData(Delivered(s.events[|s.events| - 1].reply, CHANNEL_LENGTH))
  }

  ghost predicate Phases(s: State) {
    match s.client
    case Idle => Quiet(s)
    case Ready(call) => Quiet(s) && CallFits(call, s.memories)
    case Freeing(slot) => Quiet(s)
    case Waiting(call) => InProgress(s, call) && CallFits(call, s.memories) && |Packet(call)| <= CHANNEL_LENGTH
  }

  // The slot that the server is about to be told to forget.
  ghost function Stale(client: Client): set<int> {
    if client.Freeing? then {client.slot} else {}
  }

  /** Every answer is for the execution just before it, and every execution is followed
      by its answer. */
  ghost predicate Answers(events: seq<Event>) {
    forall i: nat :: i < |events| ==> AnswerFits(events, i)
  }

  ghost predicate AnswerFits(events: seq<Event>, i: nat)
    requires i < |events|
  {
    && !events[i].NotAnswered?
    && (events[i].FellBack? ==> |Packet(events[i].call)| > CHANNEL_LENGTH && |events[i].call.slots| == |events[i].call.memories|)
    && (events[i].Answered? ==>
          && i > 0 && events[i - 1].Ran? && Executes(events[i - 1], events[i].call, events[i - 1].reply)
          && |Packet(events[i].call)| <= CHANNEL_LENGTH && |events[i].call.slots| == |events[i].call.memories|
          && events[i].reply == Delivered(events[i - 1].reply, CHANNEL_LENGTH))
    && (events[i].Ran? && i < |events| - 1 ==> events[i + 1].Answered?)
  }

  ghost predicate Inv(s: State) {
    && WellFormed(s.memories)
    && Mirrors(s.cache - Stale(s.client), s.memories)
    && Phases(s)
    && Answers(s.events)
  }

  lemma InitialInv()
    ensures Inv(INITIAL)
  {
    assert forall x: nat :: !Bound(EMPTY, x);
  }

  // One more event.
  lemma AnswersMore(events: seq<Event>, e: Event)
    requires Answers(events)
    requires e.FellBack? || e.Ran? ==> events == [] || !events[|events| - 1].Ran?
    requires e.FellBack? ==> |Packet(e.call)| > CHANNEL_LENGTH && |e.call.slots| == |e.call.memories|
    requires e.Answered? ==>
               && events != [] && events[|events| - 1].Ran? && JustRan(events, e.call, events[|events| - 1].reply)
               && e.reply == Delivered(events[|events| - 1].reply, CHANNEL_LENGTH)
               && |Packet(e.call)| <= CHANNEL_LENGTH && |e.call.slots| == |e.call.memories|
    requires !e.NotAnswered?
    ensures Answers(events + [e])
  {
    var all := events + [e];
    forall i: nat | i < |all| ensures AnswerFits(all, i) {
      if i < |events| {
        assert AnswerFits(events, i);
        assert all[i] == events[i] && (i > 0 ==> all[i - 1] == events[i - 1]);
      } else {
        assert all[i] == e && (i > 0 ==> all[i - 1] == events[i - 1]);
      }
    }
  }

  lemma DeliveredFits(reply: Reply)
    ensures |ReplyData(Delivered(reply, CHANNEL_LENGTH))| <= CHANNEL_LENGTH && ReplyData(Delivered(reply, CHANNEL_LENGTH)) != []
    ensures ParseReply(ReplyData(Delivered(reply, CHANNEL_LENGTH))) == Accepted(Delivered(reply, CHANNEL_LENGTH))
  {
    ReplyDataLength(FAILURE);
    ReplyDataLength(reply);
    ReplyRoundTrip(Delivered(reply, CHANNEL_LENGTH));
  }

  lemma PacketIsRead(call: Call)
    requires |call.slots| == |call.memories| && |Packet(call)| <= CHANNEL_LENGTH
    ensures Packet(call) != [] && ParseRequest(Packet(call)) == Accepted(RequestOf(call))
  {
    hide ParseRequest, RequestData, OperandCount;
    RequestDataLength(RequestOf(call), |call.memories|);
    RequestRoundTrip(RequestOf(call), |call.memories|);
  }

  // ----- the steps of the client -----

  lemma ComputeKeeps(s: State, step: Step)
    requires Inv(s) && step.Compute? && Next(s, step).Some?
    ensures Inv(Next(s, step).value)
  {
    hide WellFormed, SlotsFit, Keeps;
    GetSlotsKeeps(s.memories, step.memories, step.keys);
    var s' := Next(s, step).value;
    var call := s'.client.call;
    if call.clean {
      forall i | 0 <= i < |call.slots| ensures call.held[i] == call.memories[i] {
        assert call.memories[i] in call.memories;
      }
      assert call.held == call.memories;
    }
    assert s.cache - {} == s.cache;
    MirrorsAfter(s.cache, s.memories, s'.memories);
  }

  /** New slots do not change what the server's entries mean: they are not in use there. */
  lemma MirrorsAfter(cache: MemoryCache, c: SlotCache, c': SlotCache)
    requires Mirrors(cache, c) && WellFormed(c) && WellFormed(c') && Keeps(c, c')
    ensures Mirrors(cache, c')
  {
    forall x | x in cache && cache[x].valid ensures cache[x] == Lookup(c', x) {
      assert 0 <= x < |c.memories| && Lookup(c, x) != NO_MEMORY;
      assert Bound(c, x);
      var k :| k in c.slotOf && c.slotOf[k] == x;
      KeptLookup(c, c', k);
    }
  }

  lemma SendRequestKeeps(s: State)
    requires Inv(s) && s.client.Ready?
    ensures Inv(Next(s, SendRequest).value)
  {
    hide WellFormed, Mirrors, CallFits, RequestData;
    var call := s.client.call;
    SlotsAreAsMany(call, s.memories);
    if |Packet(call)| > CHANNEL_LENGTH - |s.requests| {
      AnswersMore(s.events, FellBack(call));
    } else {
      PacketIsRead(call);
      assert s.requests + Packet(call) == Packet(call);
    }
  }

  lemma SlotsAreAsMany(call: Call, c: SlotCache)
    requires CallFits(call, c)
    ensures |call.slots| == |call.memories| == |call.keys|
  {
  }

  lemma TakeResultKeeps(s: State)
    requires Inv(s) && s.client.Waiting? && s.results != []
    ensures Inv(Next(s, TakeResult).value)
    ensures Next(s, TakeResult).value.events[|s.events|].Answered?
  {
    hide WellFormed, Mirrors, CallFits, RequestData, ReplyData, ParseReply, Answers, Executes;
    var call, last := s.client.call, s.events[|s.events| - 1];
    SlotsAreAsMany(call, s.memories);
    DeliveredFits(last.reply);
    AnswersMore(s.events, Answered(call, Delivered(last.reply, CHANNEL_LENGTH)));
  }

  lemma FreeMemoryKeeps(s: State, key: Key)
    requires Inv(s) && s.client.Idle?
    ensures Inv(Next(s, FreeMemory(key)).value)
  {
    hide Answers;
    if key in s.memories.slotOf {
      FreedKeeps(s.memories, key);
      hide WellFormed, Freed;
      assert s.cache - {} == s.cache;
    }
  }

  lemma FreeRemotelyKeeps(s: State)
    requires Inv(s) && s.client.Freeing? && !HoldsLock(s.server)
    ensures Inv(Next(s, FreeRemotely).value)
  {
    hide WellFormed, Answers;
    assert s.cache - {s.client.slot} - {} == s.cache - {s.client.slot};
  }

  // ----- the steps of the server -----

  lemma TakeRequestKeeps(s: State)
    requires Inv(s) && s.server.Listening? && s.requests != []
    ensures Inv(Next(s, TakeRequest).value)
  {
    hide WellFormed, Mirrors, CallFits, Answers, Packet, ParseRequest;
    SlotsAreAsMany(s.client.call, s.memories);
    PacketIsRead(s.client.call);
  }

  lemma LockKeeps(s: State)
    requires Inv(s) && s.server.Received?
    ensures Inv(Next(s, Lock).value)
  {
    hide WellFormed, Mirrors, CallFits, Answers, Packet;
  }

  lemma ProvideKeeps(s: State)
    requires Inv(s) && s.server.Locked?
    ensures Inv(Next(s, Provide).value)
  {
    hide WellFormed, Answers, Packet, Filled, Pools, Mirrors, Lookup;
    var call, slots := s.client.call, s.server.request.slots;
    assert s.cache - {} == s.cache && Filled(s.cache, s.memories, slots) - {} == Filled(s.cache, s.memories, slots);
    FilledMirrors(s.cache, s.memories, slots);
    ServedWithHeld(s.cache, s.memories, slots);
    if call.clean {
      forall i | 0 <= i < |call.held| ensures call.held[i].valid {
        assert call.held[i] in call.held;
      }
    }
  }

  lemma ExecuteKeeps(s: State, reply: Reply)
    requires Inv(s) && s.server.Provided?
    ensures Inv(Next(s, Execute(reply)).value)
  {
    hide WellFormed, CallFits, Answers, Packet, Pools, Lookup;
    var slots := s.server.request.slots;
    AnswersMore(s.events, Ran(s.server.request, s.server.known, Pools(s.cache, slots), reply));
    assert s.cache - {} == s.cache && Touched(s.cache, slots) - {} == Touched(s.cache, slots);
  }

  lemma SendResultKeeps(s: State)
    requires Inv(s) && s.server.Executed?
    ensures Inv(Next(s, SendResult).value)
  {
    hide WellFormed, Mirrors, CallFits, Answers, Packet, ReplyData;
    assert s.results + ReplyData(Delivered(s.server.reply, CHANNEL_LENGTH)) == ReplyData(Delivered(s.server.reply, CHANNEL_LENGTH));
  }

  lemma UnlockKeeps(s: State)
    requires Inv(s) && s.server.Replied?
    ensures Inv(Next(s, Unlock).value)
  {
    hide WellFormed, Mirrors, CallFits, Answers, Packet, ReplyData, Executes;
  }

  /** Every step keeps the invariant. */
  lemma StepKeeps(s: State, step: Step)
    requires Inv(s) && Next(s, step).Some?
    ensures Inv(Next(s, step).value)
  {
    hide Inv;
    match step {
      case Compute(_, _, _, _, _) => ComputeKeeps(s, step);
      case SendRequest => SendRequestKeeps(s);
      case TakeResult => TakeResultKeeps(s);
      case FreeMemory(key) => FreeMemoryKeeps(s, key);
      case FreeRemotely => FreeRemotelyKeeps(s);
      case TakeRequest => TakeRequestKeeps(s);
      case Lock => LockKeeps(s);
      case Provide => ProvideKeeps(s);
      case Execute(reply) => ExecuteKeeps(s, reply);
      case SendResult => SendResultKeeps(s);
      case Unlock => UnlockKeeps(s);
    }
  }

  lemma {:induction false} RunKeeps(s: State, steps: seq<Step>)
    requires Inv(s) && Run(s, steps).Some?
    ensures Inv(Run(s, steps).value)
    decreases |steps|
  {
    hide Inv, Next;
    if steps != [] {
      StepKeeps(s, steps[0]);
      RunKeeps(Next(s, steps[0]).value, steps[1..]);
    }
  }

  // ----- the protocol is right -----

  // How many data the packets of a call and of a reply have.
  function CallSize(call: Call): nat {
    2 + OperandCount(call.inputs) + OperandCount(call.outputs) + |call.memories|
  }

  function ReplySize(reply: Reply): nat {
    2 + OperandCount(reply.outputShapes)
  }

  /** In every run, an execution that answers a call has run the request of that call, and its
      reply reaches the client unchanged if its packet has at most 1024 data; a longer one is
      replaced by a general failure. The execution ran
      with what the client has for the slots if and only if the client had all or none of the
      memories that the server did not know; if the call was clean, it ran with exactly the
      memories that the client passed. A call falls back if and only if its packet has more
      than 1024 data. No call is answered without an execution of its own, and none is left
      unanswered by a packet that cannot be read. */
  lemma CachingIsTransparent(steps: seq<Step>, i: nat)
    requires Run(INITIAL, steps).Some? && i < |Run(INITIAL, steps).value.events|
    ensures var events := Run(INITIAL, steps).value.events;
            && !events[i].NotAnswered?
            && (events[i].FellBack? ==> CallSize(events[i].call) > 1024)
            && (events[i].Answered? ==>
                  && i > 0 && events[i - 1].Ran? && CallSize(events[i].call) <= 1024
                  && events[i - 1].request == Request(events[i].call.inputs, events[i].call.outputs, events[i].call.slots, events[i].call.measure)
                  && |events[i - 1].known| == |events[i].call.held|
                  && (events[i - 1].pools == events[i].call.held <==> AllOrNone(events[i - 1].known, events[i].call.held))
                  && (events[i].call.clean ==> events[i].call.held == events[i].call.memories && events[i - 1].pools == events[i].call.memories)
                  && (ReplySize(events[i - 1].reply) <= 1024 ==> events[i].reply == events[i - 1].reply)
                  && (ReplySize(events[i - 1].reply) > 1024 ==>
                        events[i].reply == Reply(GENERAL_FAILURE, [], Timing(0xFFFF_FFFF_FFFF_FFFF, 0xFFFF_FFFF_FFFF_FFFF))))
            && (events[i].Ran? && i < |events| - 1 ==> events[i + 1].Answered?)
  {
    InitialInv();
    RunKeeps(INITIAL, steps);
    hide *;
    EventsAnswer(Run(INITIAL, steps).value, i);
    EventIsPlain(Run(INITIAL, steps).value.events, i);
  }

  lemma EventsAnswer(s: State, i: nat)
    requires Inv(s) && i < |s.events|
    ensures AnswerFits(s.events, i)
  {
    hide WellFormed, Mirrors, Phases, AnswerFits;
  }

  // What the invariant says of an event, in plain terms.
  lemma EventIsPlain(events: seq<Event>, i: nat)
    requires i < |events| && AnswerFits(events, i)
    ensures !events[i].NotAnswered? && (events[i].FellBack? ==> CallSize(events[i].call) > 1024)
    ensures events[i].Answered? ==>
              && i > 0 && events[i - 1].Ran? && CallSize(events[i].call) <= 1024
              && events[i - 1].request == Request(events[i].call.inputs, events[i].call.outputs, events[i].call.slots, events[i].call.measure)
              && |events[i - 1].known| == |events[i].call.held|
              && (events[i - 1].pools == events[i].call.held <==> AllOrNone(events[i - 1].known, events[i].call.held))
              && (events[i].call.clean ==> events[i].call.held == events[i].call.memories && events[i - 1].pools == events[i].call.memories)
              && (ReplySize(events[i - 1].reply) <= 1024 ==> events[i].reply == events[i - 1].reply)
              && (ReplySize(events[i - 1].reply) > 1024 ==>
                    events[i].reply == Reply(GENERAL_FAILURE, [], Timing(0xFFFF_FFFF_FFFF_FFFF, 0xFFFF_FFFF_FFFF_FFFF)))
    ensures events[i].Ran? && i < |events| - 1 ==> events[i + 1].Answered?
  {
    hide OperandCount, RequestData, ReplyData, AllOrNone;
    if events[i].Answered? || events[i].FellBack? { RequestDataLength(RequestOf(events[i].call), |events[i].call.memories|); }
    if events[i].Answered? { ReplyDataLength(events[i - 1].reply); }
  }

  /** In every state that a run reaches, slots in use and free slots make up the slots
      ever used, without duplicates. When the client is idle the queues are empty and what the
      server has for a slot is what the client has for it. */
  lemma MemoriesAgree(steps: seq<Step>)
    requires Run(INITIAL, steps).Some?
    ensures var s := Run(INITIAL, steps).value;
            && WellFormed(s.memories)
            && |s.requests| <= CHANNEL_LENGTH && |s.results| <= CHANNEL_LENGTH
            && (s.requests == [] || s.results == [])
            && (s.client.Idle? ==> s.requests == [] && s.results == [])
            && (s.client.Idle? ==> forall x :: x in s.cache && s.cache[x].valid ==>
                  0 <= x < |s.memories.memories| && s.cache[x] == s.memories.memories[x] && Bound(s.memories, x))
  {
    InitialInv();
    RunKeeps(INITIAL, steps);
    hide *;
    Agreement(Run(INITIAL, steps).value);
  }

  lemma Agreement(s: State)
    requires Inv(s)
    ensures WellFormed(s.memories)
    ensures |s.requests| <= CHANNEL_LENGTH && |s.results| <= CHANNEL_LENGTH && (s.requests == [] || s.results == [])
    ensures s.client.Idle? ==> s.requests == [] && s.results == []
    ensures s.client.Idle? ==> forall x :: x in s.cache && s.cache[x].valid ==>
              0 <= x < |s.memories.memories| && s.cache[x] == s.memories.memories[x] && Bound(s.memories, x)
  {
    hide CallFits, Answers, RequestData, ReplyData, Executes;
    if s.client.Waiting? && s.results != [] { DeliveredFits(s.events[|s.events| - 1].reply); }
    if s.client.Idle? {
      assert s.cache - {} == s.cache;
      forall x | x in s.cache && s.cache[x].valid
        ensures 0 <= x < |s.memories.memories| && s.cache[x] == s.memories.memories[x] && Bound(s.memories, x)
      {
        assert s.cache[x] == Lookup(s.memories, x);
      }
    }
  }

  // ----- every call ends -----

  /** How many steps a call still takes, at most. */
  function Work(s: State): nat {
    (match s.client
     case Idle => 0
     case Freeing(_) => 1
     case Ready(_) => 8
     case Waiting(_) =>
       if s.requests != [] then 7
       else match s.server
            case Received(_) => 6
            case Locked(_) => 5
            case Provided(_, _) => 4
            case Executed(_) => 3
            case _ => 1) +
    if s.server.Replied? then 1 else 0
  }

  predicate Starts(step: Step) {
    step.Compute? || step.FreeMemory?
  }

  /** Every step that does not start a call brings it closer to its end. */
  lemma StepsWork(s: State, step: Step)
    requires Inv(s) && Next(s, step).Some? && !Starts(step)
    ensures Work(Next(s, step).value) < Work(s) <= 9
  {
    hide WellFormed, Mirrors, CallFits, Answers, RequestData, ReplyData, Executes, ParseRequest, ParseReply, Filled, Pools, Touched;
    if step.TakeRequest? {
      SlotsAreAsMany(s.client.call, s.memories);
      PacketIsRead(s.client.call);
    }
  }

  /** While a call is in progress the client or the server can take a step. */
  lemma SomeStepIsPossible(s: State) returns (step: Step)
    requires Inv(s) && !s.client.Idle?
    ensures !Starts(step) && Next(s, step).Some?
  {
    hide WellFormed, Mirrors, CallFits, Answers, RequestData, Executes, ParseRequest, ParseReply, Filled, Pools, Touched;
    if s.server.Replied? {
      step := Unlock;
    } else if s.client.Ready? {
      step := SendRequest;
    } else if s.client.Freeing? {
      step := FreeRemotely;
    } else {
      match s.server {
        case Listening =>
          if s.requests != [] {
            step := TakeRequest;
          } else {
            DeliveredFits(s.events[|s.events| - 1].reply);
            step := TakeResult;
          }
        case Received(_) => step := Lock;
        case Locked(_) => step := Provide;
        case Provided(_, _) => step := Execute(FAILURE);
        case Executed(_) => step := SendResult;
      }
    }
  }

  /** However the client and the server take turns, a call is over after at most nine
      steps, and nothing can keep it from ending. */
  lemma {:induction false} EveryCallEnds(s: State, steps: seq<Step>)
    requires Inv(s) && Run(s, steps).Some? && forall step :: step in steps ==> !Starts(step)
    ensures |steps| <= Work(s) <= 9
    ensures (forall step :: !Starts(step) ==> Next(Run(s, steps).value, step).None?) ==> Run(s, steps).value.client.Idle?
    decreases |steps|
  {
    hide Inv, Next, Work;
    if steps == [] {
      if !s.client.Idle? { var step := SomeStepIsPossible(s); }
      WorkIsBounded(s);
    } else {
      assert steps[0] in steps && forall step :: step in steps[1..] ==> step in steps;
      StepKeeps(s, steps[0]);
      StepsWork(s, steps[0]);
      EveryCallEnds(Next(s, steps[0]).value, steps[1..]);
    }
  }

  lemma WorkIsBounded(s: State)
    ensures Work(s) <= 9
  {
  }
}
