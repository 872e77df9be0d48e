/** Packets of the burst protocol. Requests and results are made of the same pieces: a
    header, operands that are followed by their dimensions, pools, and a closing datum. */
module Packets {
  import opened Arithmetic

  type uint32 = x: int | 0 <= x < 0x1_0000_0000

  // Truncation to 32 bits.
  function U32(n: nat): uint32 { n % UINT32_RANGE }

  datatype Datum<Header, Info, Closing> =
    | PacketInformation(header: Header)
    | OperandInformation(kind: nat, info: Info, numberOfDimensions: uint32)
    | OperandDimensionValue(kind: nat, dimension: uint32)
    | PoolIdentifier(slot: int)
    | ClosingDatum(closing: Closing)

  // An argument of a request or the shape of an output.
  datatype WireOperand<Info> = WireOperand(info: Info, dimensions: seq<uint32>)

  datatype RequestHeader = RequestHeader(packetSize: uint32, numberOfInputOperands: uint32, numberOfOutputOperands: uint32, numberOfPools: uint32)
  datatype DataLocation = DataLocation(poolIndex: uint32, offset: uint32, length: uint32)
  datatype ArgumentInfo = ArgumentInfo(hasNoValue: bool, location: DataLocation)
  datatype MeasureTiming = NO | YES

  datatype ErrorStatus = NONE | DEVICE_UNAVAILABLE | GENERAL_FAILURE | OUTPUT_INSUFFICIENT_SIZE | INVALID_ARGUMENT
  datatype ResultHeader = ResultHeader(packetSize: uint32, errorStatus: ErrorStatus, numberOfOperands: uint32)
  datatype Timing = Timing(timeOnDevice: nat, timeInDriver: nat)

  type RequestDatum = Datum<RequestHeader, ArgumentInfo, MeasureTiming>
  type ResultDatum = Datum<ResultHeader, bool, Timing>

  datatype Request = Request(inputs: seq<WireOperand<ArgumentInfo>>, outputs: seq<WireOperand<ArgumentInfo>>, slots: seq<int>, measure: MeasureTiming)
  datatype Reply = Reply(errorStatus: ErrorStatus, outputShapes: seq<WireOperand<bool>>, timing: Timing)

  const INPUT := 0
  const OUTPUT := 1
  const SHAPE := 0

  // Reading past the end of the data is kept apart from a packet that is rejected.
  datatype Parsed<+T> = Parsed(value: T, index: nat) | IllFormed | OutOfRange

  datatype Deserialized<+T> = Accepted(value: T) | Rejected | ReadsPastEnd

  // ----- operands -----

  function DimensionData<H, I, C>(kind: nat, dimensions: seq<uint32>): (r: seq<Datum<H, I, C>>)
    ensures |r| == |dimensions|
  {
    seq(|dimensions|, i requires 0 <= i < |dimensions| => OperandDimensionValue(kind, dimensions[i]))
  }

  function OperandData<H, I, C>(kind: nat, o: WireOperand<I>): seq<Datum<H, I, C>> {
    [OperandInformation(kind, o.info, U32(|o.dimensions|))] + DimensionData(kind, o.dimensions)
  }

  function OperandsData<H, I, C>(kind: nat, os: seq<WireOperand<I>>): seq<Datum<H, I, C>> {
    if os == [] then [] else OperandData(kind, os[0]) + OperandsData(kind, os[1..])
  }

  function PoolData<H, I, C>(slots: seq<int>): (r: seq<Datum<H, I, C>>)
    ensures |r| == |slots|
  {
    seq(|slots|, i requires 0 <= i < |slots| => PoolIdentifier(slots[i]))
  }

  function OperandCount<I>(os: seq<WireOperand<I>>): nat {
    if os == [] then 0 else 1 + |os[0].dimensions| + OperandCount(os[1..])
  }

  // ----- parsing -----

  function ParseDimensions<H, I, C>(data: seq<Datum<H, I, C>>, i: nat, kind: nat, n: nat): Parsed<seq<uint32>>
    decreases n
  {
    if n == 0 then Parsed([], i)
    else if i >= |data| then OutOfRange
    else if data[i].OperandDimensionValue? && data[i].kind == kind then Prepended([data[i].dimension], ParseDimensions(data, i + 1, kind, n - 1))
    else IllFormed
  }

  function ParseOperands<H, I, C>(data: seq<Datum<H, I, C>>, i: nat, kind: nat, n: nat): Parsed<seq<WireOperand<I>>>
    decreases n
  {
    if n == 0 then Parsed([], i)
    else if i >= |data| then OutOfRange
    else if data[i].OperandInformation? && data[i].kind == kind then
      match ParseDimensions(data, i + 1, kind, data[i].numberOfDimensions)
      case Parsed(dimensions, j) => Prepended([WireOperand(data[i].info, dimensions)], ParseOperands(data, j, kind, n - 1))
      case IllFormed => IllFormed
      case OutOfRange => OutOfRange
    else IllFormed
  }

  function ParsePools<H, I, C>(data: seq<Datum<H, I, C>>, i: nat, n: nat): Parsed<seq<int>>
    decreases n
  {
    if n == 0 then Parsed([], i)
    else if i >= |data| then OutOfRange
    else if data[i].PoolIdentifier? then Prepended([data[i].slot], ParsePools(data, i + 1, n - 1))
    else IllFormed
  }

  function Prepended<T>(front: seq<T>, rest: Parsed<seq<T>>): Parsed<seq<T>> {
    match rest
    case Parsed(v, j) => Parsed(front + v, j)
    case IllFormed => IllFormed
    case OutOfRange => OutOfRange
  }

  lemma NothingPrepended<T>(p: Parsed<seq<T>>)
    ensures Prepended([], p) == p
  {
    if p.Parsed? { assert [] + p.value == p.value; }
  }

  lemma PrependedTwice<T>(a: seq<T>, b: seq<T>, p: Parsed<seq<T>>)
    ensures Prepended(a, Prepended(b, p)) == Prepended(a + b, p)
  {
    if p.Parsed? { assert a + (b + p.value) == a + b + p.value; }
  }

  /** `part` lies in the data from index i on. */
  ghost predicate At<T>(data: seq<T>, i: nat, part: seq<T>)
    ensures At(data, i, part) ==> i + |part| <= |data|
  {
    i + |part| <= |data| && data[i..i + |part|] == part
  }

  lemma AtParts<T>(data: seq<T>, i: nat, a: seq<T>, b: seq<T>)
    ensures At(data, i, a + b) <==> At(data, i, a) && At(data, i + |a|, b)
  {
    if i + |a| + |b| <= |data| {
      var part := data[i..i + |a| + |b|];
      assert part[..|a|] == data[i..i + |a|] && part[|a|..] == data[i + |a|..i + |a| + |b|];
      assert (a + b)[..|a|] == a && (a + b)[|a|..] == b;
      assert part == part[..|a|] + part[|a|..];
    }
  }

  // ----- what is written can be read, and only that -----

  lemma {:induction false} DimensionsAreRead<H, I, C>(data: seq<Datum<H, I, C>>, i: nat, kind: nat, dimensions: seq<uint32>)
    requires At(data, i, DimensionData<H, I, C>(kind, dimensions))
    ensures ParseDimensions(data, i, kind, |dimensions|) == Parsed(dimensions, i + |dimensions|)
    decreases |dimensions|
  {
    if dimensions != [] {
      assert DimensionData<H, I, C>(kind, dimensions) == [OperandDimensionValue(kind, dimensions[0])] + DimensionData<H, I, C>(kind, dimensions[1..]);
      AtParts(data, i, [OperandDimensionValue(kind, dimensions[0])], DimensionData<H, I, C>(kind, dimensions[1..]));
      assert data[i..i + 1][0] == data[i];
      DimensionsAreRead(data, i + 1, kind, dimensions[1..]);
      assert [dimensions[0]] + dimensions[1..] == dimensions;
    }
  }

  lemma {:induction false} DimensionsWereWritten<H, I, C>(data: seq<Datum<H, I, C>>, i: nat, kind: nat, n: nat)
    requires ParseDimensions(data, i, kind, n).Parsed? && i <= |data|
    ensures var r := ParseDimensions(data, i, kind, n);
            |r.value| == n && r.index == i + n && At(data, i, DimensionData<H, I, C>(kind, r.value))
    decreases n
  {
    if n > 0 {
      DimensionsWereWritten(data, i + 1, kind, n - 1);
      var d, rest := data[i].dimension, ParseDimensions(data, i + 1, kind, n - 1).value;
      assert DimensionData<H, I, C>(kind, [d] + rest) == [data[i]] + DimensionData<H, I, C>(kind, rest);
      AtParts(data, i, [data[i]], DimensionData<H, I, C>(kind, rest));
    }
  }

  lemma OperandIsRead<H, I, C>(data: seq<Datum<H, I, C>>, i: nat, kind: nat, o: WireOperand<I>)
    requires At(data, i, OperandData<H, I, C>(kind, o)) && |o.dimensions| < UINT32_RANGE
    ensures i < |data| && data[i] == OperandInformation(kind, o.info, |o.dimensions|)
    ensures ParseDimensions(data, i + 1, kind, |o.dimensions|) == Parsed(o.dimensions, i + 1 + |o.dimensions|)
  {
    hide DimensionData, ParseDimensions;
    AtParts(data, i, [OperandInformation(kind, o.info, U32(|o.dimensions|))], DimensionData<H, I, C>(kind, o.dimensions));
    assert data[i..i + 1][0] == data[i];
    DimensionsAreRead(data, i + 1, kind, o.dimensions);
  }

  lemma OperandWasWritten<H, I, C>(data: seq<Datum<H, I, C>>, i: nat, kind: nat)
    requires i < |data| && data[i].OperandInformation? && data[i].kind == kind
    requires ParseDimensions(data, i + 1, kind, data[i].numberOfDimensions).Parsed?
    ensures var p := ParseDimensions(data, i + 1, kind, data[i].numberOfDimensions);
            At(data, i, OperandData<H, I, C>(kind, WireOperand(data[i].info, p.value))) && p.index == i + 1 + |p.value|
  {
    hide DimensionData, ParseDimensions;
    DimensionsWereWritten(data, i + 1, kind, data[i].numberOfDimensions);
    var p := ParseDimensions(data, i + 1, kind, data[i].numberOfDimensions);
    AtParts(data, i, [data[i]], DimensionData<H, I, C>(kind, p.value));
  }

  lemma {:induction false} OperandsAreRead<H, I, C>(data: seq<Datum<H, I, C>>, i: nat, kind: nat, os: seq<WireOperand<I>>)
    requires At(data, i, OperandsData<H, I, C>(kind, os))
    requires forall o :: o in os ==> |o.dimensions| < UINT32_RANGE
    ensures ParseOperands(data, i, kind, |os|) == Parsed(os, i + |OperandsData<H, I, C>(kind, os)|)
    decreases |os|
  {
    hide At, OperandData, ParseDimensions;
    if os != [] {
      var o := os[0];
      AtParts(data, i, OperandData<H, I, C>(kind, o), OperandsData<H, I, C>(kind, os[1..]));
      OperandIsRead(data, i, kind, o);
      OperandDataLength<H, I, C>(kind, o);
      OperandsAreRead(data, i + 1 + |o.dimensions|, kind, os[1..]);
      assert [WireOperand(o.info, o.dimensions)] + os[1..] == os;
    }
  }

  lemma OperandDataLength<H, I, C>(kind: nat, o: WireOperand<I>)
    ensures |OperandData<H, I, C>(kind, o)| == 1 + |o.dimensions|
  {
  }

  lemma {:induction false} OperandsWereWritten<H, I, C>(data: seq<Datum<H, I, C>>, i: nat, kind: nat, n: nat)
    requires ParseOperands(data, i, kind, n).Parsed? && i <= |data|
    ensures var r := ParseOperands(data, i, kind, n);
            |r.value| == n && r.index == i + |OperandsData<H, I, C>(kind, r.value)| && At(data, i, OperandsData<H, I, C>(kind, r.value))
    decreases n
  {
    hide At, OperandData, ParseDimensions;
    if n > 0 {
      var p := ParseDimensions(data, i + 1, kind, data[i].numberOfDimensions);
      var o := WireOperand(data[i].info, p.value);
      OperandWasWritten(data, i, kind);
      OperandDataLength<H, I, C>(kind, o);
      OperandsWereWritten(data, p.index, kind, n - 1);
      var rest := ParseOperands(data, p.index, kind, n - 1).value;
      assert ([o] + rest)[1..] == rest;
      AtParts(data, i, OperandData<H, I, C>(kind, o), OperandsData<H, I, C>(kind, rest));
    }
    assert At(data, i, []) by { AtNothing(data, i); }
  }

  lemma AtNothing<T>(data: seq<T>, i: nat)
    requires i <= |data|
    ensures At(data, i, [])
  {
  }

  lemma {:induction false} PoolsAreRead<H, I, C>(data: seq<Datum<H, I, C>>, i: nat, slots: seq<int>)
    requires At(data, i, PoolData<H, I, C>(slots))
    ensures ParsePools(data, i, |slots|) == Parsed(slots, i + |slots|)
    decreases |slots|
  {
    if slots != [] {
      assert PoolData<H, I, C>(slots) == [PoolIdentifier(slots[0])] + PoolData<H, I, C>(slots[1..]);
      AtParts(data, i, [PoolIdentifier(slots[0])], PoolData<H, I, C>(slots[1..]));
      assert data[i..i + 1][0] == data[i];
      PoolsAreRead(data, i + 1, slots[1..]);
      assert [slots[0]] + slots[1..] == slots;
    }
  }

  lemma {:induction false} PoolsWereWritten<H, I, C>(data: seq<Datum<H, I, C>>, i: nat, n: nat)
    requires ParsePools(data, i, n).Parsed? && i <= |data|
    ensures var r := ParsePools(data, i, n);
            |r.value| == n && r.index == i + n && At(data, i, PoolData<H, I, C>(r.value))
    decreases n
  {
    if n > 0 {
      PoolsWereWritten(data, i + 1, n - 1);
      var rest := ParsePools(data, i + 1, n - 1).value;
      assert PoolData<H, I, C>([data[i].slot] + rest) == [data[i]] + PoolData<H, I, C>(rest);
      AtParts(data, i, [data[i]], PoolData<H, I, C>(rest));
    }
  }

  lemma {:induction false} CountIsLength<H, I, C>(kind: nat, os: seq<WireOperand<I>>)
    ensures |OperandsData<H, I, C>(kind, os)| == OperandCount(os)
    ensures |os| <= OperandCount(os) && forall o :: o in os ==> |o.dimensions| <= OperandCount(os)
  {
    if os != [] { CountIsLength<H, I, C>(kind, os[1..]); }
  }

  // ----- requests -----

  function RequestCount(r: Request, pools: nat): nat {
    2 + OperandCount(r.inputs) + OperandCount(r.outputs) + pools
  }

  /** The packet of a request with a number of pools. */
  function RequestData(r: Request, pools: nat): seq<RequestDatum> {
    [PacketInformation(RequestHeader(U32(RequestCount(r, pools)), U32(|r.inputs|), U32(|r.outputs|), U32(pools)))] +
    (OperandsData(INPUT, r.inputs) + (OperandsData(OUTPUT, r.outputs) + (PoolData(r.slots) + [ClosingDatum(r.measure)])))
  }

  function ParseRequest(data: seq<RequestDatum>): Deserialized<Request> {
    if |data| == 0 || !data[0].PacketInformation? then Rejected
    else
      var h := data[0].header;
      if |data| != h.packetSize then Rejected
      else
        match ParseOperands(data, 1, INPUT, h.numberOfInputOperands)
        case IllFormed => Rejected
        case OutOfRange => ReadsPastEnd
        case Parsed(inputs, i) =>
          match ParseOperands(data, i, OUTPUT, h.numberOfOutputOperands)
          case IllFormed => Rejected
          case OutOfRange => ReadsPastEnd
          case Parsed(outputs, j) =>
            match ParsePools(data, j, h.numberOfPools)
            case IllFormed => Rejected
            case OutOfRange => ReadsPastEnd
            case Parsed(slots, k) =>
              if k >= |data| then ReadsPastEnd
              else if !data[k].ClosingDatum? || k + 1 != h.packetSize then Rejected
              else Accepted(Request(inputs, outputs, slots, data[k].closing))
  }

  lemma RequestDataLength(r: Request, pools: nat)
    ensures |RequestData(r, pools)| == RequestCount(r, |r.slots|)
    ensures |r.inputs| <= OperandCount(r.inputs) && |r.outputs| <= OperandCount(r.outputs)
    ensures forall o :: o in r.inputs || o in r.outputs ==> |o.dimensions| < RequestCount(r, |r.slots|)
  {
    CountIsLength<RequestHeader, ArgumentInfo, MeasureTiming>(INPUT, r.inputs);
    CountIsLength<RequestHeader, ArgumentInfo, MeasureTiming>(OUTPUT, r.outputs);
  }

  /** Where the parts of a packet lie. */
  lemma RequestLies(data: seq<RequestDatum>, head: RequestDatum, a: seq<RequestDatum>, b: seq<RequestDatum>, c: seq<RequestDatum>, last: RequestDatum)
    ensures data == [head] + (a + (b + (c + [last]))) <==>
              && |data| == 2 + |a| + |b| + |c| && data[0] == head && data[|data| - 1] == last
              && At(data, 1, a) && At(data, 1 + |a|, b) && At(data, 1 + |a| + |b|, c)
  {
    AtParts(data, 0, [head], a + (b + (c + [last])));
    AtParts(data, 1, a, b + (c + [last]));
    AtParts(data, 1 + |a|, b, c + [last]);
    AtParts(data, 1 + |a| + |b|, c, [last]);
    if |data| == 2 + |a| + |b| + |c| {
      assert data[0..|data|] == data;
      assert data[0..1] == [data[0]] && data[|data| - 1..|data|] == [data[|data| - 1]];
    }
  }

  lemma CountsAgree(r: Request, pools: nat)
    ensures |RequestData(r, pools)| == U32(RequestCount(r, pools)) <==> RequestCount(r, |r.slots|) < UINT32_RANGE && U32(pools) == |r.slots|
  {
    hide OperandsData, PoolData, OperandCount;
    RequestDataLength(r, pools);
    var rest := 2 + OperandCount(r.inputs) + OperandCount(r.outputs);
    assert RequestCount(r, pools) == rest + pools && RequestCount(r, |r.slots|) == rest + |r.slots|;
  }

  /** A request is received as it was sent if and only if its slots are as many as its pools,
      counted in 32 bits, and the packet's size fits 32 bits; otherwise the packet is rejected. */
  lemma RequestRoundTrip(r: Request, pools: nat)
    ensures ParseRequest(RequestData(r, pools)) ==
            if U32(pools) == |r.slots| && RequestCount(r, |r.slots|) < UINT32_RANGE then Accepted(r) else Rejected
  {
    hide OperandsData, PoolData, OperandCount, ParseOperands, ParsePools, At;
    var data := RequestData(r, pools);
    RequestDataLength(r, pools);
    CountsAgree(r, pools);
    if U32(pools) == |r.slots| && RequestCount(r, |r.slots|) < UINT32_RANGE {
      var a, b: seq<RequestDatum>, c: seq<RequestDatum> := OperandsData(INPUT, r.inputs), OperandsData(OUTPUT, r.outputs), PoolData(r.slots);
      RequestLies(data, data[0], a, b, c, ClosingDatum(r.measure));
      OperandsAreRead(data, 1, INPUT, r.inputs);
      OperandsAreRead(data, 1 + |a|, OUTPUT, r.outputs);
      PoolsAreRead(data, 1 + |a| + |b|, r.slots);
    }
  }

  /** A request for two pools that has a slot for one of them only: its packet is rejected. */
  lemma RequestWithMissingSlot()
    ensures ParseRequest(RequestData(Request([], [], [0], NO), 2)) == Rejected
  {
    RequestRoundTrip(Request([], [], [0], NO), 2);
  }

  /** The packet of a small request: the counts come first, then the input, the output with
      its dimensions, a slot for each pool, and whether to measure. */
  lemma SmallRequest(a: ArgumentInfo, b: ArgumentInfo)
    ensures RequestData(Request([WireOperand(a, [])], [WireOperand(b, [2, 3])], [7, 5], YES), 2) ==
            [PacketInformation(RequestHeader(8, 1, 1, 2)),
             OperandInformation(0, a, 0),
             OperandInformation(1, b, 2), OperandDimensionValue(1, 2), OperandDimensionValue(1, 3),
             PoolIdentifier(7), PoolIdentifier(5),
             ClosingDatum(YES)]
  {
    var o: WireOperand<ArgumentInfo> := WireOperand(b, [2, 3]);
    var r := Request([WireOperand(a, [])], [o], [7, 5], YES);
    assert OperandCount([o][1..]) == 0 && OperandCount(r.inputs[1..]) == 0;
    OnePacketOf<RequestHeader, ArgumentInfo, MeasureTiming>(INPUT, r.inputs[0]);
    OnePacketOf<RequestHeader, ArgumentInfo, MeasureTiming>(OUTPUT, o);
  }

  lemma OnePacketOf<H, I, C>(kind: nat, o: WireOperand<I>)
    ensures OperandsData<H, I, C>(kind, [o]) == OperandData(kind, o)
  {
    assert OperandsData<H, I, C>(kind, [o][1..]) == [];
  }

  /** An accepted packet is the packet of the request that is read from it. */
  lemma AcceptedRequestWasSent(data: seq<RequestDatum>)
    requires ParseRequest(data).Accepted?
    ensures var r := ParseRequest(data).value; RequestData(r, |r.slots|) == data
  {
    hide OperandsData, PoolData, OperandCount, ParseOperands, ParsePools, At;
    var r, h := ParseRequest(data).value, data[0].header;
    OperandsWereWritten(data, 1, INPUT, h.numberOfInputOperands);
    var i := ParseOperands(data, 1, INPUT, h.numberOfInputOperands).index;
    OperandsWereWritten(data, i, OUTPUT, h.numberOfOutputOperands);
    var j := ParseOperands(data, i, OUTPUT, h.numberOfOutputOperands).index;
    PoolsWereWritten(data, j, h.numberOfPools);
    var a, b: seq<RequestDatum>, c: seq<RequestDatum> := OperandsData(INPUT, r.inputs), OperandsData(OUTPUT, r.outputs), PoolData(r.slots);
    RequestLies(data, data[0], a, b, c, ClosingDatum(r.measure));
    RequestDataLength(r, |r.slots|);
  }

  // ----- results -----

  function ReplyCount(r: Reply): nat {
    2 + OperandCount(r.outputShapes)
  }

  /** The packet of a result. */
  function ReplyData(r: Reply): seq<ResultDatum> {
    [PacketInformation(ResultHeader(U32(ReplyCount(r)), r.errorStatus, U32(|r.outputShapes|)))] +
    (OperandsData(SHAPE, r.outputShapes) + [ClosingDatum(r.timing)])
  }

  function ParseReply(data: seq<ResultDatum>): Deserialized<Reply> {
    if |data| == 0 || !data[0].PacketInformation? then Rejected
    else
      var h := data[0].header;
      if |data| != h.packetSize then Rejected
      else
        match ParseOperands(data, 1, SHAPE, h.numberOfOperands)
        case IllFormed => Rejected
        case OutOfRange => ReadsPastEnd
        case Parsed(shapes, k) =>
          if k >= |data| then ReadsPastEnd
          else if !data[k].ClosingDatum? || k + 1 != h.packetSize then Rejected
          else Accepted(Reply(h.errorStatus, shapes, data[k].closing))
  }

  lemma ReplyDataLength(r: Reply)
    ensures |ReplyData(r)| == ReplyCount(r)
    ensures |r.outputShapes| <= OperandCount(r.outputShapes)
    ensures forall o :: o in r.outputShapes ==> |o.dimensions| < ReplyCount(r)
  {
    CountIsLength<ResultHeader, bool, Timing>(SHAPE, r.outputShapes);
  }

  lemma ReplyLies(data: seq<ResultDatum>, head: ResultDatum, a: seq<ResultDatum>, last: ResultDatum)
    ensures data == [head] + (a + [last]) <==>
              |data| == 2 + |a| && data[0] == head && data[|data| - 1] == last && At(data, 1, a)
  {
    AtParts(data, 0, [head], a + [last]);
    AtParts(data, 1, a, [last]);
    if |data| == 2 + |a| {
      assert data[0..|data|] == data;
      assert data[0..1] == [data[0]] && data[|data| - 1..|data|] == [data[|data| - 1]];
    }
  }

  /** A result is received as it was sent if the packet's size fits 32 bits; otherwise
      the packet is rejected. */
  lemma ReplyRoundTrip(r: Reply)
    ensures ParseReply(ReplyData(r)) == if ReplyCount(r) < UINT32_RANGE then Accepted(r) else Rejected
  {
    hide OperandsData, OperandCount, ParseOperands, At;
    var data := ReplyData(r);
    ReplyDataLength(r);
    if ReplyCount(r) < UINT32_RANGE {
      var a: seq<ResultDatum> := OperandsData(SHAPE, r.outputShapes);
      ReplyLies(data, data[0], a, ClosingDatum(r.timing));
      OperandsAreRead(data, 1, SHAPE, r.outputShapes);
    }
  }

  /** An accepted packet is the packet of the result that is read from it. */
  lemma AcceptedReplyWasSent(data: seq<ResultDatum>)
    requires ParseReply(data).Accepted?
    ensures ReplyData(ParseReply(data).value) == data
  {
    hide OperandsData, OperandCount, ParseOperands, At;
    var r, h := ParseReply(data).value, data[0].header;
    OperandsWereWritten(data, 1, SHAPE, h.numberOfOperands);
    ReplyLies(data, data[0], OperandsData(SHAPE, r.outputShapes), ClosingDatum(r.timing));
    ReplyDataLength(r);
  }

  /** The packet of the reply to an execution with one output. */
  lemma SmallReply(timing: Timing)
    ensures ReplyData(Reply(OUTPUT_INSUFFICIENT_SIZE, [WireOperand(false, [4])], timing)) ==
            [PacketInformation(ResultHeader(4, OUTPUT_INSUFFICIENT_SIZE, 1)),
             OperandInformation(0, false, 1), OperandDimensionValue(0, 4),
             ClosingDatum(timing)]
  {
    var shapes: seq<WireOperand<bool>> := [WireOperand(false, [4])];
    assert OperandCount(shapes[1..]) == 0;
    OnePacketOf<ResultHeader, bool, Timing>(SHAPE, shapes[0]);
  }

  // ----- the serializers and deserializers -----

  method WriteOperands<H(0), I, C(0)>(data0: seq<Datum<H, I, C>>, kind: nat, os: seq<WireOperand<I>>) returns (data: seq<Datum<H, I, C>>)
    ensures data == data0 + OperandsData(kind, os)
  {
    data := data0;
    for i := 0 to |os|
      invariant data + OperandsData(kind, os[i..]) == data0 + OperandsData(kind, os)
    {
      var dimensions := os[i].dimensions;
      ghost var before := data;
      data := data + [OperandInformation(kind, os[i].info, U32(|dimensions|))];
      for j := 0 to |dimensions|
        invariant data == before + [OperandInformation(kind, os[i].info, U32(|dimensions|))] + DimensionData(kind, dimensions)[..j]
      {
        data := data + [OperandDimensionValue(kind, dimensions[j])];
      }
      assert os[i..][1..] == os[i + 1..];
      assert data == before + OperandData(kind, os[i]);
    }
  }

  method WritePools<H(0), I(0), C(0)>(data0: seq<Datum<H, I, C>>, slots: seq<int>) returns (data: seq<Datum<H, I, C>>)
    ensures data == data0 + PoolData(slots)
  {
    data := data0;
    for i := 0 to |slots|
      invariant data == data0 + PoolData(slots)[..i]
    {
      data := data + [PoolIdentifier(slots[i])];
    }
  }

  method CountOperands<I>(os: seq<WireOperand<I>>) returns (count: nat)
    ensures count == OperandCount(os)
  {
    count := |os|;
    assert os[0..] == os;
    for i := 0 to |os|
      invariant count - (|os| - i) + OperandCount(os[i..]) == OperandCount(os)
      invariant count >= |os| - i
    {
      assert os[i..][1..] == os[i + 1..];
      count := count + |os[i].dimensions|;
    }
  }

  method SerializeRequest(r: Request, pools: nat) returns (data: seq<RequestDatum>)
    ensures data == RequestData(r, pools)
  {
    hide OperandsData, OperandCount, PoolData;
    var inputs := CountOperands(r.inputs);
    var outputs := CountOperands(r.outputs);
    data := [PacketInformation(RequestHeader(U32(2 + inputs + outputs + pools), U32(|r.inputs|), U32(|r.outputs|), U32(pools)))];
    data := WriteOperands(data, INPUT, r.inputs);
    data := WriteOperands(data, OUTPUT, r.outputs);
    data := WritePools(data, r.slots);
    data := data + [ClosingDatum(r.measure)];
  }

  method SerializeReply(r: Reply) returns (data: seq<ResultDatum>)
    ensures data == ReplyData(r)
  {
    var count := CountOperands(r.outputShapes);
    data := [PacketInformation(ResultHeader(U32(2 + count), r.errorStatus, U32(|r.outputShapes|)))];
    data := WriteOperands(data, SHAPE, r.outputShapes);
    data := data + [ClosingDatum(r.timing)];
  }

  method ReadDimensions<H, I, C>(data: seq<Datum<H, I, C>>, start: nat, kind: nat, n: nat) returns (r: Parsed<seq<uint32>>)
    ensures r == ParseDimensions(data, start, kind, n)
  {
    var index: nat, dimensions: seq<uint32> := start, [];
    NothingPrepended(ParseDimensions(data, start, kind, n));
    for i := 0 to n
      invariant ParseDimensions(data, start, kind, n) == Prepended(dimensions, ParseDimensions(data, index, kind, n - i))
    {
      if index >= |data| { return OutOfRange; }
      if !data[index].OperandDimensionValue? || data[index].kind != kind { return IllFormed; }
      PrependedTwice(dimensions, [data[index].dimension], ParseDimensions(data, index + 1, kind, n - i - 1));
      index, dimensions := index + 1, dimensions + [data[index].dimension];
    }
    assert dimensions + [] == dimensions;
    return Parsed(dimensions, index);
  }

  method ReadOperands<H, I, C>(data: seq<Datum<H, I, C>>, start: nat, kind: nat, n: nat) returns (r: Parsed<seq<WireOperand<I>>>)
    ensures r == ParseOperands(data, start, kind, n)
  {
    var index: nat, operands: seq<WireOperand<I>> := start, [];
    NothingPrepended(ParseOperands(data, start, kind, n));
    for i := 0 to n
      invariant ParseOperands(data, start, kind, n) == Prepended(operands, ParseOperands(data, index, kind, n - i))
    {
      if index >= |data| { return OutOfRange; }
      if !data[index].OperandInformation? || data[index].kind != kind { return IllFormed; }
      var dimensions := ReadDimensions(data, index + 1, kind, data[index].numberOfDimensions);
      match dimensions {
        case IllFormed => return IllFormed;
        case OutOfRange => return OutOfRange;
        case Parsed(value, next) =>
          PrependedTwice(operands, [WireOperand(data[index].info, value)], ParseOperands(data, next, kind, n - i - 1));
          index, operands := next, operands + [WireOperand(data[index].info, value)];
      }
    }
    assert operands + [] == operands;
    return Parsed(operands, index);
  }

  method ReadPools<H, I, C>(data: seq<Datum<H, I, C>>, start: nat, n: nat) returns (r: Parsed<seq<int>>)
    ensures r == ParsePools(data, start, n)
  {
    var index: nat, slots: seq<int> := start, [];
    NothingPrepended(ParsePools(data, start, n));
    for i := 0 to n
      invariant ParsePools(data, start, n) == Prepended(slots, ParsePools(data, index, n - i))
    {
      if index >= |data| { return OutOfRange; }
      if !data[index].PoolIdentifier? { return IllFormed; }
      PrependedTwice(slots, [data[index].slot], ParsePools(data, index + 1, n - i - 1));
      index, slots := index + 1, slots + [data[index].slot];
    }
    assert slots + [] == slots;
    return Parsed(slots, index);
  }

  /** Reads a request. Reads past the end of the data, which the runtime does not
      check, are reported. */
  method DeserializeRequest(data: seq<RequestDatum>) returns (r: Deserialized<Request>)
    ensures r == ParseRequest(data)
  {
    if |data| == 0 || !data[0].PacketInformation? { return Rejected; }
    var h := data[0].header;
    if |data| != h.packetSize { return Rejected; }
    var inputs := ReadOperands(data, 1, INPUT, h.numberOfInputOperands);
    if !inputs.Parsed? { return if inputs.IllFormed? then Rejected else ReadsPastEnd; }
    var outputs := ReadOperands(data, inputs.index, OUTPUT, h.numberOfOutputOperands);
    if !outputs.Parsed? { return if outputs.IllFormed? then Rejected else ReadsPastEnd; }
    var slots := ReadPools(data, outputs.index, h.numberOfPools);
    if !slots.Parsed? { return if slots.IllFormed? then Rejected else ReadsPastEnd; }
    var index := slots.index;
    if index >= |data| { return ReadsPastEnd; }
    if !data[index].ClosingDatum? { return Rejected; }
    if index + 1 != h.packetSize { return Rejected; }
    return Accepted(Request(inputs.value, outputs.value, slots.value, data[index].closing));
  }

  method DeserializeReply(data: seq<ResultDatum>) returns (r: Deserialized<Reply>)
    ensures r == ParseReply(data)
  {
    if |data| == 0 || !data[0].PacketInformation? { return Rejected; }
    var h := data[0].header;
    if |data| != h.packetSize { return Rejected; }
    var shapes := ReadOperands(data, 1, SHAPE, h.numberOfOperands);
    if !shapes.Parsed? { return if shapes.IllFormed? then Rejected else ReadsPastEnd; }
    var index := shapes.index;
    if index >= |data| { return ReadsPastEnd; }
    if !data[index].ClosingDatum? { return Rejected; }
    if index + 1 != h.packetSize { return Rejected; }
    return Accepted(Reply(h.errorStatus, shapes.value, data[index].closing));
  }
}
