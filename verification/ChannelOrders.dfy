/** Conversion of four-dimensional data between the orders NCHW and NHWC. */
module ChannelOrders {
  import opened Arithmetic

  // The position of element (n, c, hw) where channels come before space, and after it.
  function ChannelsFirst(n: nat, c: nat, hw: nat, channels: nat, space: nat): nat { (n * channels + c) * space + hw }
  function ChannelsLast(n: nat, c: nat, hw: nat, channels: nat, space: nat): nat { (n * space + hw) * channels + c }

  lemma Regroup(a: nat, b: nat, c: nat)
    ensures a * b * c == a * c * b
  {
  }

  lemma PositionsInRange(n: nat, c: nat, hw: nat, batches: nat, channels: nat, space: nat)
    requires n < batches && c < channels && hw < space
    ensures ChannelsFirst(n, c, hw, channels, space) < batches * channels * space
    ensures ChannelsLast(n, c, hw, channels, space) < batches * channels * space
  {
    Below(n, batches, c, channels);
    Below(n * channels + c, batches * channels, hw, space);
    Below(n, batches, hw, space);
    Below(n * space + hw, batches * space, c, channels);
    Regroup(batches, space, channels);
  }

  lemma Quotient(p: nat, m: nat, d: nat)
    requires p < m * d
    ensures d > 0 && p / d < m && p % d < d && p == (p / d) * d + p % d
  {
    assert m * 0 == 0;
    if p / d >= m { Monotone(m, p / d, d); }
  }

  // Which element lies at a position.
  lemma ElementAt(p: nat, batches: nat, outer: nat, inner: nat) returns (n: nat, o: nat, i: nat)
    requires p < batches * outer * inner
    ensures n < batches && o < outer && i < inner && p == (n * outer + o) * inner + i
  {
    Quotient(p, batches * outer, inner);
    var q := p / inner;
    i := p % inner;
    Quotient(q, batches, outer);
    n, o := q / outer, q % outer;
  }

  lemma UniqueLast(n: nat, c: nat, hw: nat, n': nat, c': nat, hw': nat, channels: nat, space: nat)
    requires c < channels && hw < space && c' < channels && hw' < space
    requires ChannelsLast(n, c, hw, channels, space) == ChannelsLast(n', c', hw', channels, space)
    ensures n == n' && c == c' && hw == hw'
  {
    Unique(n * space + hw, c, n' * space + hw', c', channels);
    Unique(n, hw, n', hw', space);
  }

  lemma UniqueFirst(n: nat, c: nat, hw: nat, n': nat, c': nat, hw': nat, channels: nat, space: nat)
    requires c < channels && hw < space && c' < channels && hw' < space
    requires ChannelsFirst(n, c, hw, channels, space) == ChannelsFirst(n', c', hw', channels, space)
    ensures n == n' && c == c' && hw == hw'
  {
    Unique(n * channels + c, hw, n' * channels + c', hw', space);
    Unique(n, c, n', c', channels);
  }

  // ----- data in both orders -----

  ghost predicate SameElement<T>(first: seq<T>, last: seq<T>, n: nat, c: nat, hw: nat, channels: nat, space: nat) {
    var p, q := ChannelsFirst(n, c, hw, channels, space), ChannelsLast(n, c, hw, channels, space);
    p < |first| && q < |last| && first[p] == last[q]
  }

  /** Both hold the same elements, one with channels first and one with channels last. */
  ghost predicate SameElements<T>(first: seq<T>, last: seq<T>, batches: nat, channels: nat, space: nat) {
    && |first| == |last| == batches * channels * space
    && forall n: nat, c: nat, hw: nat :: n < batches && c < channels && hw < space ==> SameElement(first, last, n, c, hw, channels, space)
  }

  /** Three channels of two elements each. */
  lemma ThreeChannels(last: seq<int>)
    requires SameElements([10, 11, 20, 21, 30, 31], last, 1, 3, 2)
    ensures last == [10, 20, 30, 11, 21, 31]
  {
    hide SameElements, SameElement;
    var first := [10, 11, 20, 21, 30, 31];
    ElementLies(first, last, 1, 3, 2, 0, 0, 0);
    ElementLies(first, last, 1, 3, 2, 0, 1, 0);
    ElementLies(first, last, 1, 3, 2, 0, 2, 0);
    ElementLies(first, last, 1, 3, 2, 0, 0, 1);
    ElementLies(first, last, 1, 3, 2, 0, 1, 1);
    ElementLies(first, last, 1, 3, 2, 0, 2, 1);
  }

  lemma ElementLies<T>(first: seq<T>, last: seq<T>, batches: nat, channels: nat, space: nat, n: nat, c: nat, hw: nat)
    requires SameElements(first, last, batches, channels, space) && n < batches && c < channels && hw < space
    ensures |last| == batches * channels * space
    ensures var p, q := ChannelsFirst(n, c, hw, channels, space), ChannelsLast(n, c, hw, channels, space);
            p < |first| && q < |last| && first[p] == last[q]
  {
    hide ChannelsFirst, ChannelsLast;
    assert SameElement(first, last, n, c, hw, channels, space);
  }

  /** Either order determines the other. */
  lemma Determined<T>(first: seq<T>, last: seq<T>, first': seq<T>, last': seq<T>, batches: nat, channels: nat, space: nat)
    requires SameElements(first, last, batches, channels, space) && SameElements(first', last', batches, channels, space)
    ensures last == last' <==> first == first'
  {
    hide ChannelsFirst, ChannelsLast;
    if last == last' {
      forall p | 0 <= p < |first| ensures first[p] == first'[p] {
        var n, c, hw := FirstElementAt(p, batches, channels, space);
        assert SameElement(first, last, n, c, hw, channels, space) && SameElement(first', last', n, c, hw, channels, space);
      }
    }
    if first == first' {
      forall p | 0 <= p < |last| ensures last[p] == last'[p] {
        var n, c, hw := LastElementAt(p, batches, channels, space);
        assert SameElement(first, last, n, c, hw, channels, space) && SameElement(first', last', n, c, hw, channels, space);
      }
    }
  }

  lemma FirstElementAt(p: nat, batches: nat, channels: nat, space: nat) returns (n: nat, c: nat, hw: nat)
    requires p < batches * channels * space
    ensures n < batches && c < channels && hw < space && p == ChannelsFirst(n, c, hw, channels, space)
  {
    n, c, hw := ElementAt(p, batches, channels, space);
  }

  lemma LastElementAt(p: nat, batches: nat, channels: nat, space: nat) returns (n: nat, c: nat, hw: nat)
    requires p < batches * channels * space
    ensures n < batches && c < channels && hw < space && p == ChannelsLast(n, c, hw, channels, space)
  {
    Regroup(batches, channels, space);
    n, hw, c := ElementAt(p, batches, space, channels);
  }

  // ----- the conversions -----

  function Position(n: nat, c: nat, hw: nat, channels: nat, space: nat, isLast: bool): nat {
    if isLast then ChannelsLast(n, c, hw, channels, space) else ChannelsFirst(n, c, hw, channels, space)
  }

  // The elements written so far, in the order of the result.
  ghost predicate Written<T>(first: seq<T>, last: seq<T>, batches: nat, channels: nat, space: nat, lastIsWritten: bool, t: nat) {
    forall n: nat, c: nat, hw: nat ::
      n < batches && c < channels && hw < space && Position(n, c, hw, channels, space, lastIsWritten) < t ==>
        SameElement(first, last, n, c, hw, channels, space)
  }

  lemma OneMoreLast<T>(first: seq<T>, last: seq<T>, last': seq<T>, batches: nat, channels: nat, space: nat, n: nat, c: nat, hw: nat)
    requires n < batches && c < channels && hw < space && |last| == |last'|
    requires var t := ChannelsLast(n, c, hw, channels, space);
             && Written(first, last, batches, channels, space, true, t) && t < |last|
             && ChannelsFirst(n, c, hw, channels, space) < |first| && last' == last[t := first[ChannelsFirst(n, c, hw, channels, space)]]
    ensures Written(first, last', batches, channels, space, true, ChannelsLast(n, c, hw, channels, space) + 1)
  {
    hide ChannelsFirst, ChannelsLast;
    var t := ChannelsLast(n, c, hw, channels, space);
    forall n': nat, c': nat, hw': nat | n' < batches && c' < channels && hw' < space && ChannelsLast(n', c', hw', channels, space) < t + 1
      ensures SameElement(first, last', n', c', hw', channels, space)
    {
      if ChannelsLast(n', c', hw', channels, space) == t {
        UniqueLast(n, c, hw, n', c', hw', channels, space);
      } else {
        assert SameElement(first, last, n', c', hw', channels, space);
      }
    }
  }

  lemma OneMoreFirst<T>(first: seq<T>, first': seq<T>, last: seq<T>, batches: nat, channels: nat, space: nat, n: nat, c: nat, hw: nat)
    requires n < batches && c < channels && hw < space && |first| == |first'|
    requires var t := ChannelsFirst(n, c, hw, channels, space);
             && Written(first, last, batches, channels, space, false, t) && t < |first|
             && ChannelsLast(n, c, hw, channels, space) < |last| && first' == first[t := last[ChannelsLast(n, c, hw, channels, space)]]
    ensures Written(first', last, batches, channels, space, false, ChannelsFirst(n, c, hw, channels, space) + 1)
  {
    hide ChannelsFirst, ChannelsLast;
    var t := ChannelsFirst(n, c, hw, channels, space);
    forall n': nat, c': nat, hw': nat | n' < batches && c' < channels && hw' < space && ChannelsFirst(n', c', hw', channels, space) < t + 1
      ensures SameElement(first', last, n', c', hw', channels, space)
    {
      if ChannelsFirst(n', c', hw', channels, space) == t {
        UniqueFirst(n, c, hw, n', c', hw', channels, space);
      } else {
        assert SameElement(first, last, n', c', hw', channels, space);
      }
    }
  }

  // Both ways to write an index.
  lemma IndexIsPosition(n: nat, outer: nat, o: nat, inner: nat, i: nat)
    ensures n * outer * inner + o * inner + i == (n * outer + o) * inner + i
  {
  }

  lemma NextRow(n: nat, outer: nat, o: nat, inner: nat)
    ensures (n * outer + o) * inner + inner == (n * outer + (o + 1)) * inner + 0
  {
    Successor(n * outer + o, inner);
  }

  lemma NextBatch(n: nat, outer: nat, inner: nat)
    ensures (n * outer + outer) * inner == ((n + 1) * outer + 0) * inner
  {
    Successor(n, outer);
  }

  method ConvertToNhwc<T>(to: array<T>, from: seq<T>, batches: nat, channels: nat, height: nat, width: nat)
    requires |from| == to.Length == batches * channels * (height * width)
    modifies to
    ensures SameElements(from, to[..], batches, channels, height * width)
  {
    hide Written, SameElement;
    var space := height * width;
    var t := 0;
    WrittenNothing(from, to[..], batches, channels, space, true);
    assert (0 * space + 0) * channels == 0;
    for n := 0 to batches
      invariant t == (n * space + 0) * channels && Written(from, to[..], batches, channels, space, true, t)
    {
      for hw := 0 to space
        invariant t == (n * space + hw) * channels && Written(from, to[..], batches, channels, space, true, t)
      {
        for c := 0 to channels
          invariant t == (n * space + hw) * channels + c && Written(from, to[..], batches, channels, space, true, t)
        {
          IndexIsPosition(n, channels, c, space, hw);
          PositionsInRange(n, c, hw, batches, channels, space);
          ghost var before := to[..];
          to[t] := from[n * channels * space + c * space + hw];
          OneMoreLast(from, before, to[..], batches, channels, space, n, c, hw);
          t := t + 1;
        }
        NextRow(n, space, hw, channels);
      }
      NextBatch(n, space, channels);
    }
    Regroup(batches, channels, space);
    AllWritten(from, to[..], batches, channels, space, true, t);
  }

  method ConvertFromNhwc<T>(to: array<T>, from: seq<T>, batches: nat, height: nat, width: nat, channels: nat)
    requires |from| == to.Length == batches * channels * (height * width)
    modifies to
    ensures SameElements(to[..], from, batches, channels, height * width)
  {
    hide Written, SameElement;
    var space := height * width;
    var t := 0;
    WrittenNothing(to[..], from, batches, channels, space, false);
    assert (0 * channels + 0) * space == 0;
    for n := 0 to batches
      invariant t == (n * channels + 0) * space && Written(to[..], from, batches, channels, space, false, t)
    {
      for c := 0 to channels
        invariant t == (n * channels + c) * space && Written(to[..], from, batches, channels, space, false, t)
      {
        for hw := 0 to space
          invariant t == (n * channels + c) * space + hw && Written(to[..], from, batches, channels, space, false, t)
        {
          IndexIsPosition(n, space, hw, channels, c);
          PositionsInRange(n, c, hw, batches, channels, space);
          ghost var before := to[..];
          to[t] := from[n * space * channels + hw * channels + c];
          OneMoreFirst(before, to[..], from, batches, channels, space, n, c, hw);
          t := t + 1;
        }
        NextRow(n, channels, c, space);
      }
      NextBatch(n, channels, space);
    }
    AllWritten(to[..], from, batches, channels, space, false, t);
  }

  lemma WrittenNothing<T>(first: seq<T>, last: seq<T>, batches: nat, channels: nat, space: nat, lastIsWritten: bool)
    ensures Written(first, last, batches, channels, space, lastIsWritten, 0)
  {
  }

  lemma AllWritten<T>(first: seq<T>, last: seq<T>, batches: nat, channels: nat, space: nat, lastIsWritten: bool, t: nat)
    requires Written(first, last, batches, channels, space, lastIsWritten, t) && t == batches * channels * space == |first| == |last|
    ensures SameElements(first, last, batches, channels, space)
  {
    forall n: nat, c: nat, hw: nat | n < batches && c < channels && hw < space ensures SameElement(first, last, n, c, hw, channels, space) {
      PositionsInRange(n, c, hw, batches, channels, space);
    }
  }

  /** Converting there and back gives the original, either way round. */
  method RoundTrip<T>(data: seq<T>, there: array<T>, back: array<T>, batches: nat, channels: nat, height: nat, width: nat, toLastFirst: bool)
    requires |data| == there.Length == back.Length == batches * channels * (height * width) && there != back
    modifies there, back
    ensures back[..] == data
  {
    if toLastFirst {
      ConvertToNhwc(there, data, batches, channels, height, width);
      ConvertFromNhwc(back, there[..], batches, height, width, channels);
      Determined(data, there[..], back[..], there[..], batches, channels, height * width);
    } else {
      ConvertFromNhwc(there, data, batches, height, width, channels);
      ConvertToNhwc(back, there[..], batches, channels, height, width);
      Determined(there[..], data, there[..], back[..], batches, channels, height * width);
    }
  }
}
