/** The waterfall column of the network screen (view/network_helpers.go). Times are
    nanoseconds since Go's zero time; percentages are exact, so float rounding is not
    part of this model. */
module Waterfall {
  const MILLISECOND: int := 1_000_000
  const SECOND: int := 1_000_000_000

  datatype NetworkCall = NetworkCall(
    startedAt: int, endedAt: int, hasRequest: bool, hasResponse: bool, hasError: bool)

  datatype CallState = Failed | Orphaned | Complete | Pending

  function State(c: NetworkCall): CallState {
    if c.hasError then Failed
    else if c.hasResponse && !c.hasRequest then Orphaned
    else if c.hasResponse then Complete
    else Pending
  }

  function Duration(c: NetworkCall): (d: int)
    ensures d >= 0
  {
    if State(c) == Pending then 0
    else if c.endedAt < c.startedAt then 0
    else c.endedAt - c.startedAt
  }

  /** The least start, and the smallest span of at least a millisecond that reaches
      every end. */
  ghost predicate IsWindow(calls: seq<NetworkCall>, start: int, span: int) {
    && (forall c :: c in calls ==> start <= c.startedAt && c.endedAt <= start + span)
    && (exists c :: c in calls && c.startedAt == start)
    && span >= 1_000_000
    && (span == 1_000_000 || exists c :: c in calls && c.endedAt == start + span)
  }

  method CallWindow(calls: seq<NetworkCall>) returns (start: int, span: int)
    ensures calls == [] ==> start == 0 && span == 1_000_000_000
    ensures calls != [] ==> IsWindow(calls, start, span)
  {
    if |calls| == 0 {
      return 0, SECOND;
    }
    var end;
    start, end := calls[0].startedAt, calls[0].endedAt;
    for i := 0 to |calls|
      invariant forall c :: c in calls[..i] ==> start <= c.startedAt && c.endedAt <= end
      invariant exists c :: c in calls && c.startedAt == start
      invariant exists c :: c in calls && c.endedAt == end
    {
      assert calls[..i + 1] == calls[..i] + [calls[i]];
      if calls[i].startedAt < start {
        start := calls[i].startedAt;
      }
      if calls[i].endedAt > end {
        end := calls[i].endedAt;
      }
    }
    assert calls[..|calls|] == calls;
    span := end - start;
    if span < MILLISECOND {
      span := MILLISECOND;
    }
  }

  /** The window depends on which calls are listed, not on their order. */
  lemma WindowIsOrderIndependent(
    calls: seq<NetworkCall>, others: seq<NetworkCall>, start: int, span: int, start': int, span': int)
    requires forall c :: c in calls <==> c in others
    requires IsWindow(calls, start, span) && IsWindow(others, start', span')
    ensures start == start' && span == span'
  {}

  function Percent(part: int, span: int): real
    requires span > 0
  {
    (part as real) / (span as real) * 100.0
  }

  function Clamp(x: real): (r: real)
    ensures 0.0 <= r <= 100.0
  {
    if x < 0.0 then 0.0 else if x > 100.0 then 100.0 else x
  }

  function MinReal(a: real, b: real): real {
    if a < b then a else b
  }

  function MaxReal(a: real, b: real): real {
    if a > b then a else b
  }

  function Offset(c: NetworkCall, start: int, span: int): real
    requires span > 0
  {
    Clamp(Percent(c.startedAt - start, span))
  }

  /** At least 2 wide, but never past the end of the window. */
  function Width(c: NetworkCall, start: int, span: int): real
    requires span > 0
  {
    var offset := Offset(c, start, span);
    var natural := if State(c) == Pending then 100.0 - offset else Percent(Duration(c), span);
    MinReal(100.0 - offset, MaxReal(2.0, natural))
  }

  method WaterfallBar(c: NetworkCall, start: int, span: int) returns (offset: real, width: real)
    ensures span <= 0 ==> offset == 0.0 && width == 100.0
    ensures span > 0 ==> offset == Offset(c, start, span) && width == Width(c, start, span)
  {
    if span <= 0 {
      return 0.0, 100.0;
    }
    offset := (c.startedAt - start) as real / span as real * 100.0;
    if offset < 0.0 {
      offset := 0.0;
    }
    if offset > 100.0 {
      offset := 100.0;
    }
    if State(c) == Pending {
      width := 100.0 - offset;
    } else {
      width := Duration(c) as real / span as real * 100.0;
    }
    if width < 2.0 {
      width := 2.0;
    }
    if offset + width > 100.0 {
      width := 100.0 - offset;
    }
  }

  lemma PercentIsMonotone(a: int, b: int, span: int)
    requires a <= b && span > 0
    ensures Percent(a, span) <= Percent(b, span)
  {
    var x, y, s := a as real, b as real, span as real;
    assert y / s - x / s == (y - x) / s;
    assert (y - x) / s >= 0.0;
  }

  lemma PercentOfAll(span: int)
    requires span > 0
    ensures Percent(span, span) == 100.0 && Percent(0, span) == 0.0
  {
    assert (span as real) / (span as real) == 1.0;
  }

  lemma PercentAdds(a: int, b: int, span: int)
    requires span > 0
    ensures Percent(a, span) + Percent(b, span) == Percent(a + b, span)
  {
    var x, y, s := a as real, b as real, span as real;
    assert (a + b) as real == x + y;
    assert x / s + y / s == (x + y) / s;
  }

  /** What became of a call, by what arrived of it: an error decides; otherwise a response
      without its request is an orphan, one with it is complete, and without one the call is
      pending. */
  lemma StateByWhatArrived(c: NetworkCall)
    ensures State(c) == Failed <==> c.hasError
    ensures State(c) == Orphaned <==> !c.hasError && c.hasResponse && !c.hasRequest
    ensures State(c) == Complete <==> !c.hasError && c.hasResponse && c.hasRequest
    ensures State(c) == Pending <==> !c.hasError && !c.hasResponse
  {}

  /** How long it took: nothing while pending, nothing when it ended before it started. */
  lemma DurationByTheClock(c: NetworkCall)
    ensures c.hasError || c.hasResponse ==>
              Duration(c) == if c.startedAt <= c.endedAt then c.endedAt - c.startedAt else 0
    ensures !c.hasError && !c.hasResponse ==> Duration(c) == 0
  {}

  /** A call that is over is drawn as wide as it was long, but at least 2 wide, and cut at the
      end of the window. */
  lemma WidthOfAFinishedCall(c: NetworkCall, start: int, span: int)
    requires span > 0 && (c.hasError || c.hasResponse)
    ensures var long := Percent(if c.startedAt <= c.endedAt then c.endedAt - c.startedAt else 0, span);
            var room, width := 100.0 - Offset(c, start, span), Width(c, start, span);
            && width <= room && (width < room ==> width >= 2.0 && width >= long)
            && (width == room || width == 2.0 || width == long)
  {}

  /** Every bar stays inside the column and is wide enough to see, wherever its call
      lies; and bars start in the order their calls did. */
  lemma BarsStayInside(c: NetworkCall, later: NetworkCall, start: int, span: int)
    requires span > 0 && c.startedAt <= later.startedAt
    ensures var offset, width := Offset(c, start, span), Width(c, start, span);
            && 0.0 <= offset && offset + width <= 100.0
            && width >= MinReal(2.0, 100.0 - offset)
            && offset <= Offset(later, start, span)
  {
    PercentIsMonotone(c.startedAt - start, later.startedAt - start, span);
  }

  /** A pending bar always runs to the end of the window. */
  lemma PendingRunsToTheEnd(c: NetworkCall, start: int, span: int)
    requires span > 0 && !c.hasError && !c.hasResponse
    ensures Offset(c, start, span) + Width(c, start, span) == 100.0
  {}

  /** For a listed call with its end after its start nothing is clipped: the bar begins
      where the call began, and one that needs no minimum width ends where it ended. */
  lemma ListedBarsAreToScale(calls: seq<NetworkCall>, c: NetworkCall, start: int, span: int)
    requires IsWindow(calls, start, span) && c in calls && c.startedAt <= c.endedAt
    ensures Offset(c, start, span) == Percent(c.startedAt - start, span)
    ensures (c.hasError || c.hasResponse) && Percent(c.endedAt - c.startedAt, span) >= 2.0 ==>
              Offset(c, start, span) + Width(c, start, span) == Percent(c.endedAt - start, span)
  {
    PercentOfAll(span);
    PercentIsMonotone(0, c.startedAt - start, span);
    PercentIsMonotone(c.startedAt - start, span, span);
    PercentAdds(c.startedAt - start, c.endedAt - c.startedAt, span);
    PercentIsMonotone(c.endedAt - start, span, span);
  }

  /** A start is clipped exactly when it lies past every end, which takes a call that
      ended before it started. */
  lemma ClippedExactlyPastTheWindow(calls: seq<NetworkCall>, c: NetworkCall, start: int, span: int)
    requires IsWindow(calls, start, span) && c in calls
    ensures Offset(c, start, span) == Percent(c.startedAt - start, span) <==> c.startedAt <= start + span
    ensures c.startedAt > start + span ==> c.endedAt < c.startedAt
  {
    PercentOfAll(span);
    PercentIsMonotone(0, c.startedAt - start, span);
    if c.startedAt <= start + span {
      PercentIsMonotone(c.startedAt - start, span, span);
    } else {
      PercentIsMonotone(span + 1, c.startedAt - start, span);
      PercentAdds(span, 1, span);
      assert Percent(1, span) > 0.0;
    }
  }
}
