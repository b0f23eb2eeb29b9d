/** The page strip under the project grid: the cell loop of `Pagination` in
    view/dashboard_templ.go. */
module PageStrip {
  datatype Cell = Page(number: int) | Current(number: int) | Gap

  /** What the loop writes for page i. */
  function CellFor(i: int, current: int, total: int): seq<Cell> {
    if i == current then [Current(i)]
    else if i == 1 || i == total || current - 1 <= i <= current + 1 then [Page(i)]
    else if (i == 2 && current > 4) || (i == total - 1 && current < total - 3) then [Gap]
    else []
  }

  function Cells(first: int, last: int, current: int, total: int): seq<Cell>
    decreases last - first
  {
    if first > last then [] else Cells(first, last - 1, current, total) + CellFor(last, current, total)
  }

  method Pagination(current: int, total: int) returns (cells: seq<Cell>)
    ensures cells == Cells(1, total, current, total)
    ensures 1 <= current <= total ==> cells == Strip(current, total)
  {
    cells := [];
    var i := 1;
    while i <= total
      invariant 1 <= i <= if total < 0 then 1 else total + 1
      invariant cells == Cells(1, i - 1, current, total)
    {
      if i == current {
        cells := cells + [Current(i)];
      } else if i == 1 || i == total || (i >= current - 1 && i <= current + 1) {
        cells := cells + [Page(i)];
      } else if (i == 2 && current > 4) || (i == total - 1 && current < total - 3) {
        cells := cells + [Gap];
      }
      i := i + 1;
    }
    if 1 <= current <= total {
      LoopWritesStrip(current, total);
    }
  }

  // The strip with no loop: the ends, the neighbours, and a gap where pages are left out.

  function LeftEnd(current: int): seq<Cell> {
    if current == 1 then []
    else if current == 2 then [Page(1)]
    else if current <= 4 then [Page(1), Page(current - 1)]
    else [Page(1), Gap, Page(current - 1)]
  }

  function RightEnd(current: int, total: int): seq<Cell> {
    if current == total then []
    else if current == total - 1 then [Page(total)]
    else if current >= total - 3 then [Page(current + 1), Page(total)]
    else [Page(current + 1), Gap, Page(total)]
  }

  function Strip(current: int, total: int): seq<Cell> {
    LeftEnd(current) + [Current(current)] + RightEnd(current, total)
  }

  lemma {:induction false} CellsSplit(first: int, middle: int, last: int, current: int, total: int)
    requires first <= middle + 1 <= last + 1
    ensures Cells(first, last, current, total) ==
            Cells(first, middle, current, total) + Cells(middle + 1, last, current, total)
    decreases last - middle
  {
    if middle < last {
      CellsSplit(first, middle, last - 1, current, total);
    }
  }

  lemma {:induction false} NothingBetween(first: int, last: int, current: int, total: int)
    requires forall i :: first <= i <= last ==> CellFor(i, current, total) == []
    ensures Cells(first, last, current, total) == []
    decreases last - first
  {
    if first <= last {
      NothingBetween(first, last - 1, current, total);
    }
  }

  lemma OneCell(i: int, current: int, total: int)
    ensures Cells(i, i, current, total) == CellFor(i, current, total)
  {
    assert Cells(i, i - 1, current, total) == [];
  }

  lemma LeftOfCurrent(current: int, total: int)
    requires 1 <= current <= total
    ensures Cells(1, current - 1, current, total) == LeftEnd(current)
  {
    if current >= 2 {
      OneCell(1, current, total);
      CellsSplit(1, 1, current - 1, current, total);
      if current >= 3 {
        CellsSplit(2, current - 2, current - 1, current, total);
        OneCell(current - 1, current, total);
        if current >= 4 {
          CellsSplit(2, 2, current - 2, current, total);
          OneCell(2, current, total);
          NothingBetween(3, current - 2, current, total);
        }
      }
    }
  }

  lemma MiddleRight(current: int, total: int)
    requires 1 <= current < total - 2
    ensures Cells(current + 2, total - 1, current, total) == if current < total - 3 then [Gap] else []
  {
    CellsSplit(current + 2, total - 2, total - 1, current, total);
    OneCell(total - 1, current, total);
    NothingBetween(current + 2, total - 2, current, total);
    assert CellFor(total - 1, current, total) == if current < total - 3 then [Gap] else [];
  }

  lemma RightOfCurrent(current: int, total: int)
    requires 1 <= current <= total
    ensures Cells(current + 1, total, current, total) == RightEnd(current, total)
  {
    if current < total {
      var inner := Cells(current + 1, total - 1, current, total);
      assert Cells(current + 1, total, current, total) == inner + [Page(total)];
      if current == total - 1 {
        assert inner == [];
      } else {
        var middle := Cells(current + 2, total - 1, current, total);
        CellsSplit(current + 1, current + 1, total - 1, current, total);
        OneCell(current + 1, current, total);
        assert inner == [Page(current + 1)] + middle;
        if current < total - 2 {
          MiddleRight(current, total);
        }
      }
    }
  }

  /** The loop over all pages writes the strip, however many there are. */
  lemma LoopWritesStrip(current: int, total: int)
    requires 1 <= current <= total
    ensures Cells(1, total, current, total) == Strip(current, total)
  {
    CellsSplit(1, current - 1, total, current, total);
    CellsSplit(current, current, total, current, total);
    OneCell(current, current, total);
    LeftOfCurrent(current, total);
    RightOfCurrent(current, total);
  }

  function Numbers(cells: seq<Cell>): (r: seq<int>) {
    if cells == [] then []
    else (if cells[0].Gap? then [] else [cells[0].number]) + Numbers(cells[1..])
  }

  lemma {:induction false} NumbersAppend(a: seq<Cell>, b: seq<Cell>)
    ensures Numbers(a + b) == Numbers(a) + Numbers(b)
  {
    if a == [] {
      assert a + b == b;
    } else {
      assert (a + b)[1..] == a[1..] + b;
      NumbersAppend(a[1..], b);
    }
  }

  predicate Increasing(s: seq<int>) {
    forall i, j :: 0 <= i < j < |s| ==> s[i] < s[j]
  }

  lemma InTheMiddle<T>(a: seq<T>, x: T, c: seq<T>)
    ensures x in a + [x] + c
    ensures forall y :: y in a || y in c ==> y in a + [x] + c
    ensures forall y :: y in a + [x] + c ==> y in a || y == x || y in c
  {
    assert (a + [x] + c)[|a|] == x;
  }

  lemma NumbersOfStrip(current: int, total: int)
    requires 1 <= current <= total
    ensures Numbers(Strip(current, total)) ==
            Numbers(LeftEnd(current)) + [current] + Numbers(RightEnd(current, total))
  {
    NumbersAppend(LeftEnd(current) + [Current(current)], RightEnd(current, total));
    NumbersAppend(LeftEnd(current), [Current(current)]);
    assert Numbers([Current(current)]) == [current];
  }

  lemma IncreasingAround(a: seq<int>, x: int, c: seq<int>)
    requires Increasing(a) && Increasing(c)
    requires forall y :: y in a ==> y < x
    requires forall y :: y in c ==> x < y
    ensures Increasing(a + [x] + c)
  {
    var s := a + [x] + c;
    forall i, j | 0 <= i < j < |s|
      ensures s[i] < s[j]
    {
      assert i < |a| ==> s[i] in a;
      assert j > |a| ==> s[j] in c && s[j] == c[j - |a| - 1];
      assert i > |a| ==> s[i] == c[i - |a| - 1];
    }
  }

  /** Never more than seven cells; strictly increasing page numbers, among them the first,
      the last, the current page and its neighbours. */
  lemma StripLaws(current: int, total: int)
    requires 1 <= current <= total
    ensures |Strip(current, total)| <= 7
    ensures var numbers := Numbers(Strip(current, total));
            && Increasing(numbers)
            && 1 in numbers && total in numbers && current in numbers
            && (current > 1 ==> current - 1 in numbers)
            && (current < total ==> current + 1 in numbers)
            && (forall n :: n in numbers ==> 1 <= n <= total)
  {
    var left, right := Numbers(LeftEnd(current)), Numbers(RightEnd(current, total));
    AtMostSevenCells(current, total);
    NumbersOfStrip(current, total);
    EndsAreOrdered(current, total);
    IncreasingAround(left, current, right);
    InTheMiddle(left, current, right);
  }

  lemma AtMostSevenCells(current: int, total: int)
    requires 1 <= current <= total
    ensures |Strip(current, total)| <= 7
  {
    assert |LeftEnd(current)| <= 3 && |RightEnd(current, total)| <= 3;
  }

  lemma EndsAreOrdered(current: int, total: int)
    requires 1 <= current <= total
    ensures var left, right := Numbers(LeftEnd(current)), Numbers(RightEnd(current, total));
            && Increasing(left) && Increasing(right)
            && (forall n :: n in left ==> 1 <= n < current)
            && (forall n :: n in right ==> current < n <= total)
            && (current > 1 ==> 1 in left && current - 1 in left)
            && (current < total ==> total in right && current + 1 in right)
  {
    NumbersOfEnds(current, total);
    var left, right := Numbers(LeftEnd(current)), Numbers(RightEnd(current, total));
    assert current > 1 ==> left[0] == 1 && left[|left| - 1] == current - 1;
    assert current < total ==> right[0] == current + 1 && right[|right| - 1] == total;
  }

  /** A gap stands on a side exactly when at least two pages are left out there: a single
      page is left out unmarked. */
  lemma GapExactlyWhenTwoAreLeftOut(current: int, total: int)
    requires 1 <= current <= total
    ensures Gap in LeftEnd(current) <==> current - 1 - |Numbers(LeftEnd(current))| >= 2
    ensures Gap in RightEnd(current, total) <==>
            total - current - |Numbers(RightEnd(current, total))| >= 2
  {
    NumbersOfEnds(current, total);
  }

  lemma NumbersOfEnds(current: int, total: int)
    requires 1 <= current <= total
    ensures Numbers(LeftEnd(current)) ==
            if current == 1 then [] else if current == 2 then [1] else [1, current - 1]
    ensures Numbers(RightEnd(current, total)) ==
            if current == total then [] else if current == total - 1 then [total] else [current + 1, total]
  {
    NumbersOfPair(Page(1), Page(current - 1));
    NumbersOfPair(Page(current + 1), Page(total));
    assert Numbers([Page(1)]) == [1] && Numbers([Page(total)]) == [total];
  }

  lemma NumbersOfPair(a: Cell, b: Cell)
    requires !a.Gap? && !b.Gap?
    ensures Numbers([a, b]) == [a.number, b.number] == Numbers([a, Gap, b])
  {
    assert [a, b][1..] == [b] && [a, Gap, b][1..] == [Gap, b] && [Gap, b][1..] == [b];
    assert Numbers([b]) == [b.number];
  }
}
