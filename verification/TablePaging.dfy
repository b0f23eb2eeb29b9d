/** Browsing a device's table page by page: the paging links and the displayed range of
    view/live_db_templ.go and view/live_db_helpers.go. */
module TablePaging {
  /** The device's table, read honestly: from an offset before the end it sends at least
      one row and never past the end, however early it stops for size. */
  datatype Device<Row> = Device(rows: seq<Row>, pageLength: nat -> nat)

  ghost predicate Honest<Row(!new)>(d: Device<Row>) {
    forall offset: nat :: offset < |d.rows| ==>
      0 < d.pageLength(offset) && offset + d.pageLength(offset) <= |d.rows|
  }

  datatype Page<Row> = Page(rows: seq<Row>, hasMore: bool)

  function Read<Row(!new)>(d: Device<Row>, offset: nat): (p: Page<Row>)
    requires Honest(d)
    ensures offset <= |d.rows| ==> offset + |p.rows| <= |d.rows| && p.rows == d.rows[offset..offset + |p.rows|]
    ensures offset <= |d.rows| ==> (p.hasMore <==> offset + |p.rows| < |d.rows|)
    ensures p.hasMore ==> |p.rows| > 0
  {
    if offset < |d.rows| then
      var n := d.pageLength(offset);
      Page(d.rows[offset..offset + n], offset + n < |d.rows|)
    else Page([], false)
  }

  function MaxInt(a: int, b: int): int {
    if a > b then a else b
  }

  /** The next link: past the rows that came, not past the rows asked for. */
  function NextOffset<Row>(offset: nat, p: Page<Row>): nat {
    offset + |p.rows|
  }

  function PreviousOffset(offset: nat, pageSize: nat): nat {
    MaxInt(0, offset - pageSize)
  }

  /** The rows seen when following next links from an offset to the end. */
  function Walk<Row(!new)>(d: Device<Row>, offset: nat): seq<Row>
    requires Honest(d) && offset <= |d.rows|
    decreases |d.rows| - offset
  {
    var p := Read(d, offset);
    if p.hasMore then p.rows + Walk(d, NextOffset(offset, p)) else p.rows
  }

  /** Following next links from any offset shows every row from there on exactly once, in
      order, wherever pages stopped short; from 0, the whole table. */
  lemma {:induction false} WalkShowsTheRest<Row(!new)>(d: Device<Row>, offset: nat)
    requires Honest(d) && offset <= |d.rows|
    ensures Walk(d, offset) == d.rows[offset..]
    decreases |d.rows| - offset
  {
    var p := Read(d, offset);
    if p.hasMore {
      var next := NextOffset(offset, p);
      WalkShowsTheRest(d, next);
      assert d.rows[offset..] == d.rows[offset..next] + d.rows[next..];
    }
  }

  /** Taking the previous link and then next links skips nothing: the walk from there
      goes through the page just left and everything between. */
  lemma PreviousThenNextSkipsNothing<Row(!new)>(d: Device<Row>, offset: nat, pageSize: nat)
    requires Honest(d) && 0 < offset <= |d.rows| && pageSize > 0
    ensures var back := PreviousOffset(offset, pageSize);
            && back < offset
            && Walk(d, back) == d.rows[back..offset] + Walk(d, offset)
  {
    var back := PreviousOffset(offset, pageSize);
    WalkShowsTheRest(d, back);
    WalkShowsTheRest(d, offset);
    assert d.rows[back..] == d.rows[back..offset] + d.rows[offset..];
  }

  /** Where n previous links lead. */
  function GoBack(offset: nat, pageSize: nat, n: nat): nat {
    if n == 0 then offset else GoBack(PreviousOffset(offset, pageSize), pageSize, n - 1)
  }

  /** Previous links lead to the first row, and get there exactly when they have covered
      the offset. */
  lemma {:induction false} PreviousReachesTheStart(offset: nat, pageSize: nat, n: nat)
    ensures GoBack(offset, pageSize, n) == MaxInt(0, offset - n * pageSize)
  {
    if n > 0 {
      PreviousReachesTheStart(PreviousOffset(offset, pageSize), pageSize, n - 1);
      assert (n - 1) * pageSize + pageSize == n * pageSize;
      assert (n - 1) * pageSize >= 0;
    }
  }

  datatype Range = NoRows | Rows(first: int, last: int, more: bool)

  /** rowRange: the numbers in its text. */
  function RowRange<Row>(offset: nat, p: Page<Row>): Range {
    if |p.rows| == 0 then NoRows else Rows(offset + 1, offset + |p.rows|, p.hasMore)
  }

  /** The displayed range is the rows shown: counting from 1, row k of the table is on the
      page exactly when k lies in the range, and "of more" is said exactly when the table
      goes on; the next page's range begins right behind it. */
  lemma RangeMatchesRows<Row(!new)>(d: Device<Row>, offset: nat)
    requires Honest(d) && offset < |d.rows|
    ensures var p := Read(d, offset); var r := RowRange(offset, p);
            && r.Rows?
            && p.rows == d.rows[r.first - 1..r.last]
            && (r.more <==> r.last < |d.rows|)
            && (r.more ==> RowRange(NextOffset(offset, p), Read(d, NextOffset(offset, p))).Rows?
                           && RowRange(NextOffset(offset, p), Read(d, NextOffset(offset, p))).first == r.last + 1)
  {}
}
