/** Grid state in a link: `rowsURL` of view/live_db_templ.go writes it, LiveDatabaseRows
    of server/handlers/live_db_handler.go reads it back. A query string is its decoded
    parameters; escaping is the library's. */
module GridLink {
  import opened Prelude
  import opened Overview

  datatype Column = Column(name: string)

  /** A parameter of the link. They are told apart by their names, which NamesDiffer shows
      to be the same thing. */
  datatype Param = Db | Table | Offset | Sort | Dir | FilterOn(column: Column)

  type Query = map<Param, string>

  type Filters = map<Column, string>

  datatype Grid = Grid(
    source: string, table: string, offset: int, sort: string, desc: bool, filters: Filters)

  function Name(p: Param): string {
    match p
    case Db => "db"
    case Table => "table"
    case Offset => "offset"
    case Sort => "sort"
    case Dir => "dir"
    case FilterOn(c) => "f_" + c.name
  }

  /** The reader's test for a filter: longer than the prefix, and starting with it. */
  predicate IsFilterName(name: string) {
    |name| > 2 && name[..2] == "f_"
  }

  /** No two parameters share a name, whatever the columns are called: no filter hides a
      fixed parameter, and none hides another filter. */
  lemma NamesDiffer(p: Param, q: Param)
    requires Name(p) == Name(q)
    ensures p == q
  {
    var a, b := Name(p), Name(q);
    assert p.FilterOn? ==> a[0] == 'f' && a[2..] == p.column.name;
    assert q.FilterOn? ==> b[0] == 'f' && b[2..] == q.column.name;
    assert p.Db? || p.Dir? || p.Table? || p.Offset? || p.Sort? ==> a[0] != 'f';
    assert q.Db? || q.Dir? || q.Table? || q.Offset? || q.Sort? ==> b[0] != 'f';
    assert |a| == |b|;
  }

  /** The reader takes a parameter for the filter it is, but for the column with no name. */
  lemma FiltersAreRecognised(p: Param)
    ensures IsFilterName(Name(p)) <==> p.FilterOn? && p.column.name != ""
    ensures IsFilterName(Name(p)) ==> Name(p)[2..] == p.column.name
  {
    var name := Name(p);
    if p.FilterOn? {
      assert name[..2] == "f_" && name[2..] == p.column.name;
    } else {
      assert name[0] != 'f';
    }
  }

  // ----- writing ----------------------------------------------------------------

  function FixedParams(g: Grid): Query {
    var q := map[Db := g.source, Table := g.table, Offset := Decimal(g.offset)];
    if g.sort == "" then q
    else if g.desc then q[Sort := g.sort][Dir := "desc"]
    else q[Sort := g.sort]
  }

  /** The parameters for the filters, whatever order those are visited in. */
  function FilterParams(filters: Filters): (q: Query)
    ensures forall c :: FilterOn(c) in q <==> c in filters && filters[c] != ""
    ensures forall c :: FilterOn(c) in q ==> q[FilterOn(c)] == filters[c]
    ensures forall p :: p in q ==> p.FilterOn?
  {
    map c | c in filters && filters[c] != "" :: FilterOn(c) := filters[c]
  }

  function Params(g: Grid): Query {
    FixedParams(g) + FilterParams(g.filters)
  }

  /** q is `start` with the filters on these columns set. */
  ghost predicate Holds(q: Query, start: Query, filters: Filters, columns: set<Column>) {
    && (forall p :: p in q <==> p in start || IsSet(p, filters, columns))
    && (forall p :: p in q ==> q[p] == if IsSet(p, filters, columns) then filters[p.column] else start[p])
  }

  predicate IsSet(p: Param, filters: Filters, columns: set<Column>) {
    p.FilterOn? && p.column in columns && p.column in filters && filters[p.column] != ""
  }

  lemma HoldsAll(q: Query, start: Query, filters: Filters)
    requires Holds(q, start, filters, filters.Keys)
    ensures q == start + FilterParams(filters)
  {
    var params := FilterParams(filters);
    forall p: Param
      ensures p in params <==> IsSet(p, filters, filters.Keys)
      ensures p in params ==> params[p] == filters[p.column]
    {
      if p.FilterOn? {
        assert p == FilterOn(p.column);
      }
    }
  }

  /** The loop over the filters: one `Set` for each that is not empty, in any order. */
  method AddFilters(start: Query, filters: Filters) returns (q: Query)
    ensures q == start + FilterParams(filters)
  {
    q := start;
    var todo := filters.Keys;
    while todo != {}
      invariant todo <= filters.Keys
      invariant Holds(q, start, filters, filters.Keys - todo)
      decreases todo
    {
      var c :| c in todo;
      var text := filters[c];
      if text != "" {
        q := q[FilterOn(c) := text];
      }
      todo := todo - {c};
    }
    HoldsAll(q, start, filters);
  }

  method RowsURL(g: Grid) returns (q: Query)
    ensures q == Params(g)
  {
    q := map[Db := g.source, Table := g.table, Offset := Decimal(g.offset)];
    if g.sort != "" {
      q := q[Sort := g.sort];
      if g.desc {
        q := q[Dir := "desc"];
      }
    }
    q := AddFilters(q, g.filters);
  }

  // ----- reading -----------------------------------------------------------------

  function Get(q: Query, p: Param): string {
    if p in q then q[p] else ""
  }

  predicate AreDigits(s: string) {
    s != "" && forall i :: 0 <= i < |s| ==> IsDigit(s[i])
  }

  /** strconv.Atoi, then atoiDefault with 0: a sign, decimal digits, in range, and not
      negative; anything else is 0. */
  function ReadOffset(s: string): (n: nat)
    ensures n <= MAX_INT64
  {
    var unsigned := if s != "" && s[0] in ['+', '-'] then s[1..] else s;
    if !AreDigits(unsigned) then 0
    else
      var n := Value(unsigned);
      if s[0] == '-' || n > MAX_INT64 then 0 else n
  }

  /** Digits, with a plus or without, are read for what they say as far as 64 bits go. */
  lemma DigitsAreRead(s: string)
    requires AreDigits(s)
    ensures ReadOffset(s) == if Value(s) <= MAX_INT64 then Value(s) else 0
  {
    assert IsDigit(s[0]);
  }

  lemma SignsAreRead(s: string)
    requires AreDigits(s)
    ensures ReadOffset("+" + s) == ReadOffset(s) && ReadOffset("-" + s) == 0
  {
    assert ("+" + s)[1..] == s && ("-" + s)[1..] == s;
    DigitsAreRead(s);
  }

  /** Nothing else is: no sign alone, no other text. */
  lemma OtherTextIsNoOffset(s: string)
    requires !AreDigits(s) && (s != "" && s[0] in ['+', '-'] ==> !AreDigits(s[1..]))
    ensures ReadOffset(s) == 0
  {
    assert !AreDigits(if s != "" && s[0] in ['+', '-'] then s[1..] else s);
  }

  /** A link without an offset opens the grid at its first row. */
  lemma NoOffsetIsTheFirstRow(q: Query)
    requires Offset !in q
    ensures Recover(q).offset == 0
  {}

  function ReadFilters(q: Query): (filters: Filters)
    ensures forall c :: c in filters <==> c.name != "" && FilterOn(c) in q && q[FilterOn(c)] != ""
    ensures forall c :: c in filters ==> filters[c] == q[FilterOn(c)]
  {
    var columns := set p | p in q && IsFilterName(Name(p)) && q[p] != "" :: Column(Name(p)[2..]);
    ColumnsRead(q, columns);
    map c | c in columns :: q[FilterOn(c)]
  }

  lemma ColumnsRead(q: Query, columns: set<Column>)
    requires columns == set p | p in q && IsFilterName(Name(p)) && q[p] != "" :: Column(Name(p)[2..])
    ensures forall c :: c in columns <==> c.name != "" && FilterOn(c) in q && q[FilterOn(c)] != ""
  {
    forall c
      ensures c in columns <==> c.name != "" && FilterOn(c) in q && q[FilterOn(c)] != ""
    {
      FiltersAreRecognised(FilterOn(c));
      if c in columns {
        var p :| p in q && IsFilterName(Name(p)) && q[p] != "" && c == Column(Name(p)[2..]);
        FiltersAreRecognised(p);
        assert p == FilterOn(c);
      }
    }
  }

  function Recover(q: Query): Grid {
    Grid(Get(q, Db), Get(q, Table), ReadOffset(Get(q, Offset)), Get(q, Sort), Get(q, Dir) == "desc", ReadFilters(q))
  }

  // ----- there and back ------------------------------------------------------------

  function CarriedFilters(filters: Filters): Filters {
    map c | c in filters && c.name != "" && filters[c] != "" :: filters[c]
  }

  /** What a link can carry: an offset that is not negative, a direction only with a sort,
      filters only with a text and a column name. */
  function Carried(g: Grid): Grid {
    Grid(g.source, g.table, if g.offset < 0 then 0 else g.offset, g.sort, g.sort != "" && g.desc,
         CarriedFilters(g.filters))
  }

  lemma ReadsDecimalBack(n: int)
    requires IsInt64(n)
    ensures ReadOffset(Decimal(n)) == if n < 0 then 0 else n
  {
    var s := Decimal(n);
    if n < 0 {
      assert s[1..] == Digits(-n);
    } else {
      assert IsDigit(s[0]);
      ValueOfDigits(n);
    }
  }

  lemma FixedParamsSurvive(g: Grid, p: Param)
    requires !p.FilterOn?
    ensures Get(Params(g), p) == Get(FixedParams(g), p)
  {}

  lemma FixedParamsRead(g: Grid)
    ensures var q := FixedParams(g);
            && Get(q, Db) == g.source && Get(q, Table) == g.table && Get(q, Offset) == Decimal(g.offset)
            && Get(q, Sort) == g.sort && (Get(q, Dir) == "desc" <==> g.sort != "" && g.desc)
  {}

  lemma FilterSurvives(g: Grid, c: Column)
    ensures FilterOn(c) in Params(g) <==> c in g.filters && g.filters[c] != ""
    ensures FilterOn(c) in Params(g) ==> Params(g)[FilterOn(c)] == g.filters[c]
  {
    assert FilterOn(c) !in FixedParams(g);
  }

  lemma FiltersSurvive(g: Grid)
    ensures ReadFilters(Params(g)) == CarriedFilters(g.filters)
  {
    var read, carried := ReadFilters(Params(g)), CarriedFilters(g.filters);
    forall c
      ensures c in read <==> c in carried
      ensures c in read ==> read[c] == carried[c]
    {
      FilterSurvives(g, c);
    }
  }

  /** Every grid state comes back from its link, up to what a link cannot carry. */
  lemma LinkCarriesTheGrid(g: Grid)
    requires IsInt64(g.offset)
    ensures Recover(Params(g)) == Carried(g)
  {
    FixedParamsSurvive(g, Db);
    FixedParamsSurvive(g, Table);
    FixedParamsSurvive(g, Offset);
    FixedParamsSurvive(g, Sort);
    FixedParamsSurvive(g, Dir);
    FixedParamsRead(g);
    FiltersSurvive(g);
    ReadsDecimalBack(g.offset);
  }

  lemma FiltersAreCarriedExactly(filters: Filters)
    ensures CarriedFilters(filters) == filters <==>
            forall c :: c in filters ==> c.name != "" && filters[c] != ""
  {
    var kept := CarriedFilters(filters);
    if forall c :: c in filters ==> c.name != "" && filters[c] != "" {
      assert kept == filters;
    } else {
      var c :| c in filters && !(c.name != "" && filters[c] != "");
      assert c !in kept;
    }
  }

  /** It comes back unchanged exactly when the offset is not negative, a descending order
      comes with a sort, and every filter has a column name and a text. */
  lemma LinkRoundTripsExactly(g: Grid)
    requires IsInt64(g.offset)
    ensures Recover(Params(g)) == g <==>
            && g.offset >= 0
            && (g.desc ==> g.sort != "")
            && (forall c :: c in g.filters ==> c.name != "" && g.filters[c] != "")
  {
    LinkCarriesTheGrid(g);
    FiltersAreCarriedExactly(g.filters);
  }

  /** A grid that was itself opened from a link meets that condition, but for a direction
      without a sort, which a hand-written link can hold. */
  lemma OpenedGridsRoundTrip(q: Query)
    ensures var g := Recover(q);
            Recover(Params(g)) == g <==> (g.desc ==> g.sort != "")
  {
    LinkRoundTripsExactly(Recover(q));
  }
}
