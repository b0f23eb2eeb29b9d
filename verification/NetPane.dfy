/** The network table of the live page (liveNetworkScript): the phases of each request
    collected into one call, at most `cap` of them, with a table row each, a selection,
    a detail pane and a filter. */
module NetPane {
  import opened Prelude
  import opened LiveEvents

  type Positive = n: nat | n > 0 witness 1

  const MAX_CALLS: Positive := 500

  datatype Config = Config(cap: Positive, text: Text)

  datatype Call = Call(
    id: RequestId,
    verb: string,
    url: string,
    status: int,
    req: Option<Log>,
    res: Option<Log>,
    err: Option<Log>,
    reqAt: Option<int>,
    doneAt: Option<int>,
    startedAt: string)

  datatype State = Pending | Ok | Bad | Err

  /** A status button: all calls, or those in one state. */
  datatype Choice = All | Only(state: State)

  /** A table row. Every cell and data attribute is computed from the call when the row
      is rendered, so a row is the call as it was then, whether it is hidden, and
      whether it carries aria-selected. */
  datatype Row = Row(id: RequestId, shown: Call, hidden: bool, marked: bool)

  datatype Pane = Pane(
    calls: map<RequestId, Call>,
    order: seq<RequestId>,
    rows: seq<Row>,
    selected: Option<RequestId>,
    detail: Option<Call>,     // None is the "Pick a call" prompt
    status: Choice,           // the pressed status button
    typed: string,
    badge: nat)

  datatype Input =
    | Net(ev: LiveEvent)
    | Click(id: RequestId)
    | PickStatus(status: Choice)
    | Type(typed: string)

  // ----- one call ---------------------------------------------------------------

  function NewCall(id: RequestId, startedAt: string): Call {
    Call(id, "", "", 0, None, None, None, None, None, startedAt)
  }

  function Absorb(t: Text, call: Call, ev: LiveEvent): Call {
    var log := ev.log;
    var c := call.(verb := if log.verb != "" then log.verb else call.verb,
                   url := if log.url != "" then log.url else call.url);
    var at := t.parseDate(Stamp(ev));
    if log.callPhase == Request then c.(req := Some(log), reqAt := at, startedAt := Stamp(ev))
    else if log.callPhase == Response then c.(res := Some(log), status := log.statusCode, doneAt := at)
    else if log.callPhase == Error then c.(err := Some(log), doneAt := at)
    else c
  }

  function StateOf(call: Call): State {
    if call.err.Some? then Err
    else if call.res.Some? then if call.status >= 400 then Bad else Ok
    else Pending
  }

  // ----- handlers ----------------------------------------------------------------

  predicate Passes(t: Text, status: Choice, typed: string, call: Call) {
    var needle := t.lower(t.trim(typed));
    && (status == All || status == Only(StateOf(call)))
    && (needle == "" || Contains(t.lower(t.path(call.url)), needle))
  }

  function ApplyNetFilter(cfg: Config, p: Pane): Pane {
    p.(rows := seq(|p.rows|, i requires 0 <= i < |p.rows| =>
      p.rows[i].(hidden := !Passes(cfg.text, p.status, p.typed, p.rows[i].shown))))
  }

  predicate HasRow(rows: seq<Row>, id: RequestId) {
    exists i :: 0 <= i < |rows| && rows[i].id == id
  }

  function Reshow(rows: seq<Row>, call: Call): (r: seq<Row>)
    ensures |r| == |rows|
    ensures forall i :: 0 <= i < |rows| ==>
              r[i] == if rows[i].id == call.id then rows[i].(shown := call) else rows[i]
  {
    seq(|rows|, i requires 0 <= i < |rows| =>
      if rows[i].id == call.id then rows[i].(shown := call) else rows[i])
  }

  /** Sets aria-selected on one row, or takes it off. */
  function Mark(rows: seq<Row>, id: RequestId, on: bool): (r: seq<Row>)
    ensures |r| == |rows|
    ensures forall i :: 0 <= i < |rows| ==>
              r[i] == if rows[i].id == id then rows[i].(marked := on) else rows[i]
  {
    seq(|rows|, i requires 0 <= i < |rows| =>
      if rows[i].id == id then rows[i].(marked := on) else rows[i])
  }

  function Render(cfg: Config, p: Pane, call: Call): Pane {
    var rows := if HasRow(p.rows, call.id) then Reshow(p.rows, call)
                else p.rows + [Row(call.id, call, false, false)];
    var q := p.(rows := rows);
    ApplyNetFilter(cfg,
      if p.selected == Some(call.id) then q.(rows := Mark(rows, call.id, true), detail := Some(call)) else q)
  }

  function RemoveRow(rows: seq<Row>, id: RequestId): seq<Row> {
    if rows == [] then []
    else if rows[0].id == id then rows[1..]
    else [rows[0]] + RemoveRow(rows[1..], id)
  }

  function DropOldest(p: Pane): Pane
    requires p.order != []
  {
    var oldest := p.order[0];
    var q := p.(order := p.order[1..], calls := p.calls - {oldest}, rows := RemoveRow(p.rows, oldest));
    if p.selected == Some(oldest) then q.(selected := None, detail := None) else q
  }

  function Evict(cfg: Config, p: Pane): Pane
    decreases |p.order|
  {
    if |p.order| > cfg.cap then Evict(cfg, DropOldest(p)) else p
  }

  /** The call an event belongs to, created and made room for when it is new. */
  function Open(cfg: Config, p: Pane, ev: LiveEvent): Pane {
    var id := ev.log.requestId;
    if id in p.calls then p
    else Evict(cfg, p.(calls := p.calls[id := NewCall(id, Stamp(ev))], order := p.order + [id]))
  }

  function Ingest(cfg: Config, p: Pane, ev: LiveEvent): Pane {
    var id := ev.log.requestId;
    if id == NO_ID then p
    else
      var q := Open(cfg, p, ev);
      // With a positive cap the call just grown is never the one evicted.
      if id !in q.calls then q
      else
        var call := Absorb(cfg.text, q.calls[id], ev);
        var r := Render(cfg, q.(calls := q.calls[id := call]), call);
        r.(badge := |r.calls|)
  }

  function Select(p: Pane, id: RequestId): Pane {
    // Only a row that is in the table can be clicked.
    if id !in p.calls then p
    else
      var rows := if p.selected.Some? then Mark(p.rows, p.selected.value, false) else p.rows;
      p.(rows := Mark(rows, id, true), selected := Some(id), detail := Some(p.calls[id]))
  }

  function Step(cfg: Config, p: Pane, input: Input): Pane {
    match input
    case Net(ev) => Ingest(cfg, p, ev)
    case Click(id) => Select(p, id)
    case PickStatus(s) => ApplyNetFilter(cfg, p.(status := s))
    case Type(text) => ApplyNetFilter(cfg, p.(typed := text))
  }

  const START: Pane := Pane(map[], [], [], None, None, All, "", 0)

  function After(cfg: Config, run: seq<Input>): Pane {
    if run == [] then START else Step(cfg, After(cfg, run[..|run| - 1]), run[|run| - 1])
  }

  // ----- agreement -----------------------------------------------------------------

  lemma AfterOneMore(cfg: Config, run: seq<Input>, input: Input)
    ensures After(cfg, run + [input]) == Step(cfg, After(cfg, run), input)
  {
    assert (run + [input])[..|run|] == run;
  }

  predicate Distinct(s: seq<RequestId>) {
    forall i, j :: 0 <= i < j < |s| ==> s[i] != s[j]
  }

  /** Map, queue and table hold the same calls; rows show them as they are; the mark and
      the detail pane follow the selection. */
  ghost predicate Aligned(p: Pane) {
    && Distinct(p.order)
    && (forall id :: id in p.calls <==> id in p.order)
    && (forall id :: id in p.calls ==> p.calls[id].id == id)
    && |p.rows| == |p.order|
    && (forall i :: 0 <= i < |p.rows| ==> RowAligned(p, i))
    && (match p.selected
        case None => p.detail == None
        case Some(id) => id in p.calls && p.detail == Some(p.calls[id]))
  }

  ghost predicate RowAligned(p: Pane, i: nat)
    requires i < |p.rows| == |p.order|
  {
    var row := p.rows[i];
    && row.id == p.order[i]
    && row.id in p.calls
    && row.shown == p.calls[row.id]
    && (row.marked <==> p.selected == Some(row.id))
  }

  /** A call in another state than the one picked is hidden, and one whose path does not
      hold the typed text, but for case and the white space around it; no other is. */
  ghost predicate IsHidden(t: Text, status: Choice, typed: string, call: Call) {
    || (status != All && status != Only(StateOf(call)))
    || (t.lower(t.trim(typed)) != "" && !Occurs(t.lower(t.trim(typed)), t.lower(t.path(call.url))))
  }

  /** Each row is hidden exactly as the filter asks for, as it stands. */
  ghost predicate FilterHolds(cfg: Config, p: Pane) {
    forall i :: 0 <= i < |p.rows| ==>
      (p.rows[i].hidden <==> IsHidden(cfg.text, p.status, p.typed, p.rows[i].shown))
  }

  lemma PassingIsNotHidden(t: Text, status: Choice, typed: string, call: Call)
    ensures Passes(t, status, typed, call) <==> !IsHidden(t, status, typed, call)
  {
    ContainsIsOccurs(t.lower(t.path(call.url)), t.lower(t.trim(typed)));
  }

  ghost predicate Coherent(cfg: Config, p: Pane) {
    && Aligned(p)
    && FilterHolds(cfg, p)
    && |p.order| <= cfg.cap
    && p.badge == |p.order|
  }

  lemma FilteringKeepsAlignment(cfg: Config, p: Pane)
    requires Aligned(p)
    ensures Aligned(ApplyNetFilter(cfg, p)) && FilterHolds(cfg, ApplyNetFilter(cfg, p))
  {
    var q := ApplyNetFilter(cfg, p);
    forall i | 0 <= i < |q.rows|
      ensures RowAligned(q, i)
    {
      assert RowAligned(p, i);
    }
    forall i | 0 <= i < |q.rows|
      ensures q.rows[i].hidden <==> IsHidden(cfg.text, q.status, q.typed, q.rows[i].shown)
    {
      PassingIsNotHidden(cfg.text, p.status, p.typed, p.rows[i].shown);
    }
  }

  lemma DroppingOldestKeepsAlignment(p: Pane)
    requires Aligned(p) && p.order != []
    ensures Aligned(DropOldest(p)) && DropOldest(p).order == p.order[1..]
    ensures forall id :: id in DropOldest(p).calls ==> id in p.calls && DropOldest(p).calls[id] == p.calls[id]
  {
    var q := DropOldest(p);
    assert RowAligned(p, 0);
    assert q.rows == p.rows[1..];
    forall i | 0 <= i < |q.rows|
      ensures RowAligned(q, i)
    {
      assert RowAligned(p, i + 1);
    }
    forall id
      ensures id in q.calls <==> id in q.order
    {
      if id in p.order {
        var k :| 0 <= k < |p.order| && p.order[k] == id;
        if k > 0 {
          assert q.order[k - 1] == id;
        }
      }
    }
  }

  /** The pane as it was before its last call was opened. */
  ghost function ButLast(p: Pane): Pane
    requires p.order != []
  {
    var n := |p.order| - 1;
    p.(order := p.order[..n], calls := p.calls - {p.order[n]})
  }

  /** What opening a call leaves: everything aligned but the row it does not have yet. */
  ghost predicate AlignedButLast(p: Pane) {
    && p.order != []
    && var last := p.order[|p.order| - 1];
    && last in p.calls && p.calls[last].id == last && p.selected != Some(last)
    && last !in p.order[..|p.order| - 1]
    && Aligned(ButLast(p))
  }

  lemma DroppingCommutes(p: Pane)
    requires |p.order| > 1 && p.order[0] != p.order[|p.order| - 1]
    ensures ButLast(DropOldest(p)) == DropOldest(ButLast(p))
  {
    var n := |p.order| - 1;
    assert p.order[1..][..n - 1] == p.order[..n][1..];
    assert (p.calls - {p.order[0]}) - {p.order[n]} == (p.calls - {p.order[n]}) - {p.order[0]};
  }

  lemma DroppingOldestKeepsLast(p: Pane)
    requires AlignedButLast(p) && |p.order| > 1
    ensures AlignedButLast(DropOldest(p)) && DropOldest(p).order == p.order[1..]
    ensures forall id :: id in DropOldest(p).calls ==> id in p.calls && DropOldest(p).calls[id] == p.calls[id]
    ensures p.order[|p.order| - 1] in DropOldest(p).calls
    ensures DropOldest(p).status == p.status && DropOldest(p).typed == p.typed
  {
    var n := |p.order| - 1;
    assert p.order[0] in p.order[..n];
    DroppingCommutes(p);
    DroppingOldestKeepsAlignment(ButLast(p));
    assert p.order[1..][..n - 1] == p.order[..n][1..];
  }

  lemma {:induction false} EvictingKeepsLast(cfg: Config, p: Pane)
    requires AlignedButLast(p)
    ensures var q := Evict(cfg, p);
            && AlignedButLast(q)
            && q.order == Last(cfg.cap, p.order)
            && (forall id :: id in q.calls ==> id in p.calls && q.calls[id] == p.calls[id])
            && p.order[|p.order| - 1] in q.calls
            && q.status == p.status && q.typed == p.typed
    decreases |p.order|
  {
    if |p.order| > cfg.cap {
      DroppingOldestKeepsLast(p);
      EvictingKeepsLast(cfg, DropOldest(p));
    }
  }

  lemma NoRowYet(p: Pane)
    requires AlignedButLast(p)
    ensures !HasRow(p.rows, p.order[|p.order| - 1])
  {
    forall i | 0 <= i < |p.rows|
      ensures p.rows[i].id != p.order[|p.order| - 1]
    {
      assert RowAligned(ButLast(p), i);
    }
  }

  lemma RenderingNewCall(cfg: Config, p: Pane, call: Call)
    requires AlignedButLast(p) && call.id == p.order[|p.order| - 1]
    ensures var q := Render(cfg, p.(calls := p.calls[call.id := call]), call);
            && Aligned(q) && FilterHolds(cfg, q) && q.order == p.order
            && q.calls == p.calls[call.id := call]
  {
    var n := |p.order| - 1;
    var settled := ButLast(p);
    NoRowYet(p);
    var q := p.(calls := p.calls[call.id := call], rows := p.rows + [Row(call.id, call, false, false)]);
    forall i | 0 <= i < |q.rows|
      ensures RowAligned(q, i)
    {
      if i < n {
        assert RowAligned(settled, i);
        assert settled.order[i] == p.order[i];
      }
    }
    forall id
      ensures id in q.calls <==> id in q.order
    {
      assert id in settled.calls <==> id in settled.order;
      assert p.order == settled.order + [call.id];
    }
    forall id | id in q.calls
      ensures q.calls[id].id == id
    {
      assert id != call.id ==> id in settled.calls;
    }
    assert Aligned(q);
    FilteringKeepsAlignment(cfg, q);
  }

  lemma RenderingKnownCall(cfg: Config, p: Pane, call: Call)
    requires Aligned(p) && call.id in p.calls
    ensures var q := Render(cfg, p.(calls := p.calls[call.id := call]), call);
            && Aligned(q) && FilterHolds(cfg, q) && q.order == p.order
            && q.calls == p.calls[call.id := call]
  {
    var k :| 0 <= k < |p.order| && p.order[k] == call.id;
    assert RowAligned(p, k);
    assert HasRow(p.rows, call.id);
    var rows := Reshow(p.rows, call);
    var q := p.(calls := p.calls[call.id := call], rows := rows);
    var r := if p.selected == Some(call.id) then q.(rows := Mark(rows, call.id, true), detail := Some(call)) else q;
    forall i | 0 <= i < |r.rows|
      ensures RowAligned(r, i)
    {
      assert RowAligned(p, i);
    }
    FilteringKeepsAlignment(cfg, r);
  }

  lemma SizesAgree(p: Pane)
    requires Aligned(p)
    ensures |p.calls| == |p.order|
  {
    DistinctCount(p.order);
    assert p.calls.Keys == (set id | id in p.order);
  }

  lemma {:induction false} DistinctCount(s: seq<RequestId>)
    requires Distinct(s)
    ensures |set x | x in s| == |s|
  {
    if s != [] {
      var n := |s| - 1;
      DistinctCount(s[..n]);
      assert (set x | x in s) == (set x | x in s[..n]) + {s[n]};
    }
  }

  /** Opening a call, in both cases. */
  lemma OpeningACall(cfg: Config, p: Pane, ev: LiveEvent)
    requires Coherent(cfg, p) && ev.log.requestId != NO_ID && ev.log.requestId !in p.calls
    ensures var id := ev.log.requestId; var q := Open(cfg, p, ev);
            && AlignedButLast(q)
            && q.order == Last(cfg.cap, p.order + [id])
            && id in q.calls && q.calls[id] == NewCall(id, Stamp(ev))
            && (forall other :: other in q.calls && other != id ==>
                  other in p.calls && q.calls[other] == p.calls[other])
            && q.status == p.status && q.typed == p.typed
  {
    var id := ev.log.requestId;
    var grown := p.(calls := p.calls[id := NewCall(id, Stamp(ev))], order := p.order + [id]);
    assert grown.order[..|p.order|] == p.order;
    assert grown.calls - {id} == p.calls;
    assert ButLast(grown) == p;
    EvictingKeepsLast(cfg, grown);
  }

  lemma IngestingKnown(cfg: Config, p: Pane, ev: LiveEvent)
    requires Coherent(cfg, p) && ev.log.requestId != NO_ID && ev.log.requestId in p.calls
    ensures var id := ev.log.requestId; var q := Ingest(cfg, p, ev);
            && Coherent(cfg, q)
            && q.order == p.order
            && q.calls == p.calls[id := Absorb(cfg.text, p.calls[id], ev)]
  {
    var id := ev.log.requestId;
    var call := Absorb(cfg.text, p.calls[id], ev);
    RenderingKnownCall(cfg, p, call);
    var r := Render(cfg, p.(calls := p.calls[id := call]), call);
    SizesAgree(r);
    BadgeIsSeparate(cfg, r, |r.calls|);
  }

  lemma IngestingNew(cfg: Config, p: Pane, ev: LiveEvent)
    requires Coherent(cfg, p) && ev.log.requestId != NO_ID && ev.log.requestId !in p.calls
    ensures var id := ev.log.requestId; var q := Ingest(cfg, p, ev);
            && Coherent(cfg, q)
            && q.order == Last(cfg.cap, p.order + [id])
            && id in q.calls && q.calls[id] == Absorb(cfg.text, NewCall(id, Stamp(ev)), ev)
            && forall other :: other in q.calls && other != id ==> other in p.calls && q.calls[other] == p.calls[other]
  {
    var id := ev.log.requestId;
    var q := Open(cfg, p, ev);
    OpeningACall(cfg, p, ev);
    var call := Absorb(cfg.text, q.calls[id], ev);
    RenderingNewCall(cfg, q, call);
    var r := Render(cfg, q.(calls := q.calls[id := call]), call);
    SizesAgree(r);
    BadgeIsSeparate(cfg, r, |r.calls|);
  }

  lemma BadgeIsSeparate(cfg: Config, p: Pane, n: nat)
    requires Aligned(p) && FilterHolds(cfg, p)
    ensures Aligned(p.(badge := n)) && FilterHolds(cfg, p.(badge := n))
  {
    forall i | 0 <= i < |p.rows|
      ensures RowAligned(p.(badge := n), i)
    {
      assert RowAligned(p, i);
    }
  }

  lemma FilterIsSeparate(p: Pane, status: Choice, typed: string)
    requires Aligned(p)
    ensures Aligned(p.(status := status, typed := typed))
  {
    forall i | 0 <= i < |p.rows|
      ensures RowAligned(p.(status := status, typed := typed), i)
    {
      assert RowAligned(p, i);
    }
  }

  lemma SelectKeepsAlignment(p: Pane, id: RequestId)
    requires Aligned(p)
    ensures Aligned(Select(p, id))
  {
    var q := Select(p, id);
    if id in p.calls {
      forall i | 0 <= i < |q.rows|
        ensures RowAligned(q, i)
      {
        assert RowAligned(p, i);
      }
    }
  }

  lemma SelectKeepsCoherence(cfg: Config, p: Pane, id: RequestId)
    requires Coherent(cfg, p)
    ensures Coherent(cfg, Select(p, id))
  {
    SelectKeepsAlignment(p, id);
  }

  /** Index agreement over every run: map, queue and table hold the same calls under
      distinct ids, rows in queue order and never stale; never more than `cap`; the
      selection is empty or live and the detail pane shows it as it is now; every row is
      hidden exactly when the filter says so; the badge is the number of calls. */
  lemma {:induction false} AlwaysCoherent(cfg: Config, run: seq<Input>)
    ensures Coherent(cfg, After(cfg, run))
  {
    if run != [] {
      var p := After(cfg, run[..|run| - 1]);
      AlwaysCoherent(cfg, run[..|run| - 1]);
      match run[|run| - 1] {
        case Net(ev) =>
          if ev.log.requestId in p.calls && ev.log.requestId != NO_ID {
            IngestingKnown(cfg, p, ev);
          } else if ev.log.requestId != NO_ID {
            IngestingNew(cfg, p, ev);
          }
        case Click(id) => SelectKeepsCoherence(cfg, p, id);
        case PickStatus(s) =>
          FilterIsSeparate(p, s, p.typed);
          FilteringKeepsAlignment(cfg, p.(status := s));
        case Type(text) =>
          FilterIsSeparate(p, p.status, text);
          FilteringKeepsAlignment(cfg, p.(typed := text));
      }
    }
  }

  /** With the cap the page uses. */
  lemma NeverMoreThanTheCap(text: Text, run: seq<Input>)
    ensures var p := After(Config(MAX_CALLS, text), run); |p.calls| == |p.order| == |p.rows| <= 500
  {
    var cfg := Config(MAX_CALLS, text);
    AlwaysCoherent(cfg, run);
    SizesAgree(After(cfg, run));
  }

  // ----- what was picked, typed and clicked -------------------------------------------

  function LastPicked(run: seq<Input>): Choice {
    if run == [] then All
    else if run[|run| - 1].PickStatus? then run[|run| - 1].status
    else LastPicked(run[..|run| - 1])
  }

  function LastTyped(run: seq<Input>): string {
    if run == [] then ""
    else if run[|run| - 1].Type? then run[|run| - 1].typed
    else LastTyped(run[..|run| - 1])
  }

  lemma {:induction false} EvictingKeepsTheFilter(cfg: Config, p: Pane)
    ensures Evict(cfg, p).status == p.status && Evict(cfg, p).typed == p.typed
    decreases |p.order|
  {
    if |p.order| > cfg.cap {
      EvictingKeepsTheFilter(cfg, DropOldest(p));
    }
  }

  lemma EventsKeepTheFilter(cfg: Config, p: Pane, ev: LiveEvent)
    ensures Ingest(cfg, p, ev).status == p.status && Ingest(cfg, p, ev).typed == p.typed
  {
    var id := ev.log.requestId;
    EvictingKeepsTheFilter(cfg, p.(calls := p.calls[id := NewCall(id, Stamp(ev))], order := p.order + [id]));
  }

  lemma {:induction false} FilterIsTheLastAskedFor(cfg: Config, run: seq<Input>)
    ensures After(cfg, run).status == LastPicked(run) && After(cfg, run).typed == LastTyped(run)
  {
    if run != [] {
      FilterIsTheLastAskedFor(cfg, run[..|run| - 1]);
      if run[|run| - 1].Net? {
        EventsKeepTheFilter(cfg, After(cfg, run[..|run| - 1]), run[|run| - 1].ev);
      }
    }
  }

  /** The filter over every run: the row of a call is hidden exactly when the last status
      picked is that of other calls, or the last text typed, trimmed and in lower case, is
      not empty and does not occur in the path of the call in lower case. */
  lemma RowsAreHiddenAsAskedFor(cfg: Config, run: seq<Input>, i: nat)
    requires i < |After(cfg, run).rows|
    ensures var p, t := After(cfg, run), cfg.text;
            var row, picked, needle := p.rows[i], LastPicked(run), t.lower(t.trim(LastTyped(run)));
            && row.id in p.calls && row.shown == p.calls[row.id]
            && (row.hidden <==>
                  || (picked.Only? && StateOf(p.calls[row.id]) != picked.state)
                  || (needle != "" && !Occurs(needle, t.lower(t.path(p.calls[row.id].url)))))
  {
    AlwaysCoherent(cfg, run);
    FilterIsTheLastAskedFor(cfg, run);
    assert RowAligned(After(cfg, run), i);
  }

  /** The call clicked last, as long as the table holds it. */
  function Clicked(cfg: Config, run: seq<Input>): Option<RequestId> {
    if run == [] then None
    else
      var before, input := run[..|run| - 1], run[|run| - 1];
      if input.Click? && input.id in After(cfg, before).calls then Some(input.id)
      else
        var earlier := Clicked(cfg, before);
        if earlier.Some? && earlier.value in After(cfg, run).calls then earlier else None
  }

  lemma DroppingDropsTheSelection(p: Pane)
    requires Distinct(p.order) && p.order != [] && (p.selected.Some? ==> p.selected.value in p.calls)
    ensures var q := DropOldest(p);
            q.selected == if p.selected.Some? && p.selected.value in q.calls then p.selected else None
  {}

  lemma {:induction false} EvictingDropsTheSelection(cfg: Config, p: Pane)
    requires Distinct(p.order) && (p.selected.Some? ==> p.selected.value in p.calls)
    ensures var q := Evict(cfg, p);
            && q.selected == (if p.selected.Some? && p.selected.value in q.calls then p.selected else None)
            && q.calls.Keys <= p.calls.Keys
    decreases |p.order|
  {
    if |p.order| > cfg.cap {
      DroppingDropsTheSelection(p);
      EvictingDropsTheSelection(cfg, DropOldest(p));
    }
  }

  lemma EventsDropTheSelection(cfg: Config, p: Pane, ev: LiveEvent)
    requires Coherent(cfg, p)
    ensures var q := Ingest(cfg, p, ev);
            q.selected == if p.selected.Some? && p.selected.value in q.calls then p.selected else None
  {
    var id := ev.log.requestId;
    if id != NO_ID && id !in p.calls {
      var grown := p.(calls := p.calls[id := NewCall(id, Stamp(ev))], order := p.order + [id]);
      EvictingDropsTheSelection(cfg, grown);
    }
  }

  /** Over every run the selection is the call clicked last, until that is evicted. */
  lemma {:induction false} SelectionIsTheLastClicked(cfg: Config, run: seq<Input>)
    ensures After(cfg, run).selected == Clicked(cfg, run)
  {
    if run != [] {
      var before, input := run[..|run| - 1], run[|run| - 1];
      SelectionIsTheLastClicked(cfg, before);
      AlwaysCoherent(cfg, before);
      if input.Net? {
        EventsDropTheSelection(cfg, After(cfg, before), input.ev);
      }
    }
  }

  // ----- what the events decide -------------------------------------------------------

  /** The events among the inputs. */
  function NetEvents(run: seq<Input>): seq<LiveEvent> {
    if run == [] then []
    else
      NetEvents(run[..|run| - 1]) + if run[|run| - 1].Net? then [run[|run| - 1].ev] else []
  }

  function Nets(evs: seq<LiveEvent>): seq<Input> {
    seq(|evs|, i requires 0 <= i < |evs| => Net(evs[i]))
  }

  ghost predicate SameCalls(p: Pane, q: Pane) {
    p.calls == q.calls && p.order == q.order
  }

  lemma {:induction false} EvictingTheSame(cfg: Config, p: Pane, q: Pane)
    requires SameCalls(p, q)
    ensures SameCalls(Evict(cfg, p), Evict(cfg, q))
    decreases |p.order|
  {
    if |p.order| > cfg.cap {
      EvictingTheSame(cfg, DropOldest(p), DropOldest(q));
    }
  }

  lemma OpeningTheSame(cfg: Config, p: Pane, q: Pane, ev: LiveEvent)
    requires SameCalls(p, q)
    ensures SameCalls(Open(cfg, p, ev), Open(cfg, q, ev))
  {
    var id := ev.log.requestId;
    var created := NewCall(id, Stamp(ev));
    if id !in p.calls {
      EvictingTheSame(cfg, p.(calls := p.calls[id := created], order := p.order + [id]),
                      q.(calls := q.calls[id := created], order := q.order + [id]));
    }
  }

  lemma IngestingTheSame(cfg: Config, p: Pane, q: Pane, ev: LiveEvent)
    requires SameCalls(p, q)
    ensures SameCalls(Ingest(cfg, p, ev), Ingest(cfg, q, ev))
  {
    OpeningTheSame(cfg, p, q, ev);
  }

  lemma OthersLeaveTheCalls(cfg: Config, p: Pane, input: Input)
    requires !input.Net?
    ensures SameCalls(Step(cfg, p, input), p)
  {}

  lemma NetsGrow(evs: seq<LiveEvent>, ev: LiveEvent)
    ensures Nets(evs + [ev]) == Nets(evs) + [Net(ev)]
  {}

  /** Which calls are held, in which order, and what they contain is decided by the events
      alone: clicks, status buttons and typing never touch them. */
  lemma {:induction false} CallsFollowTheEvents(cfg: Config, run: seq<Input>)
    ensures SameCalls(After(cfg, run), After(cfg, Nets(NetEvents(run))))
  {
    if run != [] {
      var before, input := run[..|run| - 1], run[|run| - 1];
      CallsFollowTheEvents(cfg, before);
      if input.Net? {
        NetsGrow(NetEvents(before), input.ev);
        AfterOneMore(cfg, Nets(NetEvents(before)), input);
        IngestingTheSame(cfg, After(cfg, before), After(cfg, Nets(NetEvents(before))), input.ev);
      } else {
        OthersLeaveTheCalls(cfg, After(cfg, before), input);
        assert NetEvents(before) + [] == NetEvents(before);
      }
    }
  }

  // ----- which calls are kept ---------------------------------------------------------

  /** A call coming into being: its id, and which input of the run brought it. */
  datatype Birth = Birth(id: RequestId, at: nat)

  function Ids(births: seq<Birth>): (r: seq<RequestId>)
    ensures |r| == |births|
    ensures forall i :: 0 <= i < |r| ==> r[i] == births[i].id
  {
    seq(|births|, i requires 0 <= i < |births| => births[i].id)
  }

  /** Every creation of a run, oldest first: an event with an id that none of the last
      `cap` creations has. */
  function Births(cap: Positive, run: seq<Input>): seq<Birth> {
    if run == [] then []
    else
      var before := Births(cap, run[..|run| - 1]);
      var last := run[|run| - 1];
      if last.Net? && last.ev.log.requestId != NO_ID && last.ev.log.requestId !in Ids(Last(cap, before))
      then before + [Birth(last.ev.log.requestId, |run| - 1)]
      else before
  }

  /** The events of one id, in order. */
  function EventsOf(id: RequestId, run: seq<Input>): seq<LiveEvent> {
    if run == [] then []
    else
      var last := run[|run| - 1];
      EventsOf(id, run[..|run| - 1]) +
        if last.Net? && last.ev.log.requestId == id then [last.ev] else []
  }

  /** A call as told by its own events alone. */
  function Story(t: Text, id: RequestId, evs: seq<LiveEvent>): Call {
    if evs == [] then NewCall(id, "")
    else if |evs| == 1 then Absorb(t, NewCall(id, Stamp(evs[0])), evs[0])
    else Absorb(t, Story(t, id, evs[..|evs| - 1]), evs[|evs| - 1])
  }

  ghost predicate Told(cfg: Config, run: seq<Input>, p: Pane, b: Birth) {
    && b.at < |run|
    && b.id in p.calls
    && EventsOf(b.id, run[b.at..]) != []
    && p.calls[b.id] == Story(cfg.text, b.id, EventsOf(b.id, run[b.at..]))
  }

  ghost predicate Kept(cfg: Config, run: seq<Input>, p: Pane) {
    var live := Last(cfg.cap, Births(cfg.cap, run));
    && p.order == Ids(live)
    && forall b :: b in live ==> Told(cfg, run, p, b)
  }

  lemma EventsOfGrow(id: RequestId, run: seq<Input>, input: Input, from: nat)
    requires from <= |run|
    ensures EventsOf(id, (run + [input])[from..]) ==
            EventsOf(id, run[from..]) +
              if input.Net? && input.ev.log.requestId == id then [input.ev] else []
  {
    var tail := (run + [input])[from..];
    assert tail[..|tail| - 1] == run[from..];
  }

  /** One more input leaves the story of a call alone, or adds its event to it. */
  lemma TellingOn(cfg: Config, run: seq<Input>, p: Pane, q: Pane, input: Input, b: Birth)
    requires Told(cfg, run, p, b)
    requires b.id in q.calls
    requires q.calls[b.id] == if input.Net? && input.ev.log.requestId == b.id
                              then Absorb(cfg.text, p.calls[b.id], input.ev) else p.calls[b.id]
    ensures Told(cfg, run + [input], q, b)
  {
    EventsOfGrow(b.id, run, input, b.at);
    var evs := EventsOf(b.id, run[b.at..]);
    if input.Net? && input.ev.log.requestId == b.id {
    } else {
      assert evs + [] == evs;
    }
  }

  /** What an input that creates nothing does to the calls. */
  ghost predicate OnlyAbsorbs(t: Text, p: Pane, q: Pane, input: Input) {
    && q.order == p.order
    && forall id :: id in p.calls ==>
         id in q.calls && q.calls[id] == if input.Net? && input.ev.log.requestId == id
                                         then Absorb(t, p.calls[id], input.ev) else p.calls[id]
  }

  lemma StepOnlyAbsorbs(cfg: Config, p: Pane, input: Input)
    requires Coherent(cfg, p) && NO_ID !in p.calls
    requires input.Net? && input.ev.log.requestId != NO_ID ==> input.ev.log.requestId in p.calls
    ensures OnlyAbsorbs(cfg.text, p, Step(cfg, p, input), input)
  {
    if input.Net? && input.ev.log.requestId != NO_ID {
      IngestingKnown(cfg, p, input.ev);
    }
  }

  lemma KeepingOn(cfg: Config, run: seq<Input>, p: Pane, q: Pane, input: Input)
    requires Kept(cfg, run, p) && OnlyAbsorbs(cfg.text, p, q, input)
    requires Births(cfg.cap, run + [input]) == Births(cfg.cap, run)
    ensures Kept(cfg, run + [input], q)
  {
    var live := Last(cfg.cap, Births(cfg.cap, run));
    forall b | b in live
      ensures Told(cfg, run + [input], q, b)
    {
      TellingOn(cfg, run, p, q, input, b);
    }
  }

  /** What an event with a new id does to the calls. */
  ghost predicate Creates(cfg: Config, p: Pane, q: Pane, ev: LiveEvent) {
    var id := ev.log.requestId;
    && id !in p.calls
    && q.order == Last(cfg.cap, p.order + [id])
    && (forall other :: other in q.order ==> other in q.calls)
    && id in q.calls && q.calls[id] == Absorb(cfg.text, NewCall(id, Stamp(ev)), ev)
    && forall other :: other in q.calls && other != id ==> other in p.calls && q.calls[other] == p.calls[other]
  }

  lemma LastIds(cap: Positive, births: seq<Birth>, b: Birth)
    ensures Ids(Last(cap, births + [b])) == Last(cap, Ids(Last(cap, births)) + [b.id])
  {
    LastAfterOne(cap, births, b);
    var live := Last(cap, births);
    assert Ids(live + [b]) == Ids(live) + [b.id];
    if |live| + 1 > cap {
      assert Last(cap, live + [b]) == (live + [b])[1..];
      assert Ids((live + [b])[1..]) == (Ids(live) + [b.id])[1..];
    }
  }

  lemma TellingAfterBirth(cfg: Config, run: seq<Input>, p: Pane, q: Pane, ev: LiveEvent, b: Birth)
    requires Creates(cfg, p, q, ev) && Told(cfg, run, p, b) && b.id in q.calls
    ensures Told(cfg, run + [Net(ev)], q, b)
  {
    TellingOn(cfg, run, p, q, Net(ev), b);
  }

  lemma TellingOneOf(cfg: Config, run: seq<Input>, p: Pane, q: Pane, ev: LiveEvent, now: seq<Birth>, b: Birth)
    requires Creates(cfg, p, q, ev) && q.order == Ids(now) && b in now
    requires b == Birth(ev.log.requestId, |run|) || Told(cfg, run, p, b)
    ensures Told(cfg, run + [Net(ev)], q, b)
  {
    if b == Birth(ev.log.requestId, |run|) {
    } else {
      var i :| 0 <= i < |now| && now[i] == b;
      assert q.order[i] == b.id;
      TellingAfterBirth(cfg, run, p, q, ev, b);
    }
  }

  lemma KeepingNew(cfg: Config, run: seq<Input>, p: Pane, q: Pane, ev: LiveEvent)
    requires Kept(cfg, run, p) && Creates(cfg, p, q, ev)
    requires Births(cfg.cap, run + [Net(ev)]) == Births(cfg.cap, run) + [Birth(ev.log.requestId, |run|)]
    ensures Kept(cfg, run + [Net(ev)], q)
  {
    var births := Births(cfg.cap, run);
    var born := Birth(ev.log.requestId, |run|);
    var now := Last(cfg.cap, births + [born]);
    LastIds(cfg.cap, births, born);
    LastAfterOne(cfg.cap, births, born);
    forall b | b in now
      ensures Told(cfg, run + [Net(ev)], q, b)
    {
      TellingOneOf(cfg, run, p, q, ev, now, b);
    }
  }

  lemma LastAfterOne<T>(n: Positive, s: seq<T>, x: T)
    ensures Last(n, s + [x]) == Last(n, Last(n, s) + [x])
    ensures forall y :: y in Last(n, s + [x]) ==> y == x || y in Last(n, s)
  {
    if |s| > n {
      assert Last(n, s) + [x] == (s + [x])[|s| - n..];
    }
  }

  lemma IngestCreates(cfg: Config, p: Pane, ev: LiveEvent)
    requires Coherent(cfg, p) && ev.log.requestId != NO_ID && ev.log.requestId !in p.calls
    ensures Creates(cfg, p, Step(cfg, p, Net(ev)), ev)
  {
    IngestingNew(cfg, p, ev);
  }

  lemma {:induction false} NoCallWithoutId(cfg: Config, run: seq<Input>)
    requires Kept(cfg, run, After(cfg, run)) && Coherent(cfg, After(cfg, run))
    ensures NO_ID !in After(cfg, run).calls
  {
    var p := After(cfg, run);
    BirthsHaveIds(cfg.cap, run);
    var live := Last(cfg.cap, Births(cfg.cap, run));
    forall k | 0 <= k < |p.order|
      ensures p.order[k] != NO_ID
    {
      assert live[k] in Births(cfg.cap, run);
    }
  }

  lemma {:induction false} BirthsHaveIds(cap: Positive, run: seq<Input>)
    ensures forall b :: b in Births(cap, run) ==> b.id != NO_ID
  {
    if run != [] {
      BirthsHaveIds(cap, run[..|run| - 1]);
    }
  }

  lemma KeptStep(cfg: Config, run: seq<Input>, input: Input)
    requires Kept(cfg, run, After(cfg, run))
    ensures Kept(cfg, run + [input], Step(cfg, After(cfg, run), input))
  {
    var p := After(cfg, run);
    AlwaysCoherent(cfg, run);
    NoCallWithoutId(cfg, run);
    if input.Net? && input.ev.log.requestId != NO_ID && input.ev.log.requestId !in p.calls {
      IngestCreates(cfg, p, input.ev);
      KeepingNew(cfg, run, p, Step(cfg, p, input), input.ev);
    } else {
      StepOnlyAbsorbs(cfg, p, input);
      KeepingOn(cfg, run, p, Step(cfg, p, input), input);
    }
  }

  /** Per-call refinement, over every run: the calls kept are the last `cap` creations,
      oldest first, so a call just created is never the one evicted; and each is exactly
      what its own events since its creation make it, whatever was interleaved. */
  lemma {:induction false} EachCallIsItsOwnStory(cfg: Config, run: seq<Input>)
    ensures Kept(cfg, run, After(cfg, run))
  {
    if run != [] {
      var before, input := run[..|run| - 1], run[|run| - 1];
      EachCallIsItsOwnStory(cfg, before);
      assert before + [input] == run;
      KeptStep(cfg, before, input);
    }
  }

  /** The page holds the last 500 calls that were created, no fewer. */
  lemma PageHoldsTheLast500(text: Text, run: seq<Input>)
    ensures var births := Births(500, run);
            After(Config(MAX_CALLS, text), run).order
            == Ids(if |births| <= 500 then births else births[|births| - 500..])
  {
    EachCallIsItsOwnStory(Config(MAX_CALLS, text), run);
  }

  // ----- what a story says -------------------------------------------------------------

  predicate InPhase(ev: LiveEvent, phase: CallPhase) {
    ev.log.callPhase == phase
  }

  /** The last event of a phase. */
  function Latest(evs: seq<LiveEvent>, phase: CallPhase): Option<LiveEvent> {
    if evs == [] then None
    else if InPhase(evs[|evs| - 1], phase) then Some(evs[|evs| - 1])
    else Latest(evs[..|evs| - 1], phase)
  }

  /** The last event that ends a call, by a response or an error. */
  function LatestEnd(evs: seq<LiveEvent>): Option<LiveEvent> {
    if evs == [] then None
    else if InPhase(evs[|evs| - 1], Response) || InPhase(evs[|evs| - 1], Error) then Some(evs[|evs| - 1])
    else LatestEnd(evs[..|evs| - 1])
  }

  function LatestVerb(evs: seq<LiveEvent>): string {
    if evs == [] then ""
    else if evs[|evs| - 1].log.verb != "" then evs[|evs| - 1].log.verb
    else LatestVerb(evs[..|evs| - 1])
  }

  function LatestUrl(evs: seq<LiveEvent>): string {
    if evs == [] then ""
    else if evs[|evs| - 1].log.url != "" then evs[|evs| - 1].log.url
    else LatestUrl(evs[..|evs| - 1])
  }

  function LogOf(ev: Option<LiveEvent>): Option<Log> {
    if ev.Some? then Some(ev.value.log) else None
  }

  /** The call field by field, with no folding: the fast incremental form agrees. */
  function Summary(t: Text, id: RequestId, evs: seq<LiveEvent>): Call
    requires evs != []
  {
    var req, res, end := Latest(evs, Request), Latest(evs, Response), LatestEnd(evs);
    Call(id, LatestVerb(evs), LatestUrl(evs),
         if res.Some? then res.value.log.statusCode else 0,
         LogOf(req), LogOf(res), LogOf(Latest(evs, Error)),
         if req.Some? then t.parseDate(Stamp(req.value)) else None,
         if end.Some? then t.parseDate(Stamp(end.value)) else None,
         if req.Some? then Stamp(req.value) else Stamp(evs[0]))
  }

  lemma LatestGrows(evs: seq<LiveEvent>, ev: LiveEvent, phase: CallPhase)
    ensures Latest(evs + [ev], phase) == if InPhase(ev, phase) then Some(ev) else Latest(evs, phase)
    ensures LatestEnd(evs + [ev]) ==
            if InPhase(ev, Response) || InPhase(ev, Error) then Some(ev) else LatestEnd(evs)
    ensures LatestVerb(evs + [ev]) == if ev.log.verb != "" then ev.log.verb else LatestVerb(evs)
    ensures LatestUrl(evs + [ev]) == if ev.log.url != "" then ev.log.url else LatestUrl(evs)
  {
    assert (evs + [ev])[..|evs|] == evs;
  }

  lemma SummaryOfOne(t: Text, id: RequestId, ev: LiveEvent)
    ensures Summary(t, id, [ev]) == Absorb(t, NewCall(id, Stamp(ev)), ev)
  {
    assert [] + [ev] == [ev];
    LatestGrows([], ev, Request);
    LatestGrows([], ev, Response);
    LatestGrows([], ev, Error);
  }

  lemma SummaryGrows(t: Text, id: RequestId, evs: seq<LiveEvent>, ev: LiveEvent)
    requires evs != []
    ensures Summary(t, id, evs + [ev]) == Absorb(t, Summary(t, id, evs), ev)
  {
    LatestGrows(evs, ev, Request);
    LatestGrows(evs, ev, Response);
    LatestGrows(evs, ev, Error);
  }

  lemma {:induction false} StoryIsItsSummary(t: Text, id: RequestId, evs: seq<LiveEvent>)
    requires evs != []
    ensures Story(t, id, evs) == Summary(t, id, evs)
  {
    var n := |evs| - 1;
    assert evs == evs[..n] + [evs[n]];
    if n == 0 {
      SummaryOfOne(t, id, evs[0]);
    } else {
      StoryIsItsSummary(t, id, evs[..n]);
      SummaryGrows(t, id, evs[..n], evs[n]);
    }
  }

  /** A call is in the error state exactly when an error phase has arrived since it was
      created, so it stays there as long as it is kept; otherwise its last response decides. */
  lemma StateOfAStory(t: Text, id: RequestId, evs: seq<LiveEvent>)
    requires evs != []
    ensures var state := StateOf(Story(t, id, evs)); var res := Latest(evs, Response);
            && (state == Err <==> exists i :: 0 <= i < |evs| && InPhase(evs[i], Error))
            && (state != Err ==>
                  state == if res.None? then Pending
                           else if res.value.log.statusCode >= 400 then Bad else Ok)
  {
    StoryIsItsSummary(t, id, evs);
  }

  /** When a call was sent and done, and when it is said to have started: by the time stamp
      of its last request, its last response or error, and its first event if it has no
      request, or by the time of arrival where there is no stamp. */
  lemma TimesOfAStory(t: Text, id: RequestId, evs: seq<LiveEvent>)
    requires evs != []
    ensures var call, req, end := Story(t, id, evs), Latest(evs, Request), LatestEnd(evs);
            var first := if req.Some? then req.value else evs[0];
            && call.startedAt == (if first.log.timestamp == "" then first.at else first.log.timestamp)
            && call.reqAt == (if req.None? then None else t.parseDate(call.startedAt))
            && call.doneAt ==
               (if end.None? then None
                else t.parseDate(if end.value.log.timestamp == "" then end.value.at else end.value.log.timestamp))
  {
    StoryIsItsSummary(t, id, evs);
  }

  predicate AgreeOn(a: string, b: string) {
    a == "" || b == "" || a == b
  }

  /** One request and one response make the same call in either order exactly when they
      do not contradict each other about the method and the URL. */
  lemma EitherOrderExactlyWhenTheyAgree(t: Text, id: RequestId, req: LiveEvent, res: LiveEvent)
    requires InPhase(req, Request) && InPhase(res, Response)
    ensures Story(t, id, [req, res]) == Story(t, id, [res, req])
            <==> AgreeOn(req.log.verb, res.log.verb) && AgreeOn(req.log.url, res.log.url)
  {
    assert [req, res][..1] == [req] && [res, req][..1] == [res];
  }
}
