/** The log list of the live page (liveStreamScript): capped, pausable, filterable. */
module LogPane {
  import opened Prelude
  import opened LiveEvents

  const MAX_ROWS: nat := 2000

  /** A child of the stream: a log row, or a marker for a hole in the timeline. Only
      rows carry data-row-level, so only rows are counted, filtered and cleared. */
  datatype Node =
    | Row(ev: LiveEvent, level: string, text: string, hidden: bool)
    | Gap(missed: nat)

  datatype Config = Config(cap: nat, text: Text)

  datatype Pane = Pane(
    paused: bool,
    queued: seq<LiveEvent>,
    nodes: seq<Node>,
    levels: set<string>,      // the pressed level buttons
    highlight: string,
    emptyNote: bool)

  datatype Input =
    | Logged(ev: LiveEvent)
    | TogglePause
    | Clear
    | ToggleLevel(level: string)
    | Highlight(typed: string)
    | Connected(missed: nat)

  // ----- handlers ---------------------------------------------------------------

  function LevelOf(t: Text, ev: LiveEvent): string {
    t.lower(if ev.log.level != "" then ev.log.level else "info")
  }

  function RowFor(t: Text, ev: LiveEvent, hidden: bool): Node {
    var level := LevelOf(t, ev);
    Row(ev, level, t.clock(ev.at) + level + ev.log.message, hidden)
  }

  function NewRow(t: Text, ev: LiveEvent): Node {
    RowFor(t, ev, false)
  }

  function CountRows(nodes: seq<Node>): (n: nat)
    ensures n <= |nodes|
  {
    if nodes == [] then 0 else (if nodes[0].Row? then 1 else 0) + CountRows(nodes[1..])
  }

  function DropFirstRow(nodes: seq<Node>): seq<Node> {
    if nodes == [] then []
    else if nodes[0].Row? then nodes[1..]
    else [nodes[0]] + DropFirstRow(nodes[1..])
  }

  function DropRows(nodes: seq<Node>, extra: int): seq<Node>
    decreases extra
  {
    if extra <= 0 then nodes else DropRows(DropFirstRow(nodes), extra - 1)
  }

  function AddRow(cfg: Config, p: Pane, ev: LiveEvent): Pane {
    var nodes := p.nodes + [NewRow(cfg.text, ev)];
    p.(nodes := DropRows(nodes, CountRows(nodes) - cfg.cap), emptyNote := false)
  }

  function AddAll(cfg: Config, p: Pane, evs: seq<LiveEvent>): Pane
    decreases |evs|
  {
    if evs == [] then p else AddAll(cfg, AddRow(cfg, p, evs[0]), evs[1..])
  }

  predicate Visible(t: Text, levels: set<string>, highlight: string, level: string, text: string) {
    var needle := t.lower(highlight);
    level in levels && (needle == "" || Contains(t.lower(text), needle))
  }

  function Filtered(t: Text, p: Pane, n: Node): Node {
    if n.Row? then n.(hidden := !Visible(t, p.levels, p.highlight, n.level, n.text)) else n
  }

  function ApplyFilter(cfg: Config, p: Pane): Pane {
    p.(nodes := seq(|p.nodes|, i requires 0 <= i < |p.nodes| => Filtered(cfg.text, p, p.nodes[i])))
  }

  function WithoutRows(nodes: seq<Node>): seq<Node> {
    if nodes == [] then []
    else if nodes[0].Row? then WithoutRows(nodes[1..])
    else [nodes[0]] + WithoutRows(nodes[1..])
  }

  function Step(cfg: Config, p: Pane, input: Input): Pane {
    match input
    case Logged(ev) =>
      if p.paused then p.(queued := p.queued + [ev]) else ApplyFilter(cfg, AddRow(cfg, p, ev))
    case TogglePause =>
      if p.paused then ApplyFilter(cfg, AddAll(cfg, p.(paused := false, queued := []), p.queued))
      else p.(paused := true)
    case Clear => p.(nodes := WithoutRows(p.nodes), emptyNote := true)
    case ToggleLevel(l) =>
      ApplyFilter(cfg, p.(levels := if l in p.levels then p.levels - {l} else p.levels + {l}))
    case Highlight(typed) => ApplyFilter(cfg, p.(highlight := typed))
    case Connected(missed) =>
      if missed > 0 then p.(nodes := p.nodes + [Gap(missed)], emptyNote := false) else p
  }

  function Start(levels: set<string>): Pane {
    Pane(false, [], [], levels, "", true)
  }

  function After(cfg: Config, levels: set<string>, run: seq<Input>): Pane {
    if run == [] then Start(levels)
    else Step(cfg, After(cfg, levels, run[..|run| - 1]), run[|run| - 1])
  }

  // ----- what a run says on its own ---------------------------------------------

  function Arrived(run: seq<Input>): seq<LiveEvent> {
    if run == [] then []
    else
      var last := run[|run| - 1];
      Arrived(run[..|run| - 1]) + if last.Logged? then [last.ev] else []
  }

  predicate Paused(run: seq<Input>) {
    if run == [] then false
    else if run[|run| - 1].TogglePause? then !Paused(run[..|run| - 1])
    else Paused(run[..|run| - 1])
  }

  /** What the reader has been shown: all that had arrived when the list last moved. */
  function Added(run: seq<Input>): seq<LiveEvent> {
    if run == [] then []
    else if !Paused(run) then Arrived(run)
    else Added(run[..|run| - 1])
  }

  /** How many events had been added when Clear was last pressed. */
  function ClearedAt(run: seq<Input>): nat {
    if run == [] then 0
    else if run[|run| - 1].Clear? then |Added(run)|
    else ClearedAt(run[..|run| - 1])
  }

  function Holes(run: seq<Input>): seq<nat> {
    if run == [] then []
    else
      var last := run[|run| - 1];
      Holes(run[..|run| - 1]) + if last.Connected? && last.missed > 0 then [last.missed] else []
  }

  function Events(nodes: seq<Node>): seq<LiveEvent> {
    if nodes == [] then []
    else (if nodes[0].Row? then [nodes[0].ev] else []) + Events(nodes[1..])
  }

  function Gaps(nodes: seq<Node>): seq<nat> {
    if nodes == [] then []
    else (if nodes[0].Gap? then [nodes[0].missed] else []) + Gaps(nodes[1..])
  }

  // ----- the list --------------------------------------------------------------

  lemma {:induction false} EventsAppend(left: seq<Node>, right: seq<Node>)
    ensures Events(left + right) == Events(left) + Events(right)
  {
    if left == [] {
      assert left + right == right;
    } else {
      assert (left + right)[1..] == left[1..] + right;
      EventsAppend(left[1..], right);
      Regroup(if left[0].Row? then [left[0].ev] else [], Events(left[1..]), Events(right));
    }
  }

  lemma {:induction false} GapsAppend(left: seq<Node>, right: seq<Node>)
    ensures Gaps(left + right) == Gaps(left) + Gaps(right)
  {
    if left == [] {
      assert left + right == right;
    } else {
      assert (left + right)[1..] == left[1..] + right;
      GapsAppend(left[1..], right);
      Regroup(if left[0].Gap? then [left[0].missed] else [], Gaps(left[1..]), Gaps(right));
    }
  }

  lemma {:induction false} CountIsEvents(nodes: seq<Node>)
    ensures CountRows(nodes) == |Events(nodes)|
  {
    if nodes != [] {
      CountIsEvents(nodes[1..]);
    }
  }

  lemma {:induction false} DropFirstRowDrops(nodes: seq<Node>)
    ensures Gaps(DropFirstRow(nodes)) == Gaps(nodes)
    ensures Events(DropFirstRow(nodes)) == if Events(nodes) == [] then [] else Events(nodes)[1..]
  {
    if nodes != [] {
      DropFirstRowDrops(nodes[1..]);
      if nodes[0].Gap? {
        assert DropFirstRow(nodes)[1..] == DropFirstRow(nodes[1..]);
      }
    }
  }

  /** What is left of these events when `extra` go from the front of a list that has
      `before` others in front of them. */
  function Left<T>(events: seq<T>, before: int, extra: int): seq<T> {
    if extra <= before then events
    else if extra - before <= |events| then events[extra - before..]
    else []
  }

  lemma LeftOneLess<T>(events: seq<T>, before: nat, extra: int)
    requires 0 < extra <= before + |events|
    ensures Left(events, before, extra) ==
            if before > 0 then Left(events, before - 1, extra - 1) else Left(events[1..], 0, extra - 1)
  {
    if before == 0 {
      DropOneMore(events, extra);
    }
  }

  lemma LeftIsLast<T>(events: seq<T>, total: nat, cap: nat)
    requires |events| <= total
    ensures Left(events, total - |events|, total - cap) == Last(cap, events)
  {}

  lemma {:induction false} DropRowsDrops(nodes: seq<Node>, extra: int)
    requires extra <= |Events(nodes)|
    ensures Gaps(DropRows(nodes, extra)) == Gaps(nodes)
    ensures Events(DropRows(nodes, extra)) == Left(Events(nodes), 0, extra)
    decreases extra
  {
    if extra > 0 {
      DropFirstRowDrops(nodes);
      LeftOneLess(Events(nodes), 0, extra);
      DropRowsDrops(DropFirstRow(nodes), extra - 1);
    }
  }

  lemma RowGoesLast(t: Text, nodes: seq<Node>, ev: LiveEvent)
    ensures Events(nodes + [NewRow(t, ev)]) == Events(nodes) + [ev]
    ensures Gaps(nodes + [NewRow(t, ev)]) == Gaps(nodes)
  {
    var row := NewRow(t, ev);
    EventsAppend(nodes, [row]);
    GapsAppend(nodes, [row]);
    assert Events([row]) == [ev] && Gaps([row]) == [];
  }

  lemma DropToCap(nodes: seq<Node>, cap: nat)
    ensures Events(DropRows(nodes, CountRows(nodes) - cap)) == Last(cap, Events(nodes))
    ensures Gaps(DropRows(nodes, CountRows(nodes) - cap)) == Gaps(nodes)
  {
    var total := |Events(nodes)|;
    CountIsEvents(nodes);
    DropRowsDrops(nodes, total - cap);
    LeftIsLast(Events(nodes), total, cap);
  }

  lemma AddRowKeepsLast(cfg: Config, p: Pane, ev: LiveEvent)
    ensures Events(AddRow(cfg, p, ev).nodes) == Last(cfg.cap, Events(p.nodes) + [ev])
    ensures Gaps(AddRow(cfg, p, ev).nodes) == Gaps(p.nodes)
  {
    RowGoesLast(cfg.text, p.nodes, ev);
    DropToCap(p.nodes + [NewRow(cfg.text, ev)], cfg.cap);
  }

  lemma LastOfLast<T>(n: nat, a: seq<T>, b: seq<T>)
    ensures Last(n, Last(n, a) + b) == Last(n, a + b)
  {
    if |a| > n {
      var k := |a| - n;
      assert Last(n, a) + b == (a + b)[k..];
    }
  }

  lemma {:induction false} AddAllKeepsLast(cfg: Config, p: Pane, evs: seq<LiveEvent>)
    ensures Events(AddAll(cfg, p, evs).nodes) == if evs == [] then Events(p.nodes)
                                               else Last(cfg.cap, Events(p.nodes) + evs)
    ensures Gaps(AddAll(cfg, p, evs).nodes) == Gaps(p.nodes)
    ensures AddAll(cfg, p, evs) == p.(nodes := AddAll(cfg, p, evs).nodes,
                                      emptyNote := AddAll(cfg, p, evs).emptyNote)
    decreases |evs|
  {
    if evs != [] {
      AddRowKeepsLast(cfg, p, evs[0]);
      AddAllKeepsLast(cfg, AddRow(cfg, p, evs[0]), evs[1..]);
      assert evs == [evs[0]] + evs[1..];
      LastOfLast(cfg.cap, Events(p.nodes) + [evs[0]], evs[1..]);
      Regroup(Events(p.nodes), [evs[0]], evs[1..]);
    }
  }

  /** Filtering changes which rows are hidden and nothing else. */
  lemma {:induction false} SameNodes(before: seq<Node>, after: seq<Node>)
    requires |before| == |after|
    requires forall i :: 0 <= i < |before| ==>
               after[i] == before[i]
               || (before[i].Row? && after[i].Row? && after[i] == before[i].(hidden := after[i].hidden))
    ensures Events(after) == Events(before) && Gaps(after) == Gaps(before)
  {
    if before != [] {
      SameNodes(before[1..], after[1..]);
    }
  }

  lemma {:induction false} WithoutRowsClears(nodes: seq<Node>)
    ensures Events(WithoutRows(nodes)) == [] && Gaps(WithoutRows(nodes)) == Gaps(nodes)
  {
    if nodes != [] {
      WithoutRowsClears(nodes[1..]);
      var rest := WithoutRows(nodes[1..]);
      if nodes[0].Gap? {
        assert ([nodes[0]] + rest)[1..] == rest;
      }
    }
  }

  // ----- over every run ----------------------------------------------------------

  lemma {:induction false} AddedIsAPrefix(run: seq<Input>)
    ensures Added(run) <= Arrived(run)
    ensures ClearedAt(run) <= |Added(run)|
  {
    if run != [] {
      AddedIsAPrefix(run[..|run| - 1]);
    }
  }

  ghost predicate Accounted(cfg: Config, run: seq<Input>, p: Pane) {
    AddedIsAPrefix(run);
    && p.paused == Paused(run)
    && Added(run) + p.queued == Arrived(run)
    && (!p.paused ==> p.queued == [])
    && Events(p.nodes) == Last(cfg.cap, Added(run)[ClearedAt(run)..])
    && Gaps(p.nodes) == Holes(run)
  }

  lemma ResumedSince(run: seq<Input>, queued: seq<LiveEvent>)
    requires Paused(run) && Added(run) + queued == Arrived(run) && ClearedAt(run) <= |Added(run)|
    ensures Arrived(run)[ClearedAt(run)..] == Added(run)[ClearedAt(run)..] + queued
  {}

  lemma ResumeShowsTheQueue(cfg: Config, p: Pane)
    requires p.paused && |Events(p.nodes)| <= cfg.cap
    ensures var q := Step(cfg, p, TogglePause);
            && !q.paused && q.queued == [] && Gaps(q.nodes) == Gaps(p.nodes)
            && Events(q.nodes) == Last(cfg.cap, Events(p.nodes) + p.queued)
  {
    var resumed := p.(paused := false, queued := []);
    var shown := AddAll(cfg, resumed, p.queued);
    AddAllKeepsLast(cfg, resumed, p.queued);
    SameNodes(shown.nodes, ApplyFilter(cfg, shown).nodes);
    assert Events(p.nodes) + [] == Events(p.nodes);
  }

  lemma ResumeAccounts(cfg: Config, run: seq<Input>, p: Pane)
    requires Accounted(cfg, run, p) && p.paused
    ensures Accounted(cfg, run + [TogglePause], Step(cfg, p, TogglePause))
  {
    AddedIsAPrefix(run);
    ResumedSince(run, p.queued);
    ResumeShowsTheQueue(cfg, p);
    LastOfLast(cfg.cap, Added(run)[ClearedAt(run)..], p.queued);
    assert Arrived(run) + [] == Arrived(run);
  }

  lemma LoggedAccounts(cfg: Config, run: seq<Input>, p: Pane, ev: LiveEvent)
    requires Accounted(cfg, run, p)
    ensures Accounted(cfg, run + [Logged(ev)], Step(cfg, p, Logged(ev)))
  {
    var longer := run + [Logged(ev)];
    assert longer[..|longer| - 1] == run;
    AddedIsAPrefix(run);
    AddedIsAPrefix(longer);
    if p.paused {
      Regroup(Added(run), p.queued, [ev]);
    } else {
      var shown := AddRow(cfg, p, ev);
      AddRowKeepsLast(cfg, p, ev);
      SameNodes(shown.nodes, ApplyFilter(cfg, shown).nodes);
      var since := Added(run)[ClearedAt(run)..];
      assert Added(run) == Arrived(run);
      assert Added(longer)[ClearedAt(longer)..] == since + [ev];
      LastOfLast(cfg.cap, since, [ev]);
    }
  }

  lemma OtherInputAccounts(cfg: Config, run: seq<Input>, p: Pane, input: Input)
    requires Accounted(cfg, run, p)
    requires !input.Logged? && !(input.TogglePause? && p.paused)
    ensures Accounted(cfg, run + [input], Step(cfg, p, input))
  {
    var longer := run + [input];
    assert longer[..|longer| - 1] == run;
    AddedIsAPrefix(run);
    AddedIsAPrefix(longer);
    match input
    case TogglePause =>
    case Clear => WithoutRowsClears(p.nodes);
    case ToggleLevel(l) => SameNodes(p.nodes, Step(cfg, p, input).nodes);
    case Highlight(typed) => SameNodes(p.nodes, Step(cfg, p, input).nodes);
    case Connected(missed) =>
      EventsAppend(p.nodes, [Gap(missed)]);
      GapsAppend(p.nodes, [Gap(missed)]);
      assert Events([Gap(missed)]) == [] && Gaps([Gap(missed)]) == [missed];
  }

  /** Pausing loses and reorders nothing. After every run of handlers the events added
      to the list and then the queued ones are exactly the events that arrived, in
      order; nothing is queued unless paused; the rows are the last `cap` events added
      since Clear; and every hole reported is still marked. */
  lemma {:induction false} NothingIsLost(cfg: Config, levels: set<string>, run: seq<Input>)
    ensures Accounted(cfg, run, After(cfg, levels, run))
  {
    if run != [] {
      var before, input := run[..|run| - 1], run[|run| - 1];
      var p := After(cfg, levels, before);
      NothingIsLost(cfg, levels, before);
      assert before + [input] == run;
      match input {
        case Logged(ev) => LoggedAccounts(cfg, before, p, ev);
        case TogglePause =>
          if p.paused {
            ResumeAccounts(cfg, before, p);
          } else {
            OtherInputAccounts(cfg, before, p, input);
          }
        case _ => OtherInputAccounts(cfg, before, p, input);
      }
    }
  }

  lemma {:induction false} NeverMoreThanTheCap(levels: set<string>, text: Text, run: seq<Input>)
    ensures CountRows(After(Config(MAX_ROWS, text), levels, run).nodes) <= 2000
  {
    var cfg := Config(MAX_ROWS, text);
    var nodes := After(cfg, levels, run).nodes;
    NothingIsLost(cfg, levels, run);
    CountIsEvents(nodes);
  }

  /** The page shows the last 2000 events added since Clear, no fewer. */
  lemma PageHoldsTheLast2000(levels: set<string>, text: Text, run: seq<Input>)
    ensures var since := Added(run)[Min(ClearedAt(run), |Added(run)|)..];
            Events(After(Config(MAX_ROWS, text), levels, run).nodes)
            == if |since| <= 2000 then since else since[|since| - 2000..]
  {
    NothingIsLost(Config(MAX_ROWS, text), levels, run);
    AddedIsAPrefix(run);
  }

  /** Nothing has been added or marked since Clear, or since the page was opened. */
  predicate IsBlank(run: seq<Input>) {
    run == [] ||
    var before, last := run[..|run| - 1], run[|run| - 1];
    match last
    case Clear => true
    case Logged(_) => IsBlank(before) && Paused(before)
    case TogglePause => IsBlank(before) && (Paused(before) ==> Added(run) == Added(before))
    case Connected(missed) => IsBlank(before) && missed == 0
    case _ => IsBlank(before)
  }

  lemma {:induction false} AddAllEndsBlankness(cfg: Config, p: Pane, evs: seq<LiveEvent>)
    ensures AddAll(cfg, p, evs).emptyNote == (p.emptyNote && evs == [])
    decreases |evs|
  {
    if evs != [] {
      AddAllEndsBlankness(cfg, AddRow(cfg, p, evs[0]), evs[1..]);
    }
  }

  lemma ResumeOfNothing(added: seq<LiveEvent>, queued: seq<LiveEvent>)
    ensures added + queued == added <==> queued == []
  {
    assert |added + queued| == |added| + |queued|;
    assert queued == [] ==> added + queued == added;
  }

  /** The note for an empty list shows exactly then. */
  lemma {:induction false} NoteShowsWhenBlank(cfg: Config, levels: set<string>, run: seq<Input>)
    ensures After(cfg, levels, run).emptyNote == IsBlank(run)
  {
    if run != [] {
      var before, input := run[..|run| - 1], run[|run| - 1];
      var p := After(cfg, levels, before);
      NoteShowsWhenBlank(cfg, levels, before);
      NothingIsLost(cfg, levels, before);
      if input.TogglePause? && p.paused {
        AddAllEndsBlankness(cfg, p.(paused := false, queued := []), p.queued);
        ResumeOfNothing(Added(before), p.queued);
      }
    }
  }

  // ----- the filter ----------------------------------------------------------------

  /** Each row is hidden exactly when its level is off or the highlighted text is not
      in it, and shows the level and text of its event. */
  ghost predicate FilterHolds(cfg: Config, p: Pane) {
    forall i :: 0 <= i < |p.nodes| && p.nodes[i].Row? ==> RowFiltered(cfg, p, p.nodes[i])
  }

  /** The level of an event, in lower case, is info when it gives none; its row reads time,
      level and message. */
  ghost predicate RowFiltered(cfg: Config, p: Pane, row: Node)
    requires row.Row?
  {
    var t, log := cfg.text, row.ev.log;
    && row.level == t.lower(if log.level == "" then "info" else log.level)
    && row.text == t.clock(row.ev.at) + row.level + log.message
    && (row.hidden <==>
        row.level !in p.levels || (t.lower(p.highlight) != "" && !Occurs(t.lower(p.highlight), t.lower(row.text))))
  }

  ghost predicate ShowsItsEvent(t: Text, n: Node) {
    n.Row? ==> n == RowFor(t, n.ev, n.hidden)
  }

  ghost predicate RowsAreEvents(cfg: Config, nodes: seq<Node>) {
    forall n :: n in nodes ==> ShowsItsEvent(cfg.text, n)
  }

  lemma {:induction false} DropRowsIsASelection(nodes: seq<Node>, extra: int)
    ensures forall n :: n in DropRows(nodes, extra) ==> n in nodes
    decreases extra
  {
    if extra > 0 {
      DropFirstRowIsASelection(nodes);
      DropRowsIsASelection(DropFirstRow(nodes), extra - 1);
    }
  }

  lemma {:induction false} DropFirstRowIsASelection(nodes: seq<Node>)
    ensures forall n :: n in DropFirstRow(nodes) ==> n in nodes
  {
    if nodes != [] {
      DropFirstRowIsASelection(nodes[1..]);
    }
  }

  lemma AddRowMakesEventRows(cfg: Config, p: Pane, ev: LiveEvent)
    requires RowsAreEvents(cfg, p.nodes)
    ensures RowsAreEvents(cfg, AddRow(cfg, p, ev).nodes)
  {
    var nodes := p.nodes + [NewRow(cfg.text, ev)];
    DropRowsIsASelection(nodes, CountRows(nodes) - cfg.cap);
  }

  lemma {:induction false} AddAllMakesEventRows(cfg: Config, p: Pane, evs: seq<LiveEvent>)
    requires RowsAreEvents(cfg, p.nodes)
    ensures RowsAreEvents(cfg, AddAll(cfg, p, evs).nodes)
    decreases |evs|
  {
    if evs != [] {
      AddRowMakesEventRows(cfg, p, evs[0]);
      AddAllMakesEventRows(cfg, AddRow(cfg, p, evs[0]), evs[1..]);
    }
  }

  lemma {:induction false} WithoutRowsLeavesGaps(nodes: seq<Node>)
    ensures forall n :: n in WithoutRows(nodes) ==> n.Gap?
  {
    if nodes != [] {
      WithoutRowsLeavesGaps(nodes[1..]);
    }
  }

  lemma ApplyFilterEstablishes(cfg: Config, p: Pane)
    requires RowsAreEvents(cfg, p.nodes)
    ensures FilterHolds(cfg, ApplyFilter(cfg, p))
  {
    var q := ApplyFilter(cfg, p);
    forall i | 0 <= i < |q.nodes| && q.nodes[i].Row?
      ensures RowFiltered(cfg, q, q.nodes[i])
    {
      assert ShowsItsEvent(cfg.text, p.nodes[i]);
      ContainsIsOccurs(cfg.text.lower(p.nodes[i].text), cfg.text.lower(p.highlight));
    }
  }

  lemma FilterHoldsFor(cfg: Config, p: Pane, q: Pane)
    requires FilterHolds(cfg, p) && p.levels == q.levels && p.highlight == q.highlight
    requires forall n :: n in q.nodes ==> n in p.nodes || n.Gap?
    ensures FilterHolds(cfg, q)
  {
    forall i | 0 <= i < |q.nodes| && q.nodes[i].Row?
      ensures RowFiltered(cfg, q, q.nodes[i])
    {
      assert q.nodes[i] in q.nodes && q.nodes[i] in p.nodes;
      var k :| 0 <= k < |p.nodes| && p.nodes[k] == q.nodes[i];
      assert RowFiltered(cfg, p, p.nodes[k]);
    }
  }

  /** The filter invariant, at every handler boundary of every run. */
  lemma {:induction false} FilterAlwaysHolds(cfg: Config, levels: set<string>, run: seq<Input>)
    ensures FilterHolds(cfg, After(cfg, levels, run))
  {
    if run != [] {
      var before, input := run[..|run| - 1], run[|run| - 1];
      var p := After(cfg, levels, before);
      FilterAlwaysHolds(cfg, levels, before);
      assert forall i :: 0 <= i < |p.nodes| && p.nodes[i].Row? ==> RowFiltered(cfg, p, p.nodes[i]);
      assert RowsAreEvents(cfg, p.nodes);
      match input {
        case Logged(ev) =>
          if p.paused {
            FilterHoldsFor(cfg, p, Step(cfg, p, input));
          } else {
            AddRowMakesEventRows(cfg, p, ev);
            ApplyFilterEstablishes(cfg, AddRow(cfg, p, ev));
          }
        case TogglePause =>
          if p.paused {
            var resumed := p.(paused := false, queued := []);
            AddAllMakesEventRows(cfg, resumed, p.queued);
            ApplyFilterEstablishes(cfg, AddAll(cfg, resumed, p.queued));
          } else {
            FilterHoldsFor(cfg, p, Step(cfg, p, input));
          }
        case Clear =>
          WithoutRowsLeavesGaps(p.nodes);
          FilterHoldsFor(cfg, p, Step(cfg, p, input));
        case Connected(_) => FilterHoldsFor(cfg, p, Step(cfg, p, input));
        case ToggleLevel(l) =>
          ApplyFilterEstablishes(cfg, p.(levels := if l in p.levels then p.levels - {l} else p.levels + {l}));
        case Highlight(typed) => ApplyFilterEstablishes(cfg, p.(highlight := typed));
      }
    }
  }

  /** A level button is pressed when it was at first, and has been clicked an even number of
      times, or when it was not, and has been clicked an odd number. */
  predicate Pressed(levels: set<string>, run: seq<Input>, level: string) {
    if run == [] then level in levels
    else Pressed(levels, run[..|run| - 1], level) != (run[|run| - 1] == ToggleLevel(level))
  }

  function LastHighlight(run: seq<Input>): string {
    if run == [] then ""
    else if run[|run| - 1].Highlight? then run[|run| - 1].typed
    else LastHighlight(run[..|run| - 1])
  }

  lemma {:induction false} FilterIsAsAskedFor(cfg: Config, levels: set<string>, run: seq<Input>, level: string)
    ensures var p := After(cfg, levels, run);
            (level in p.levels <==> Pressed(levels, run, level)) && p.highlight == LastHighlight(run)
  {
    if run != [] {
      var before, input := run[..|run| - 1], run[|run| - 1];
      FilterIsAsAskedFor(cfg, levels, before, level);
      if input.TogglePause? {
        var p := After(cfg, levels, before);
        AddAllKeepsLast(cfg, p.(paused := false, queued := []), p.queued);
      }
    }
  }

  /** The filter over every run: a row is hidden exactly when the button of its level is not
      pressed, or the text typed last, in lower case, is not empty and does not occur in what
      the row reads in lower case. */
  lemma RowsAreHiddenAsAskedFor(cfg: Config, levels: set<string>, run: seq<Input>, i: nat)
    requires i < |After(cfg, levels, run).nodes| && After(cfg, levels, run).nodes[i].Row?
    ensures var row, t := After(cfg, levels, run).nodes[i], cfg.text;
            var level := t.lower(if row.ev.log.level == "" then "info" else row.ev.log.level);
            var text, needle := t.clock(row.ev.at) + level + row.ev.log.message, t.lower(LastHighlight(run));
            row.hidden <==> !Pressed(levels, run, level) || (needle != "" && !Occurs(needle, t.lower(text)))
  {
    var p := After(cfg, levels, run);
    FilterAlwaysHolds(cfg, levels, run);
    assert RowFiltered(cfg, p, p.nodes[i]);
    FilterIsAsAskedFor(cfg, levels, run, p.nodes[i].level);
  }

  // ----- where a hole is marked -----------------------------------------------------

  /** What stands behind the j-th marker. */
  function Behind(nodes: seq<Node>, j: nat): seq<Node> {
    if nodes == [] then []
    else if nodes[0].Row? then Behind(nodes[1..], j)
    else if j == 0 then nodes[1..]
    else Behind(nodes[1..], j - 1)
  }

  lemma GapsBehindOne(n: Node, nodes: seq<Node>)
    ensures Gaps([n] + nodes) == if n.Gap? then [n.missed] + Gaps(nodes) else Gaps(nodes)
  {
    assert ([n] + nodes)[1..] == nodes;
    assert [] + Gaps(nodes) == Gaps(nodes);
  }

  /** The j-th marker splits the list: j markers in front of it, and `Behind` behind it. */
  lemma {:induction false} MarkerSplits(nodes: seq<Node>, j: nat) returns (front: seq<Node>)
    requires j < |Gaps(nodes)|
    ensures nodes == front + [Gap(Gaps(nodes)[j])] + Behind(nodes, j) && |Gaps(front)| == j
  {
    var n, rest := nodes[0], nodes[1..];
    assert nodes == [n] + rest;
    GapsBehindOne(n, rest);
    if n.Gap? && j == 0 {
      front := [];
    } else {
      var k := if n.Gap? then j - 1 else j;
      var before := MarkerSplits(rest, k);
      front := [n] + before;
      GapsBehindOne(n, before);
      Regroup([n], before, [Gap(Gaps(rest)[k])]);
      Regroup([n], before + [Gap(Gaps(rest)[k])], Behind(rest, k));
    }
  }

  lemma {:induction false} BehindMore(nodes: seq<Node>, more: seq<Node>, j: nat)
    requires j < |Gaps(nodes)|
    ensures Behind(nodes + more, j) == Behind(nodes, j) + more
  {
    assert (nodes + more)[1..] == nodes[1..] + more;
    if nodes[0].Row? {
      BehindMore(nodes[1..], more, j);
    } else if j > 0 {
      BehindMore(nodes[1..], more, j - 1);
    }
  }

  lemma {:induction false} NothingBehindTheLast(nodes: seq<Node>, gap: Node)
    requires gap.Gap?
    ensures Behind(nodes + [gap], |Gaps(nodes)|) == []
  {
    if nodes != [] {
      assert (nodes + [gap])[1..] == nodes[1..] + [gap];
      NothingBehindTheLast(nodes[1..], gap);
    }
  }

  lemma {:induction false} FewerBehind(nodes: seq<Node>, j: nat)
    ensures |Events(Behind(nodes, j))| <= |Events(nodes)|
  {
    if nodes != [] {
      if nodes[0].Row? {
        FewerBehind(nodes[1..], j);
      } else if j > 0 {
        FewerBehind(nodes[1..], j - 1);
      }
    }
  }

  /** The first row goes from behind a marker only when none stands before it. */
  lemma {:induction false} DropFirstRowBehind(nodes: seq<Node>, j: nat)
    requires j < |Gaps(nodes)| && Events(nodes) != []
    ensures var behind := Events(Behind(nodes, j));
            Events(Behind(DropFirstRow(nodes), j)) == if |behind| < |Events(nodes)| then behind else behind[1..]
  {
    var rest := nodes[1..];
    if nodes[0].Row? {
      FewerBehind(rest, j);
    } else {
      assert DropFirstRow(nodes)[1..] == DropFirstRow(rest);
      if j == 0 {
        DropFirstRowDrops(rest);
      } else {
        DropFirstRowBehind(rest, j - 1);
      }
    }
  }

  lemma OneRowLessBehind(nodes: seq<Node>, j: nat, extra: int)
    requires j < |Gaps(nodes)| && 0 < extra <= |Events(nodes)|
    ensures var behind, rest := Events(Behind(nodes, j)), DropFirstRow(nodes);
            var after := Events(Behind(rest, j));
            && |Gaps(rest)| == |Gaps(nodes)| && |Events(rest)| == |Events(nodes)| - 1
            && Left(after, |Events(rest)| - |after|, extra - 1) == Left(behind, |Events(nodes)| - |behind|, extra)
  {
    var behind := Events(Behind(nodes, j));
    FewerBehind(nodes, j);
    DropFirstRowDrops(nodes);
    DropFirstRowBehind(nodes, j);
    LeftOneLess(behind, |Events(nodes)| - |behind|, extra);
  }

  lemma {:induction false} DropRowsBehind(nodes: seq<Node>, j: nat, extra: int)
    requires j < |Gaps(nodes)| && extra <= |Events(nodes)|
    ensures var behind := Events(Behind(nodes, j));
            Events(Behind(DropRows(nodes, extra), j)) == Left(behind, |Events(nodes)| - |behind|, extra)
    decreases extra
  {
    if extra <= 0 {
      FewerBehind(nodes, j);
    } else {
      OneRowLessBehind(nodes, j, extra);
      DropRowsBehind(DropFirstRow(nodes), j, extra - 1);
    }
  }

  lemma DropToCapBehind(nodes: seq<Node>, j: nat, cap: nat)
    requires j < |Gaps(nodes)|
    ensures Events(Behind(DropRows(nodes, CountRows(nodes) - cap), j)) == Last(cap, Events(Behind(nodes, j)))
  {
    var behind, total := Events(Behind(nodes, j)), |Events(nodes)|;
    CountIsEvents(nodes);
    FewerBehind(nodes, j);
    DropRowsBehind(nodes, j, total - cap);
    LeftIsLast(behind, total, cap);
  }

  lemma AddRowBehind(cfg: Config, p: Pane, ev: LiveEvent, j: nat)
    requires j < |Gaps(p.nodes)|
    ensures Events(Behind(AddRow(cfg, p, ev).nodes, j)) == Last(cfg.cap, Events(Behind(p.nodes, j)) + [ev])
  {
    var row := NewRow(cfg.text, ev);
    BehindMore(p.nodes, [row], j);
    RowGoesLast(cfg.text, Behind(p.nodes, j), ev);
    RowGoesLast(cfg.text, p.nodes, ev);
    DropToCapBehind(p.nodes + [row], j, cfg.cap);
  }

  lemma {:induction false} AddAllBehind(cfg: Config, p: Pane, evs: seq<LiveEvent>, j: nat)
    requires j < |Gaps(p.nodes)|
    ensures var behind := Events(Behind(p.nodes, j));
            Events(Behind(AddAll(cfg, p, evs).nodes, j)) == if evs == [] then behind else Last(cfg.cap, behind + evs)
    decreases |evs|
  {
    if evs != [] {
      var behind := Events(Behind(p.nodes, j));
      AddRowKeepsLast(cfg, p, evs[0]);
      AddRowBehind(cfg, p, evs[0], j);
      AddAllBehind(cfg, AddRow(cfg, p, evs[0]), evs[1..], j);
      LastOfLast(cfg.cap, behind + [evs[0]], evs[1..]);
      assert evs == [evs[0]] + evs[1..];
      Regroup(behind, [evs[0]], evs[1..]);
    }
  }

  lemma {:induction false} SameBehind(before: seq<Node>, after: seq<Node>, j: nat)
    requires |before| == |after|
    requires forall i :: 0 <= i < |before| ==>
               after[i] == before[i]
               || (before[i].Row? && after[i].Row? && after[i] == before[i].(hidden := after[i].hidden))
    ensures Events(Behind(after, j)) == Events(Behind(before, j))
  {
    if before != [] {
      if before[0].Row? {
        SameBehind(before[1..], after[1..], j);
      } else if j > 0 {
        SameBehind(before[1..], after[1..], j - 1);
      } else {
        SameNodes(before[1..], after[1..]);
      }
    }
  }

  /** Where in the run each hole was reported. */
  function Marks(run: seq<Input>): seq<nat> {
    if run == [] then []
    else
      var last := run[|run| - 1];
      Marks(run[..|run| - 1]) + if last.Connected? && last.missed > 0 then [|run| - 1] else []
  }

  lemma {:induction false} MarksAreHoles(run: seq<Input>)
    ensures |Marks(run)| == |Holes(run)|
    ensures forall j :: 0 <= j < |Marks(run)| ==>
              Marks(run)[j] < |run| && run[Marks(run)[j]] == Connected(Holes(run)[j])
  {
    if run != [] {
      MarksAreHoles(run[..|run| - 1]);
    }
  }

  /** The events added since the first n of them. */
  function AddedSince(run: seq<Input>, n: nat): seq<LiveEvent> {
    if n <= |Added(run)| then Added(run)[n..] else []
  }

  function Max(a: nat, b: nat): nat {
    if a < b then b else a
  }

  /** What is shown behind a marker that came when the first n events had been added. */
  function ShownSince(cfg: Config, run: seq<Input>, n: nat): seq<LiveEvent> {
    Last(cfg.cap, AddedSince(run, Max(ClearedAt(run), n)))
  }

  ghost predicate Placed(cfg: Config, run: seq<Input>, p: Pane) {
    && |Gaps(p.nodes)| == |Marks(run)|
    && forall j :: 0 <= j < |Marks(run)| ==> PlacedAt(cfg, run, p, j, Marks(run)[j])
  }

  /** The j-th marker, reported at input i: before it stands what had been added by then,
      behind it what was added later, as far as Clear and the cap have left them. */
  ghost predicate PlacedAt(cfg: Config, run: seq<Input>, p: Pane, j: nat, i: nat) {
    && i <= |run| && |Added(run[..i])| <= |Added(run)|
    && Events(Behind(p.nodes, j)) == ShownSince(cfg, run, |Added(run[..i])|)
  }

  /** More was added and nothing cleared. */
  lemma MoreAdded(cfg: Config, run: seq<Input>, input: Input, more: seq<LiveEvent>, n: nat)
    requires n <= |Added(run)| && Added(run + [input]) == Added(run) + more
    requires ClearedAt(run + [input]) == ClearedAt(run) <= |Added(run)|
    ensures ShownSince(cfg, run + [input], n) == Last(cfg.cap, ShownSince(cfg, run, n) + more)
  {
    var start := Max(ClearedAt(run), n);
    DropFromSum(Added(run), more, start);
    LastOfLast(cfg.cap, AddedSince(run, start), more);
  }

  lemma LoggedStaysPlaced(cfg: Config, run: seq<Input>, p: Pane, ev: LiveEvent, j: nat, i: nat)
    requires Accounted(cfg, run, p) && PlacedAt(cfg, run, p, j, i) && j < |Gaps(p.nodes)|
    ensures PlacedAt(cfg, run + [Logged(ev)], Step(cfg, p, Logged(ev)), j, i)
  {
    var longer, n := run + [Logged(ev)], |Added(run[..i])|;
    assert longer[..|run|] == run && longer[..i] == run[..i];
    AddedIsAPrefix(run);
    if p.paused {
      assert Added(longer) == Added(run) + [];
      MoreAdded(cfg, run, Logged(ev), [], n);
      assert ShownSince(cfg, run, n) + [] == ShownSince(cfg, run, n);
    } else {
      var shown := AddRow(cfg, p, ev);
      AddRowBehind(cfg, p, ev, j);
      SameBehind(shown.nodes, ApplyFilter(cfg, shown).nodes, j);
      MoreAdded(cfg, run, Logged(ev), [ev], n);
    }
  }

  lemma ResumeStaysPlaced(cfg: Config, run: seq<Input>, p: Pane, j: nat, i: nat)
    requires Accounted(cfg, run, p) && p.paused && PlacedAt(cfg, run, p, j, i) && j < |Gaps(p.nodes)|
    ensures PlacedAt(cfg, run + [TogglePause], Step(cfg, p, TogglePause), j, i)
  {
    var longer, n := run + [TogglePause], |Added(run[..i])|;
    assert longer[..|run|] == run && longer[..i] == run[..i];
    AddedIsAPrefix(run);
    assert Arrived(run) + [] == Arrived(run);
    var resumed := p.(paused := false, queued := []);
    var shown := AddAll(cfg, resumed, p.queued);
    AddAllBehind(cfg, resumed, p.queued, j);
    SameBehind(shown.nodes, ApplyFilter(cfg, shown).nodes, j);
    MoreAdded(cfg, run, TogglePause, p.queued, n);
    assert ShownSince(cfg, run, n) + [] == ShownSince(cfg, run, n);
  }

  lemma AddsNothing(cfg: Config, run: seq<Input>, p: Pane, input: Input)
    requires Accounted(cfg, run, p) && !input.Logged? && !(input.TogglePause? && p.paused)
    ensures Added(run + [input]) == Added(run) && ClearedAt(run) <= |Added(run)|
    ensures ClearedAt(run + [input]) == if input.Clear? then |Added(run)| else ClearedAt(run)
  {
    assert (run + [input])[..|run|] == run;
    AddedIsAPrefix(run);
    assert Arrived(run) + [] == Arrived(run);
  }

  /** What stands behind a marker stays when nothing is added or cleared. */
  lemma OtherInputKeepsBehind(cfg: Config, p: Pane, input: Input, j: nat)
    requires j < |Gaps(p.nodes)| && !input.Logged? && !input.Clear? && !(input.TogglePause? && p.paused)
    ensures Events(Behind(Step(cfg, p, input).nodes, j)) == Events(Behind(p.nodes, j))
  {
    match input
    case TogglePause =>
    case ToggleLevel(l) => SameBehind(p.nodes, Step(cfg, p, input).nodes, j);
    case Highlight(typed) => SameBehind(p.nodes, Step(cfg, p, input).nodes, j);
    case Connected(missed) =>
      BehindMore(p.nodes, [Gap(missed)], j);
      EventsAppend(Behind(p.nodes, j), [Gap(missed)]);
      assert Events([Gap(missed)]) == [];
  }

  lemma ClearLeavesNothingBehind(nodes: seq<Node>, j: nat)
    ensures Events(Behind(WithoutRows(nodes), j)) == []
  {
    WithoutRowsClears(nodes);
    FewerBehind(WithoutRows(nodes), j);
  }

  lemma OtherInputStaysPlaced(cfg: Config, run: seq<Input>, p: Pane, input: Input, j: nat, i: nat)
    requires Accounted(cfg, run, p) && PlacedAt(cfg, run, p, j, i) && j < |Gaps(p.nodes)|
    requires !input.Logged? && !(input.TogglePause? && p.paused)
    ensures PlacedAt(cfg, run + [input], Step(cfg, p, input), j, i)
  {
    assert (run + [input])[..i] == run[..i];
    AddsNothing(cfg, run, p, input);
    if input.Clear? {
      ClearLeavesNothingBehind(p.nodes, j);
    } else {
      OtherInputKeepsBehind(cfg, p, input, j);
    }
  }

  lemma NewMarkIsPlaced(cfg: Config, run: seq<Input>, p: Pane, missed: nat)
    requires Accounted(cfg, run, p) && missed > 0
    ensures PlacedAt(cfg, run + [Connected(missed)], Step(cfg, p, Connected(missed)), |Gaps(p.nodes)|, |run|)
  {
    assert (run + [Connected(missed)])[..|run|] == run;
    AddsNothing(cfg, run, p, Connected(missed));
    NothingBehindTheLast(p.nodes, Gap(missed));
  }

  lemma StepStaysPlaced(cfg: Config, run: seq<Input>, p: Pane, input: Input, q: Pane)
    requires Accounted(cfg, run, p) && Placed(cfg, run, p)
    requires |Gaps(q.nodes)| == |Marks(run + [input])| && q == Step(cfg, p, input)
    ensures Placed(cfg, run + [input], q)
  {
    assert (run + [input])[..|run|] == run;
    var marks := Marks(run + [input]);
    forall j | 0 <= j < |marks|
      ensures PlacedAt(cfg, run + [input], q, j, marks[j])
    {
      if j == |Marks(run)| {
        NewMarkIsPlaced(cfg, run, p, input.missed);
      } else {
        match input {
          case Logged(ev) => LoggedStaysPlaced(cfg, run, p, ev, j, marks[j]);
          case TogglePause =>
            if p.paused {
              ResumeStaysPlaced(cfg, run, p, j, marks[j]);
            } else {
              OtherInputStaysPlaced(cfg, run, p, input, j, marks[j]);
            }
          case _ => OtherInputStaysPlaced(cfg, run, p, input, j, marks[j]);
        }
      }
    }
  }

  lemma AfterOneMore(cfg: Config, levels: set<string>, run: seq<Input>, input: Input)
    ensures After(cfg, levels, run + [input]) == Step(cfg, After(cfg, levels, run), input)
  {
    assert (run + [input])[..|run|] == run;
  }

  lemma MarkersAreMarks(cfg: Config, levels: set<string>, run: seq<Input>)
    ensures |Gaps(After(cfg, levels, run).nodes)| == |Marks(run)|
  {
    NothingIsLost(cfg, levels, run);
    MarksAreHoles(run);
  }

  lemma PlacedGoesOn(cfg: Config, levels: set<string>, run: seq<Input>, input: Input)
    requires Placed(cfg, run, After(cfg, levels, run))
    ensures Placed(cfg, run + [input], After(cfg, levels, run + [input]))
  {
    NothingIsLost(cfg, levels, run);
    MarkersAreMarks(cfg, levels, run + [input]);
    AfterOneMore(cfg, levels, run, input);
    StepStaysPlaced(cfg, run, After(cfg, levels, run), input, After(cfg, levels, run + [input]));
  }

  /** Over every run, whatever comes between a report of missed events and the resume:
      behind the j-th marker stand exactly the events added since it came, as far as
      Clear and the cap have left them, and in front of it the others. */
  lemma {:induction false} MarkersDivideTheEvents(cfg: Config, levels: set<string>, run: seq<Input>)
    ensures Placed(cfg, run, After(cfg, levels, run))
  {
    if run != [] {
      var before, input := run[..|run| - 1], run[|run| - 1];
      MarkersDivideTheEvents(cfg, levels, before);
      PlacedGoesOn(cfg, levels, before, input);
      assert before + [input] == run;
    }
  }

  lemma {:induction false} ArrivalsGrow(run: seq<Input>, i: nat)
    requires i <= |run|
    ensures |Arrived(run[..i])| <= |Arrived(run)|
  {
    if i < |run| {
      ArrivalsGrow(run[..|run| - 1], i);
      assert run[..|run| - 1][..i] == run[..i];
    } else {
      assert run[..i] == run;
    }
  }

  /** The one thing pausing does reorder: a marker is not queued, so on resume it stands
      before all that was queued when it came, though that arrived earlier. When the list
      is moving, behind the marker stand the events that arrived after it exactly when
      nothing was queued, unless a later Clear or the cap has removed the difference. */
  lemma MarkerStandsWhereItCameExactly(cfg: Config, levels: set<string>, run: seq<Input>, j: nat)
    requires j < |Marks(run)| && !Paused(run)
    ensures Marks(run)[j] < |run|
    ensures var i := Marks(run)[j]; var arrived := |Arrived(run[..i])|;
            Events(Behind(After(cfg, levels, run).nodes, j))
              == Last(cfg.cap, Arrived(run)[Min(Max(ClearedAt(run), arrived), |Arrived(run)|)..])
            <==> After(cfg, levels, run[..i]).queued == [] || ClearedAt(run) >= arrived
                 || |Arrived(run)| - arrived >= cfg.cap
  {
    MarksAreHoles(run);
    var i := Marks(run)[j];
    MarkersDivideTheEvents(cfg, levels, run);
    assert PlacedAt(cfg, run, After(cfg, levels, run), j, i);
    NothingIsLost(cfg, levels, run[..i]);
    AddedIsAPrefix(run);
    AddedIsAPrefix(run[..i]);
    ArrivalsGrow(run, i);
    LastsDiffer(cfg.cap, Arrived(run), Max(ClearedAt(run), |Added(run[..i])|),
                Max(ClearedAt(run), |Arrived(run[..i])|));
  }

  /** Two ends of a sequence, cut to n, are the same when they start in the same place or
      both are cut. */
  lemma LastsDiffer<T>(n: nat, s: seq<T>, a: nat, b: nat)
    requires a <= b <= |s|
    ensures Last(n, s[a..]) == Last(n, s[b..]) <==> a == b || |s| - b >= n
  {
    if a < b && |s| - b < n {
      assert |Last(n, s[a..])| > |Last(n, s[b..])|;
    }
  }

  // ----- the script ------------------------------------------------------------------

  class LogList {
    const cfg: Config
    ghost const pressed: set<string>     // the level buttons as the page was served

    var paused: bool
    var queued: seq<LiveEvent>
    var nodes: seq<Node>
    var levels: set<string>
    var highlight: string
    var emptyNote: bool

    ghost var run: seq<Input>

    ghost function View(): Pane
      reads this
    {
      Pane(paused, queued, nodes, levels, highlight, emptyNote)
    }

    ghost predicate Valid()
      reads this
    {
      View() == After(cfg, pressed, run)
    }

    constructor (cfg: Config, pressed: set<string>)
      ensures Valid() && run == [] && this.cfg == cfg && this.pressed == pressed
    {
      this.cfg, this.pressed := cfg, pressed;
      paused, queued, nodes, levels, highlight, emptyNote := false, [], [], pressed, "", true;
      run := [];
    }

    method OnLog(ev: LiveEvent)
      requires Valid()
      modifies this
      ensures Valid() && run == old(run) + [Logged(ev)]
    {
      Note(Logged(ev));
      if paused {
        queued := queued + [ev];
        return;
      }
      AppendRow(ev);
      FilterRows();
    }

    method OnPause()
      requires Valid()
      modifies this
      ensures Valid() && run == old(run) + [TogglePause]
    {
      Note(TogglePause);
      paused := !paused;
      if !paused {
        var waiting := queued;
        queued := [];
        ghost var resumed := View();
        for i := 0 to |waiting|
          invariant AddAll(cfg, View(), waiting[i..]) == AddAll(cfg, resumed, waiting)
          invariant run == old(run) + [TogglePause]
        {
          AppendRow(waiting[i]);
          assert waiting[i..][1..] == waiting[i + 1..];
        }
        FilterRows();
      }
    }

    method OnClear()
      requires Valid()
      modifies this
      ensures Valid() && run == old(run) + [Clear]
    {
      Note(Clear);
      nodes := WithoutRows(nodes);
      emptyNote := true;
    }

    method OnLevel(level: string)
      requires Valid()
      modifies this
      ensures Valid() && run == old(run) + [ToggleLevel(level)]
    {
      Note(ToggleLevel(level));
      levels := if level in levels then levels - {level} else levels + {level};
      FilterRows();
    }

    method OnHighlight(typed: string)
      requires Valid()
      modifies this
      ensures Valid() && run == old(run) + [Highlight(typed)]
    {
      Note(Highlight(typed));
      highlight := typed;
      FilterRows();
    }

    method OnConnected(missed: nat)
      requires Valid()
      modifies this
      ensures Valid() && run == old(run) + [Connected(missed)]
    {
      Note(Connected(missed));
      if missed > 0 {
        nodes := nodes + [Gap(missed)];
        emptyNote := false;
      }
    }

    /** `addRow`: append, then remove from the front what the cap does not hold. */
    method AppendRow(ev: LiveEvent)
      modifies `nodes, `emptyNote
      ensures View() == AddRow(cfg, old(View()), ev)
    {
      nodes := nodes + [NewRow(cfg.text, ev)];
      emptyNote := false;
      var extra := CountRows(nodes) - cfg.cap;
      ghost var full, start := nodes, extra;
      while extra > 0
        invariant DropRows(nodes, extra) == DropRows(full, start)
        invariant !emptyNote
      {
        nodes := DropFirstRow(nodes);
        extra := extra - 1;
      }
    }

    /** `applyFilter`, row by row in place. */
    method FilterRows()
      modifies `nodes
      ensures View() == ApplyFilter(cfg, old(View()))
    {
      for i := 0 to |nodes|
        invariant |nodes| == |old(nodes)|
        invariant forall k :: 0 <= k < i ==> nodes[k] == Filtered(cfg.text, old(View()), old(nodes)[k])
        invariant forall k :: i <= k < |nodes| ==> nodes[k] == old(nodes)[k]
      {
        var n := nodes[i];
        if n.Row? {
          var needle := cfg.text.lower(highlight);
          var levelOk := n.level in levels;
          var textOk := needle == "" || Contains(cfg.text.lower(n.text), needle);
          nodes := nodes[i := n.(hidden := !(levelOk && textOk))];
        }
      }
    }

    ghost method Note(input: Input)
      modifies `run
      ensures run == old(run) + [input]
      ensures After(cfg, pressed, run) == Step(cfg, After(cfg, pressed, old(run)), input)
    {
      run := run + [input];
      assert run[..|run| - 1] == old(run);
    }
  }
}
