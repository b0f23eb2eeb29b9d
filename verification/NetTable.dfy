/** liveNetworkScript as it is written: call objects shared by a Map, a queue and the
    selection, and updated in place; the table body is a sequence of rows. Proved
    against the value model in NetPane. */
module NetTable {
  import opened Prelude
  import opened LiveEvents
  import opened NetPane

  class CallObject {
    const id: RequestId
    var verb: string
    var url: string
    var status: int
    var req: Option<Log>
    var res: Option<Log>
    var err: Option<Log>
    var reqAt: Option<int>
    var doneAt: Option<int>
    var startedAt: string

    constructor (id: RequestId, startedAt: string)
      ensures Value() == NewCall(id, startedAt) && this.id == id
    {
      this.id, this.startedAt := id, startedAt;
      verb, url, status, req, res, err, reqAt, doneAt := "", "", 0, None, None, None, None, None;
    }

    function Value(): Call
      reads this
    {
      Call(id, verb, url, status, req, res, err, reqAt, doneAt, startedAt)
    }

    /** The part of `ingest` that updates the call. */
    method Take(t: Text, ev: LiveEvent)
      modifies this
      ensures Value() == Absorb(t, old(Value()), ev)
    {
      var log := ev.log;
      if log.verb != "" {
        verb := log.verb;
      }
      if log.url != "" {
        url := log.url;
      }
      var at := t.parseDate(Stamp(ev));
      if log.callPhase == Request {
        req, reqAt, startedAt := Some(log), at, Stamp(ev);
      } else if log.callPhase == Response {
        res, status, doneAt := Some(log), log.statusCode, at;
      } else if log.callPhase == Error {
        err, doneAt := Some(log), at;
      }
    }
  }

  class NetworkTable {
    const cfg: Config

    var calls: map<RequestId, CallObject>
    var order: seq<CallObject>
    var rows: seq<Row>
    var selected: CallObject?
    var detail: Option<Call>
    var status: Choice
    var typed: string
    var badge: nat

    ghost var run: seq<Input>
    ghost var pane: Pane      // what the run has made of the model

    /** Map and queue share the call objects, and those are as the model says. */
    ghost predicate ShowsCalls(values: map<RequestId, Call>, ids: seq<RequestId>)
      reads `calls, `order, order
    {
      && |order| == |ids|
      && calls.Keys == values.Keys
      && (forall i :: 0 <= i < |order| ==> ShowsCall(values, ids, i))
      && (forall id :: id in calls ==> id in ids)
    }

    ghost predicate ShowsCall(values: map<RequestId, Call>, ids: seq<RequestId>, i: nat)
      requires i < |order| == |ids|
      reads `calls, `order, order
    {
      && order[i].id == ids[i] && ids[i] in values && order[i].Value() == values[ids[i]]
      && ids[i] in calls && calls[ids[i]] == order[i]
    }

    ghost predicate ShowsSelection(id: Option<RequestId>)
      reads `calls, `selected
    {
      match id
      case None => selected == null
      case Some(id) => selected != null && selected.id == id && id in calls && calls[id] == selected
    }

    /** The objects stand for the pane p. */
    ghost predicate Shows(p: Pane)
      reads `calls, `order, `rows, `selected, `detail, `status, `typed, `badge, order
    {
      && ShowsCalls(p.calls, p.order)
      && rows == p.rows
      && ShowsSelection(p.selected)
      && detail == p.detail && status == p.status && typed == p.typed && badge == p.badge
    }

    ghost predicate Valid()
      reads this, order
    {
      Shows(pane) && pane == After(cfg, run)
    }

    constructor (cfg: Config)
      ensures Valid() && run == [] && this.cfg == cfg
    {
      this.cfg, run, pane := cfg, [], START;
      calls, order, rows, selected, detail := map[], [], [], null, None;
      status, typed, badge := All, "", 0;
    }

    /** What the model makes of one more input. */
    ghost method Record(input: Input)
      requires pane == After(cfg, run)
      modifies `run, `pane
      ensures run == old(run) + [input] && pane == Step(cfg, old(pane), input) && pane == After(cfg, run)
    {
      AfterOneMore(cfg, run, input);
      run, pane := run + [input], Step(cfg, pane, input);
    }

    // ----- the table ---------------------------------------------------------------

    /** `applyNetFilter`, row by row in place. */
    method FilterRows(ghost p: Pane)
      requires rows == p.rows && status == p.status && typed == p.typed
      modifies `rows
      ensures rows == ApplyNetFilter(cfg, p).rows
    {
      var needle := cfg.text.lower(cfg.text.trim(typed));
      for k := 0 to |rows|
        invariant |rows| == |p.rows|
        invariant forall i :: 0 <= i < k ==> rows[i] == ApplyNetFilter(cfg, p).rows[i]
        invariant forall i :: k <= i < |rows| ==> rows[i] == p.rows[i]
      {
        var call := rows[k].shown;
        var stateHit := status == All || status == Only(StateOf(call)) ||
                        (status == Only(Err) && StateOf(call) == Err);
        var pathHit := needle == "" || Contains(cfg.text.lower(cfg.text.path(call.url)), needle);
        rows := rows[k := rows[k].(hidden := !(stateHit && pathHit))];
      }
    }

    /** `render`: gives a call its row if the table has none for it, and writes the row
        afresh. */
    method RenderCall(call: CallObject, ghost p: Pane)
      requires rows == p.rows && status == p.status && typed == p.typed && detail == p.detail
      requires selected == call <==> p.selected == Some(call.id)
      modifies `rows, `detail
      ensures rows == Render(cfg, p, call.Value()).rows && detail == Render(cfg, p, call.Value()).detail
    {
      if !HasRow(rows, call.id) {
        rows := rows + [Row(call.id, call.Value(), false, false)];
      } else {
        rows := Reshow(rows, call.Value());
      }
      if selected == call {
        rows := Mark(rows, call.id, true);
        detail := Some(call.Value());
      }
      FilterRows(p.(rows := rows, detail := detail));
    }

    // ----- calls -------------------------------------------------------------------

    method ClearDetail()
      modifies `selected, `detail
      ensures selected == null && detail == None
    {
      selected, detail := null, None;
    }

    /** The queue without its oldest call, in objects and in the model. */
    lemma OldestIsAlone(values: map<RequestId, Call>, ids: seq<RequestId>)
      requires ShowsCalls(values, ids) && Distinct(ids) && order != []
      ensures order[0].id == ids[0] && ids[0] in calls && calls[ids[0]] == order[0]
      ensures forall i :: 0 < i < |order| ==> order[i].id != ids[0]
      ensures forall id :: id in calls && id != ids[0] ==> id in ids[1..]
    {
      assert ShowsCall(values, ids, 0);
      forall i | 0 < i < |order|
        ensures order[i].id != ids[0]
      {
        assert ShowsCall(values, ids, i);
      }
    }

    /** The bookkeeping of `evict`: out of the queue and the Map. */
    method Forget(ghost values: map<RequestId, Call>, ghost ids: seq<RequestId>) returns (oldest: CallObject)
      requires ShowsCalls(values, ids) && Distinct(ids) && order != []
      modifies `order, `calls
      ensures oldest == old(order)[0] && oldest.id == ids[0]
      ensures order == old(order)[1..] && calls == old(calls) - {ids[0]}
      ensures ShowsCalls(values - {ids[0]}, ids[1..])
    {
      OldestIsAlone(values, ids);
      ghost var queue := order;
      oldest := order[0];
      order := order[1..];
      calls := calls - {oldest.id};
      ghost var values', ids' := values - {ids[0]}, ids[1..];
      forall i | 0 <= i < |order|
        ensures ShowsCall(values', ids', i)
      {
        assert old(ShowsCall(values, ids, i + 1));
        assert order[i] == queue[i + 1];
      }
    }

    lemma SelectionIsIdentity(p: Pane, call: CallObject)
      requires ShowsSelection(p.selected) && call.id in calls && calls[call.id] == call
      ensures selected == call <==> p.selected == Some(call.id)
    {}

    /** One turn of the loop in `evict`. */
    method EvictOne(ghost p: Pane)
      requires Shows(p) && Distinct(p.order) && order != []
      modifies `order, `calls, `rows, `selected, `detail
      ensures Shows(DropOldest(p)) && calls == old(calls) - {p.order[0]}
    {
      assert ShowsCall(p.calls, p.order, 0);
      SelectionIsIdentity(p, order[0]);
      var oldest := Forget(p.calls, p.order);
      rows := RemoveRow(rows, oldest.id);
      if selected == oldest {
        ClearDetail();
      }
    }

    method EvictOld(ghost p: Pane)
      requires Shows(p) && Distinct(p.order)
      modifies `order, `calls, `rows, `selected, `detail
      ensures Shows(Evict(cfg, p))
      ensures forall id :: id in calls ==> id in old(calls) && calls[id] == old(calls)[id]
    {
      ghost var q := p;
      while |order| > cfg.cap
        invariant Shows(q) && Distinct(q.order) && Evict(cfg, q) == Evict(cfg, p)
        invariant forall id :: id in calls ==> id in old(calls) && calls[id] == old(calls)[id]
        decreases |order|
      {
        assert |order| == |q.order|;
        EvictOne(q);
        q := DropOldest(q);
      }
    }

    // ----- handlers ------------------------------------------------------------------

    /** A new call at the end of the queue, in the Map under its id. */
    method EnterCall(id: RequestId, startedAt: string, ghost p: Pane) returns (call: CallObject)
      requires ShowsCalls(p.calls, p.order) && id !in calls
      modifies `order, `calls
      ensures ShowsCalls(p.calls[id := NewCall(id, startedAt)], p.order + [id])
      ensures fresh(call) && call.id == id && order == old(order) + [call] && calls == old(calls)[id := call]
    {
      call := new CallObject(id, startedAt);
      ghost var queue := order;
      calls := calls[id := call];
      order := order + [call];
      ghost var values, ids := p.calls[id := NewCall(id, startedAt)], p.order + [id];
      forall i | 0 <= i < |order|
        ensures ShowsCall(values, ids, i)
      {
        if i < |queue| {
          assert old(ShowsCall(p.calls, p.order, i));
          assert order[i] == queue[i];
        }
      }
    }

    method CreateCall(ev: LiveEvent, ghost p: Pane) returns (call: CallObject)
      requires Shows(p) && Coherent(cfg, p) && ev.log.requestId != NO_ID && ev.log.requestId !in calls
      modifies `order, `calls, `rows, `selected, `detail
      ensures Shows(Open(cfg, p, ev)) && fresh(call)
      ensures call.id == ev.log.requestId && call.id in calls && calls[call.id] == call
    {
      var id := ev.log.requestId;
      OpeningACall(cfg, p, ev);
      call := EnterCall(id, Stamp(ev), p);
      EvictOld(p.(calls := p.calls[id := NewCall(id, Stamp(ev))], order := p.order + [id]));
    }

    /** The call an event belongs to, created and made room for when it is new. */
    method OpenCall(ev: LiveEvent, ghost p: Pane) returns (call: CallObject)
      requires Shows(p) && Coherent(cfg, p) && ev.log.requestId != NO_ID
      modifies `order, `calls, `rows, `selected, `detail
      ensures Shows(Open(cfg, p, ev))
      ensures call.id == ev.log.requestId && call.id in calls && calls[call.id] == call
      ensures call in old(calls.Values) || fresh(call)
    {
      if ev.log.requestId in calls {
        ghost var k := WhereIs(p, ev.log.requestId);
        call := calls[ev.log.requestId];
      } else {
        call := CreateCall(ev, p);
      }
    }

    /** The call object takes an event, and so does the model. */
    method TakeEvent(call: CallObject, ev: LiveEvent, ghost p: Pane, ghost k: nat)
      requires ShowsCalls(p.calls, p.order) && Distinct(p.order)
      requires k < |order| && order[k] == call && call.id in p.calls
      modifies call
      ensures ShowsCalls(p.calls[call.id := Absorb(cfg.text, p.calls[call.id], ev)], p.order)
      ensures call.Value() == Absorb(cfg.text, p.calls[call.id], ev)
    {
      assert ShowsCall(p.calls, p.order, k);
      call.Take(cfg.text, ev);
      ghost var values := p.calls[call.id := Absorb(cfg.text, p.calls[call.id], ev)];
      forall i | 0 <= i < |order|
        ensures ShowsCall(values, p.order, i)
      {
        assert old(ShowsCall(p.calls, p.order, i));
        assert i != k ==> order[i] != call;
      }
    }

    lemma WhereIs(p: Pane, id: RequestId) returns (k: nat)
      requires ShowsCalls(p.calls, p.order) && id in calls
      ensures k < |order| && order[k] == calls[id] && order[k].id == id && id in p.calls
    {
      k :| 0 <= k < |p.order| && p.order[k] == id;
      assert ShowsCall(p.calls, p.order, k);
    }

    method ShowCall(call: CallObject, ghost p: Pane, ghost k: nat)
      requires Shows(p) && k < |order| && order[k] == call
      modifies `rows, `detail
      ensures Shows(Render(cfg, p, call.Value()))
    {
      assert ShowsCall(p.calls, p.order, k);
      SelectionIsIdentity(p, call);
      RenderCall(call, p);
    }

    /** The rest of `ingest`, once the call is at hand. */
    method Update(call: CallObject, ev: LiveEvent, ghost p: Pane, ghost k: nat)
      requires Shows(p) && Distinct(p.order) && k < |order| && order[k] == call
      requires call.id in p.calls
      modifies `rows, `detail, call
      ensures var after := Absorb(cfg.text, p.calls[call.id], ev);
              Shows(Render(cfg, p.(calls := p.calls[call.id := after]), after))
    {
      TakeEvent(call, ev, p, k);
      ShowCall(call, p.(calls := p.calls[call.id := Absorb(cfg.text, p.calls[call.id], ev)]), k);
    }

    method Finish(call: CallObject, ev: LiveEvent, ghost p: Pane)
      requires Shows(p) && Distinct(p.order)
      requires call.id in calls && calls[call.id] == call && call.id in p.calls
      modifies `rows, `detail, `badge, call
      ensures Shows(Ingested(cfg, p, call.id, ev))
    {
      ghost var k := WhereIs(p, call.id);
      Update(call, ev, p, k);
      ghost var after := Absorb(cfg.text, p.calls[call.id], ev);
      SetBadge(Render(cfg, p.(calls := p.calls[call.id := after]), after));
    }

    method SetBadge(ghost p: Pane)
      requires Shows(p)
      modifies `badge
      ensures Shows(p.(badge := |p.calls|))
    {
      badge := |calls|;
      assert calls.Keys == p.calls.Keys;
      assert |calls| == |calls.Keys| && |p.calls| == |p.calls.Keys|;
    }

    method IngestEvent(ev: LiveEvent, ghost p: Pane)
      requires Shows(p) && Coherent(cfg, p) && ev.log.requestId != NO_ID
      modifies `order, `calls, `rows, `selected, `detail, `badge, calls.Values
      ensures ev.log.requestId in Open(cfg, p, ev).calls
      ensures Shows(Ingested(cfg, Open(cfg, p, ev), ev.log.requestId, ev))
    {
      OpenedIsThere(cfg, p, ev);
      var call := OpenCall(ev, p);
      Finish(call, ev, Open(cfg, p, ev));
    }

    /** `ingest`: an event that names no call is not for the table. */
    method IngestNamed(ev: LiveEvent, ghost p: Pane)
      requires Shows(p) && Coherent(cfg, p)
      modifies `order, `calls, `rows, `selected, `detail, `badge, calls.Values
      ensures Shows(Ingest(cfg, p, ev))
    {
      if ev.log.requestId != NO_ID {
        OpenedIsThere(cfg, p, ev);
        IngestEvent(ev, p);
      }
    }

    method OnNet(ev: LiveEvent)
      requires Valid()
      modifies this, calls.Values
      ensures Valid() && run == old(run) + [Net(ev)]
    {
      AlwaysCoherent(cfg, run);
      IngestNamed(ev, pane);
      Record(Net(ev));
    }

    method Refilter(ghost p: Pane)
      requires Shows(p)
      modifies `rows
      ensures Shows(ApplyNetFilter(cfg, p))
    {
      FilterRows(p);
    }

    method SetStatus(choice: Choice, ghost p: Pane)
      requires Shows(p)
      modifies `status, `rows
      ensures Shows(ApplyNetFilter(cfg, p.(status := choice)))
    {
      status := choice;
      Refilter(p.(status := choice));
    }

    method SetTyped(text: string, ghost p: Pane)
      requires Shows(p)
      modifies `typed, `rows
      ensures Shows(ApplyNetFilter(cfg, p.(typed := text)))
    {
      typed := text;
      Refilter(p.(typed := text));
    }

    method OnStatus(choice: Choice)
      requires Valid()
      modifies `status, `rows, `run, `pane
      ensures Valid() && run == old(run) + [PickStatus(choice)]
    {
      SetStatus(choice, pane);
      Record(PickStatus(choice));
    }

    method OnType(text: string)
      requires Valid()
      modifies `typed, `rows, `run, `pane
      ensures Valid() && run == old(run) + [Type(text)]
    {
      SetTyped(text, pane);
      Record(Type(text));
    }

    /** The mark goes from the row of the selected call. */
    method Unmark(ghost p: Pane)
      requires rows == p.rows && ShowsSelection(p.selected)
      modifies `rows
      ensures rows == if p.selected.Some? then Mark(p.rows, p.selected.value, false) else p.rows
    {
      if selected != null {
        rows := Mark(rows, selected.id, false);
      }
    }

    /** `select`: the mark moves to the row of this call, and the detail pane shows it. */
    method SelectCall(call: CallObject, ghost p: Pane, ghost k: nat)
      requires Shows(p) && k < |order| && order[k] == call
      modifies `rows, `selected, `detail
      ensures Shows(Select(p, call.id))
    {
      assert ShowsCall(p.calls, p.order, k);
      Unmark(p);
      selected := call;
      rows := Mark(rows, call.id, true);
      detail := Some(call.Value());
    }

    /** A click on a row selects the call it was made for; only rows of live calls are
        in the table. */
    method OnClick(call: CallObject)
      requires Valid() && call in order
      modifies `rows, `selected, `detail, `run, `pane
      ensures Valid() && run == old(run) + [Click(call.id)]
    {
      ghost var k :| 0 <= k < |order| && order[k] == call;
      SelectCall(call, pane, k);
      Record(Click(call.id));
    }
  }

  /** What `ingest` does once the call is open. */
  ghost function Ingested(cfg: Config, p: Pane, id: RequestId, ev: LiveEvent): Pane
    requires id in p.calls
  {
    var call := Absorb(cfg.text, p.calls[id], ev);
    var r := Render(cfg, p.(calls := p.calls[id := call]), call);
    r.(badge := |r.calls|)
  }

  lemma OpenedIsThere(cfg: Config, p: Pane, ev: LiveEvent)
    requires Coherent(cfg, p) && ev.log.requestId != NO_ID
    ensures ev.log.requestId in Open(cfg, p, ev).calls && Distinct(Open(cfg, p, ev).order)
    ensures Ingest(cfg, p, ev) == Ingested(cfg, Open(cfg, p, ev), ev.log.requestId, ev)
  {
    var id := ev.log.requestId;
    if id !in p.calls {
      OpeningACall(cfg, p, ev);
    }
  }
}
