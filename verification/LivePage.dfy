/** The two scripts of the live page together: the log list forwards network events to
    the table before it looks at its own Pause. */
module LivePage {
  import opened Prelude
  import opened LiveEvents
  import LogPane
  import NetPane
  import NetTable

  /** What happens to the page: something the log list handles, or something the
      network table handles by itself. */
  datatype Input = ToLog(log: LogPane.Input) | ToNet(net: NetPane.Input)

  function LogInputs(run: seq<Input>): seq<LogPane.Input> {
    if run == [] then []
    else
      var e := run[|run| - 1];
      LogInputs(run[..|run| - 1]) + if e.ToLog? then [e.log] else []
  }

  function NetInputs(run: seq<Input>): seq<NetPane.Input> {
    if run == [] then []
    else
      var e := run[|run| - 1];
      NetInputs(run[..|run| - 1]) +
        if e.ToNet? then [e.net]
        else if e.log.Logged? && e.log.ev.log.isNetworkCall then [NetPane.Net(e.log.ev)]
        else []
  }

  /** The network events among those that arrived. */
  function NetworkEvents(evs: seq<LiveEvent>): seq<LiveEvent> {
    if evs == [] then []
    else
      NetworkEvents(evs[..|evs| - 1]) + if evs[|evs| - 1].log.isNetworkCall then [evs[|evs| - 1]] else []
  }

  /** Events reach the table only through the log list. */
  predicate FromTheStream(run: seq<Input>) {
    forall i :: 0 <= i < |run| ==> !(run[i].ToNet? && run[i].net.Net?)
  }

  lemma InputsGrow(run: seq<Input>, e: Input)
    ensures LogInputs(run + [e]) == LogInputs(run) + if e.ToLog? then [e.log] else []
    ensures NetInputs(run + [e]) == NetInputs(run) +
              if e.ToNet? then [e.net]
              else if e.log.Logged? && e.log.ev.log.isNetworkCall then [NetPane.Net(e.log.ev)]
              else []
  {
    assert (run + [e])[..|run|] == run;
  }

  lemma ForwardingStep(before: seq<Input>, e: Input)
    requires !(e.ToNet? && e.net.Net?)
    requires NetPane.NetEvents(NetInputs(before)) == NetworkEvents(LogPane.Arrived(LogInputs(before)))
    ensures NetPane.NetEvents(NetInputs(before + [e])) == NetworkEvents(LogPane.Arrived(LogInputs(before + [e])))
  {
    InputsGrow(before, e);
    var net, log := NetInputs(before), LogInputs(before);
    assert net + [] == net && log + [] == log;
    assert NetPane.NetEvents(net) + [] == NetPane.NetEvents(net);
    var arrived := LogPane.Arrived(log);
    assert arrived + [] == arrived && NetworkEvents(arrived) + [] == NetworkEvents(arrived);
  }

  /** The table of every run is the fold over all the network events that arrived, those
      still queued for the log list included: no pause, click, status button or typing
      influences which calls are held or what they contain. */
  lemma PauseNeverReachesTheTable(
    cfg: LogPane.Config, levels: set<string>, netCfg: NetPane.Config, run: seq<Input>)
    requires FromTheStream(run)
    ensures var p := LogPane.After(cfg, levels, LogInputs(run));
            NetPane.SameCalls(
              NetPane.After(netCfg, NetInputs(run)),
              NetPane.After(netCfg, NetPane.Nets(NetworkEvents(LogPane.Added(LogInputs(run)) + p.queued))))
  {
    LogPane.NothingIsLost(cfg, levels, LogInputs(run));
    ForwardingIsExact(run);
    NetPane.CallsFollowTheEvents(netCfg, NetInputs(run));
  }

  /** The table is given exactly the network events that arrived, in order. */
  lemma {:induction false} ForwardingIsExact(run: seq<Input>)
    requires FromTheStream(run)
    ensures NetPane.NetEvents(NetInputs(run)) == NetworkEvents(LogPane.Arrived(LogInputs(run)))
  {
    if run != [] {
      var before, e := run[..|run| - 1], run[|run| - 1];
      ForwardingIsExact(before);
      ForwardingStep(before, e);
      assert before + [e] == run;
    }
  }

  class Page {
    const log: LogPane.LogList
    const net: NetTable.NetworkTable
    ghost var run: seq<Input>

    ghost predicate Valid()
      reads this, log, net, net.order
    {
      && log.Valid() && net.Valid()
      && log.run == LogInputs(run) && net.run == NetInputs(run) && FromTheStream(run)
    }

    constructor (log: LogPane.LogList, net: NetTable.NetworkTable)
      requires log.Valid() && net.Valid() && log.run == [] && net.run == []
      ensures Valid() && run == [] && this.log == log && this.net == net
    {
      this.log, this.net, run := log, net, [];
    }

    /** A network event goes to the table. */
    method Forward(ev: LiveEvent)
      requires net.Valid()
      modifies net, net.calls.Values
      ensures net.Valid()
      ensures net.run == old(net.run) + if ev.log.isNetworkCall then [NetPane.Net(ev)] else []
    {
      if ev.log.isNetworkCall {
        net.OnNet(ev);
      }
    }

    /** The 'log' event of the stream. */
    method OnLog(ev: LiveEvent)
      requires Valid()
      modifies this, log, net, net.calls.Values
      ensures Valid() && run == old(run) + [ToLog(LogPane.Logged(ev))]
    {
      InputsGrow(run, ToLog(LogPane.Logged(ev)));
      Forward(ev);
      log.OnLog(ev);
      run := run + [ToLog(LogPane.Logged(ev))];
    }

    /** What the log list handles by itself. */
    ghost method RecordLog(input: LogPane.Input)
      requires log.Valid() && net.Valid() && !input.Logged?
      requires log.run == LogInputs(run) + [input] && net.run == NetInputs(run) && FromTheStream(run)
      modifies `run
      ensures Valid() && run == old(run) + [ToLog(input)]
    {
      InputsGrow(run, ToLog(input));
      assert NetInputs(run) + [] == NetInputs(run);
      run := run + [ToLog(input)];
    }

    /** What the table handles by itself. */
    ghost method RecordNet(input: NetPane.Input)
      requires log.Valid() && net.Valid() && !input.Net?
      requires log.run == LogInputs(run) && net.run == NetInputs(run) + [input] && FromTheStream(run)
      modifies `run
      ensures Valid() && run == old(run) + [ToNet(input)]
    {
      InputsGrow(run, ToNet(input));
      assert LogInputs(run) + [] == LogInputs(run);
      run := run + [ToNet(input)];
    }

    method OnPause()
      requires Valid()
      modifies `run, log
      ensures Valid() && run == old(run) + [ToLog(LogPane.TogglePause)]
    {
      log.OnPause();
      RecordLog(LogPane.TogglePause);
    }

    method OnClear()
      requires Valid()
      modifies `run, log
      ensures Valid() && run == old(run) + [ToLog(LogPane.Clear)]
    {
      log.OnClear();
      RecordLog(LogPane.Clear);
    }

    method OnLevel(level: string)
      requires Valid()
      modifies `run, log
      ensures Valid() && run == old(run) + [ToLog(LogPane.ToggleLevel(level))]
    {
      log.OnLevel(level);
      RecordLog(LogPane.ToggleLevel(level));
    }

    method OnHighlight(typed: string)
      requires Valid()
      modifies `run, log
      ensures Valid() && run == old(run) + [ToLog(LogPane.Highlight(typed))]
    {
      log.OnHighlight(typed);
      RecordLog(LogPane.Highlight(typed));
    }

    method OnConnected(missed: nat)
      requires Valid()
      modifies `run, log
      ensures Valid() && run == old(run) + [ToLog(LogPane.Connected(missed))]
    {
      log.OnConnected(missed);
      RecordLog(LogPane.Connected(missed));
    }

    method OnClick(call: NetTable.CallObject)
      requires Valid() && call in net.order
      modifies `run, net
      ensures Valid() && run == old(run) + [ToNet(NetPane.Click(call.id))]
    {
      net.OnClick(call);
      RecordNet(NetPane.Click(call.id));
    }

    method OnStatus(choice: NetPane.Choice)
      requires Valid()
      modifies `run, net
      ensures Valid() && run == old(run) + [ToNet(NetPane.PickStatus(choice))]
    {
      net.OnStatus(choice);
      RecordNet(NetPane.PickStatus(choice));
    }

    method OnType(text: string)
      requires Valid()
      modifies `run, net
      ensures Valid() && run == old(run) + [ToNet(NetPane.Type(text))]
    {
      net.OnType(text);
      RecordNet(NetPane.Type(text));
    }
  }
}
