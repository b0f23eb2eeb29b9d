/** The two queues of the device client: messages nobody has asked for yet, and
    calls of `next()` nobody has answered yet. */
module Mailbox {
  import opened Prelude

  /** What became of the promise one `next()` call returned. */
  datatype Outcome<M> = Waiting | Resolved(message: M) | Rejected

  datatype Event<M> = Arrive(message: M) | Next | Timeout(call: nat)

  /** Calls are numbered from 0 in the order they were made; outcomes[k] belongs to
      call k, and `waiters` holds the numbers of the calls still queued. */
  datatype Box<M> = Box(pending: seq<M>, waiters: seq<nat>, outcomes: seq<Outcome<M>>)

  /** A promise settles once: resolving one that has been rejected does nothing. */
  function Settle<M>(outcomes: seq<Outcome<M>>, call: nat, with: Outcome<M>): (r: seq<Outcome<M>>)
    ensures |r| == |outcomes|
  {
    if call < |outcomes| && outcomes[call].Waiting? then outcomes[call := with] else outcomes
  }

  function Step<M>(b: Box<M>, e: Event<M>): Box<M> {
    match e
    case Arrive(m) =>
      if b.waiters != [] then
        Box(b.pending, b.waiters[1..], Settle(b.outcomes, b.waiters[0], Resolved(m)))
      else Box(b.pending + [m], b.waiters, b.outcomes)
    case Next =>
      if b.pending != [] then
        Box(b.pending[1..], b.waiters, b.outcomes + [Resolved(b.pending[0])])
      else Box(b.pending, b.waiters + [|b.outcomes|], b.outcomes + [Waiting])
    case Timeout(k) =>
      // Only a queued call has a timer, and delivery clears it; the waiter itself
      // stays in the queue.
      Box(b.pending, b.waiters, Settle(b.outcomes, k, Rejected))
  }

  function After<M>(run: seq<Event<M>>): Box<M> {
    if run == [] then Box([], [], [])
    else Step(After(run[..|run| - 1]), run[|run| - 1])
  }

  // ----- the history of a run, read off its events ----------------------------

  function Messages<M>(run: seq<Event<M>>): seq<M> {
    if run == [] then []
    else
      var e := run[|run| - 1];
      Messages(run[..|run| - 1]) + if e.Arrive? then [e.message] else []
  }

  function Calls<M>(run: seq<Event<M>>): nat {
    if run == [] then 0
    else Calls(run[..|run| - 1]) + if run[|run| - 1].Next? then 1 else 0
  }

  /** At some moment the timer of call k ran out: the call had been made and its
      message, the k-th, had not arrived. */
  ghost predicate TimedOut<M(!new)>(run: seq<Event<M>>, k: nat) {
    exists i :: 0 <= i < |run| && TimesOutAt(run, i, k)
  }

  ghost predicate TimesOutAt<M>(run: seq<Event<M>>, i: nat, k: nat)
    requires i < |run|
  {
    run[i] == Timeout(k) && |Messages(run[..i])| <= k < Calls(run[..i])
  }

  ghost function Expected<M(!new)>(run: seq<Event<M>>, k: nat): Outcome<M> {
    if TimedOut(run, k) then Rejected
    else if k < |Messages(run)| then Resolved(Messages(run)[k])
    else Waiting
  }

  function Range(first: nat, end: nat): (r: seq<nat>)
    ensures |r| == if first < end then end - first else 0
    ensures forall i :: 0 <= i < |r| ==> r[i] == first + i
  {
    if first < end then seq(end - first, i requires 0 <= i => first + i) else []
  }

  lemma TimedOutGrows<M(!new)>(run: seq<Event<M>>, e: Event<M>, k: nat)
    ensures TimedOut(run + [e], k) <==>
            TimedOut(run, k) || (e == Timeout(k) && |Messages(run)| <= k < Calls(run))
  {
    var longer := run + [e];
    assert longer[..|run|] == run;
    forall i | 0 <= i < |run|
      ensures TimesOutAt(longer, i, k) <==> TimesOutAt(run, i, k)
    {
      assert longer[..i] == run[..i];
    }
    if e == Timeout(k) && |Messages(run)| <= k < Calls(run) {
      assert TimesOutAt(longer, |run|, k);
    }
    if TimedOut(run, k) {
      var i :| 0 <= i < |run| && TimesOutAt(run, i, k);
      assert TimesOutAt(longer, i, k);
    }
  }

  lemma OnlyMadeCallsTimeOut<M(!new)>(run: seq<Event<M>>, k: nat)
    requires TimedOut(run, k)
    ensures k < Calls(run)
  {
    var i :| 0 <= i < |run| && TimesOutAt(run, i, k);
    CallsGrow(run, i);
  }

  lemma {:induction false} CallsGrow<M>(run: seq<Event<M>>, i: nat)
    requires i <= |run|
    ensures Calls(run[..i]) <= Calls(run)
  {
    if i < |run| {
      CallsGrow(run[..|run| - 1], i);
      assert run[..|run| - 1][..i] == run[..i];
    } else {
      assert run[..i] == run;
    }
  }

  ghost predicate Queued<M(!new)>(run: seq<Event<M>>, b: Box<M>) {
    && b.pending == Messages(run)[Min(|Messages(run)|, Calls(run))..]
    && b.waiters == Range(|Messages(run)|, Calls(run))
    && |b.outcomes| == Calls(run)
  }

  ghost predicate Paired<M(!new)>(run: seq<Event<M>>, b: Box<M>) {
    && Queued(run, b)
    && (forall k :: 0 <= k < Calls(run) ==> b.outcomes[k] == Expected(run, k))
  }

  /** What one more event does to the history. */
  lemma HistoryGrows<M(!new)>(run: seq<Event<M>>, e: Event<M>)
    ensures Messages(run + [e]) == Messages(run) + if e.Arrive? then [e.message] else []
    ensures Calls(run + [e]) == Calls(run) + if e.Next? then 1 else 0
  {
    assert (run + [e])[..|run|] == run;
  }

  lemma ArrivalQueues<M(!new)>(run: seq<Event<M>>, b: Box<M>, m: M)
    requires Paired(run, b)
    ensures Queued(run + [Arrive(m)], Step(b, Arrive(m)))
  {
    HistoryGrows(run, Arrive(m));
    assert Step(b, Arrive(m)).waiters == Range(|Messages(run)| + 1, Calls(run));
  }

  lemma CallQueues<M(!new)>(run: seq<Event<M>>, b: Box<M>)
    requires Paired(run, b)
    ensures Queued(run + [Next], Step(b, Next))
  {
    HistoryGrows(run, Next);
    assert Step(b, Next).waiters == Range(|Messages(run)|, Calls(run) + 1);
  }

  lemma TimeoutQueues<M(!new)>(run: seq<Event<M>>, b: Box<M>, call: nat)
    requires Paired(run, b)
    ensures Queued(run + [Timeout(call)], Step(b, Timeout(call)))
  {
    HistoryGrows(run, Timeout(call));
  }

  /** The outcome of one call, one event later. */
  lemma OutcomePairs<M(!new)>(run: seq<Event<M>>, b: Box<M>, e: Event<M>, k: nat)
    requires Paired(run, b) && k < Calls(run + [e]) == |Step(b, e).outcomes|
    ensures Step(b, e).outcomes[k] == Expected(run + [e], k)
  {
    HistoryGrows(run, e);
    TimedOutGrows(run, e, k);
    if k == Calls(run) && TimedOut(run, k) {
      OnlyMadeCallsTimeOut(run, k);
    }
  }

  lemma PairingStep<M(!new)>(run: seq<Event<M>>, b: Box<M>, e: Event<M>)
    requires Paired(run, b)
    ensures Paired(run + [e], Step(b, e))
  {
    match e {
      case Arrive(m) => ArrivalQueues(run, b, m);
      case Next => CallQueues(run, b);
      case Timeout(call) => TimeoutQueues(run, b, call);
    }
    forall k | 0 <= k < Calls(run + [e])
      ensures Step(b, e).outcomes[k] == Expected(run + [e], k)
    {
      OutcomePairs(run, b, e, k);
    }
  }

  /** The pairing law, for every interleaving of arrivals, calls and timeouts: the
      k-th message belongs to the k-th call and to no other. What is not yet paired
      is in the queues, in order; a call whose timer ran out first stays rejected,
      keeps its place, and swallows its message. */
  lemma {:induction false} PairingLaw<M(!new)>(run: seq<Event<M>>)
    ensures Paired(run, After(run))
  {
    if run != [] {
      var before := run[..|run| - 1];
      PairingLaw(before);
      PairingStep(before, After(before), run[|run| - 1]);
      assert before + [run[|run| - 1]] == run;
    }
  }

  lemma EveryCallHasAnOutcome<M(!new)>(run: seq<Event<M>>)
    ensures |After(run).outcomes| == Calls(run)
  {
    PairingLaw(run);
  }

  /** The two queues are never both in use, and their sizes account for the
      difference between calls and messages. */
  lemma QueuesBalance<M(!new)>(run: seq<Event<M>>)
    ensures var b := After(run);
            && (b.pending == [] || b.waiters == [])
            && Calls(run) - |Messages(run)| == |b.waiters| - |b.pending|
  {
    PairingLaw(run);
  }

  /** Nothing is lost but what a timed-out call swallows: a message reaches a caller
      exactly when its call has been made and had not timed out before it came. */
  lemma LostExactlyToTimeouts<M(!new)>(run: seq<Event<M>>, k: nat)
    requires k < |Messages(run)|
    ensures var b := After(run);
            (k < |b.outcomes| && b.outcomes[k] == Resolved(Messages(run)[k]))
            <==> (k < Calls(run) && !TimedOut(run, k))
  {
    PairingLaw(run);
  }

  // ----- settled for good --------------------------------------------------------

  /** Calls may be added; what has settled stays as it settled. */
  ghost predicate KeepsSettled<M(!new)>(before: seq<Outcome<M>>, after: seq<Outcome<M>>) {
    |before| <= |after| && forall k :: 0 <= k < |before| && before[k] != Waiting ==> after[k] == before[k]
  }

  /** No arrival, call or timeout changes an outcome once a call has settled. */
  lemma SettledForGood<M(!new)>(b: Box<M>, e: Event<M>)
    ensures KeepsSettled(b.outcomes, Step(b, e).outcomes)
  {}

  lemma {:induction false} SettledForGoodOverRuns<M(!new)>(mail: seq<Event<M>>, more: seq<Event<M>>)
    ensures KeepsSettled(After(mail).outcomes, After(mail + more).outcomes)
    decreases |more|
  {
    if more == [] {
      assert mail + more == mail;
    } else {
      var n := |more| - 1;
      assert (mail + more)[..|mail + more| - 1] == mail + more[..n];
      SettledForGoodOverRuns(mail, more[..n]);
      SettledForGood(After(mail + more[..n]), more[n]);
    }
  }
}
