/** What holds of a live session over every interleaving of its critical sections:
    catching up without hole or duplicate, one fate for each question, and where both
    the replay and the hang-up fall short. */
module HubRuns {
  import opened Prelude
  import opened HubSession
  import LiveEvents

  datatype Step =
    | Publish(kind: Kind, logs: seq<LiveEvents.Log>, at: int)
    | Subscribe(w: WatcherId)
    | Announce(count: nat, at: int)
    | Cancel(w: WatcherId)
    | Receive(w: WatcherId)
    | End(reason: string, at: int)
    | Attach
    | Ask(q: Question)
    | Deliver(q: Question, a: Answer)
    | Forget(q: Question)

  /** No step panics: each keeps what the sends and closes of the next rely on. */
  function Next(s: Stream, step: Step): (t: Stream)
    requires Sound(s)
    ensures Sound(t)
  {
    match step
    case Publish(kind, logs, at) => Published(s, kind, logs, at)
    case Subscribe(w) => Subscribed(s, w)
    case Announce(count, at) => Announced(s, count, at)
    case Cancel(w) => Cancelled(s, w)
    case Receive(w) => Received(s, w)
    case End(reason, at) => Ended(s, reason, at)
    case Attach => Attached(s)
    case Ask(q) => Registered(s, q)
    case Deliver(q, a) => Delivered(s, q, a)
    case Forget(q) => Forgotten(s, q)
  }

  function After(s: Stream, run: seq<Step>): (t: Stream)
    requires Sound(s)
    ensures Sound(t)
    decreases |run|
  {
    if run == [] then s else Next(After(s, run[..|run| - 1]), run[|run| - 1])
  }

  // ----- numbers and channels -----------------------------------------------------

  function Numbered(events: seq<Event>): seq<Event> {
    if events == [] then []
    else
      var n := |events| - 1;
      Numbered(events[..n]) + if events[n].number != 0 then [events[n]] else []
  }

  /** What a watcher received or still has to: the numbered events it gets. */
  function Got(ch: Channel): seq<Event> {
    Numbered(ch.taken + ch.queue)
  }

  function Position(ch: Channel): nat {
    ch.start + |Got(ch)| + ch.lost
  }

  /** Events of the history numbered above lo and up to hi, in order, none twice. */
  ghost predicate Genuine(got: seq<Event>, history: seq<Event>, lo: nat, hi: nat) {
    && hi <= |history|
    && (forall i :: 0 <= i < |got| ==> lo < got[i].number <= hi && got[i] == history[got[i].number - 1])
    && (forall i, j :: 0 <= i < j < |got| ==> got[i].number < got[j].number)
  }

  ghost predicate Follows(ch: Channel, history: seq<Event>) {
    Genuine(Got(ch), history, ch.start, Position(ch))
  }

  lemma OfferGot(ch: Channel, ev: Event)
    requires !ch.closed
    ensures Got(Offer(ch, ev)) ==
            Got(ch) + if ev.number != 0 && |ch.queue| < EVENT_BUFFER then [ev] else []
    ensures Position(Offer(ch, ev)) == Position(ch) + if ev.number != 0 then 1 else 0
  {
    assert ch.taken + (ch.queue + [ev]) == (ch.taken + ch.queue) + [ev];
  }

  /** Up to date: whatever it was offered, it got or lost. */
  ghost predicate Current(ch: Channel, history: seq<Event>) {
    Follows(ch, history) && Position(ch) == |history|
  }

  lemma OfferFollows(ch: Channel, history: seq<Event>, ev: Event)
    requires !ch.closed && Current(ch, history) && ev.number == |history| + 1
    ensures Current(Offer(ch, ev), history + [ev])
  {
    OfferGot(ch, ev);
  }

  predicate Consecutive(events: seq<Event>, after: nat) {
    forall i :: 0 <= i < |events| ==> events[i].number == after + 1 + i
  }

  lemma {:induction false} OfferAllFollows(ch: Channel, history: seq<Event>, events: seq<Event>)
    requires !ch.closed && Current(ch, history) && Consecutive(events, |history|)
    ensures Current(OfferAll(ch, events), history + events)
    decreases |events|
  {
    if events == [] {
      assert history + events == history;
    } else {
      var n := |events| - 1;
      assert Consecutive(events[..n], |history|);
      OfferAllFollows(ch, history, events[..n]);
      OfferFollows(OfferAll(ch, events[..n]), history + events[..n], events[n]);
    }
  }

  lemma OfferUnnumbered(ch: Channel, ev: Event)
    requires !ch.closed && ev.number == 0
    ensures Got(OfferAll(ch, [ev])) == Got(ch) && Position(OfferAll(ch, [ev])) == Position(ch)
  {
    assert [ev][..0] == [] && OfferAll(ch, [ev]) == Offer(ch, ev);
    OfferGot(ch, ev);
  }

  // ----- the law of every run -------------------------------------------------------

  ghost predicate Chronicle(s: Stream) {
    s.number == |s.history| && Consecutive(s.history, 0)
  }

  /** What was published: the event that ends a session is not put into the ring. */
  function Played(s: Stream): seq<Event> {
    if s.ended && s.history != [] then s.history[..|s.history| - 1] else s.history
  }

  ghost predicate Ring(s: Stream) {
    s.recent == Last(RECENT_BUFFER, Played(s)) && s.dropped == |Played(s)| - |s.recent|
  }

  ghost predicate Fed(s: Stream) {
    forall w :: w in s.channels ==>
      Follows(s.channels[w], s.history) && (w in s.watchers ==> Current(s.channels[w], s.history))
  }

  ghost predicate Closed(s: Stream) {
    s.ended ==> s.history != [] && s.watchers == {} && s.pending == {}
  }

  ghost predicate Lawful(s: Stream) {
    Sound(s) && Chronicle(s) && Ring(s) && Fed(s) && Closed(s) && |s.watchers| <= MAX_WATCHERS
  }

  lemma BroadcastIsFed(s: Stream, events: seq<Event>)
    requires Sound(s) && Fed(s)
    requires Consecutive(events, |s.history|)
    ensures Fed(s.(channels := Broadcast(s, events), history := s.history + events))
  {
    forall w | w in s.channels
      ensures var ch := Broadcast(s, events)[w];
              Follows(ch, s.history + events) && (w in s.watchers ==> Current(ch, s.history + events))
    {
      if w in s.watchers {
        OfferAllFollows(s.channels[w], s.history, events);
      }
    }
  }

  lemma PublishIsLawful(s: Stream, kind: Kind, logs: seq<LiveEvents.Log>, at: int)
    requires Lawful(s)
    ensures Lawful(Published(s, kind, logs, at))
  {
    if !s.ended {
      var events := Messages(kind, logs, at, s.number);
      BroadcastIsFed(s, events);
    }
  }

  lemma AnnounceIsLawful(s: Stream, count: nat, at: int)
    requires Lawful(s)
    ensures Lawful(Announced(s, count, at))
  {
    var ev := Announcement(count, at);
    var t := Announced(s, count, at);
    forall w | w in s.channels
      ensures Follows(t.channels[w], s.history) && (w in s.watchers ==> Current(t.channels[w], s.history))
    {
      if w in s.watchers {
        OfferUnnumbered(s.channels[w], ev);
      }
    }
  }

  lemma StillFollows(ch: Channel, history: seq<Event>, ev: Event)
    requires Follows(ch, history)
    ensures Follows(ch, history + [ev])
  {}

  lemma LastEventFollows(ch: Channel, history: seq<Event>, ev: Event)
    requires !ch.closed && Current(ch, history) && ev.number == |history| + 1
    ensures Follows(Offer(ch, ev).(closed := true), history + [ev])
    ensures Current(Offer(ch, ev).(closed := true), history + [ev])
  {
    OfferFollows(ch, history, ev);
    assert Got(Offer(ch, ev).(closed := true)) == Got(Offer(ch, ev));
  }

  lemma EndIsFed(s: Stream, reason: string, at: int)
    requires Sound(s) && Fed(s) && s.number == |s.history| && !s.ended
    ensures Fed(Ended(s, reason, at))
  {
    var ev, t := FinalEvent(s, reason, at), Ended(s, reason, at);
    forall w | w in t.channels
      ensures Follows(t.channels[w], t.history)
    {
      if w in s.watchers {
        LastEventFollows(s.channels[w], s.history, ev);
      } else {
        StillFollows(s.channels[w], s.history, ev);
      }
    }
  }

  lemma EndIsLawful(s: Stream, reason: string, at: int)
    requires Lawful(s)
    ensures Lawful(Ended(s, reason, at))
  {
    if !s.ended {
      EndIsFed(s, reason, at);
      assert Played(Ended(s, reason, at)) == s.history;
    }
  }

  lemma ReceivingKeepsGot(ch: Channel)
    requires ch.queue != []
    ensures var after := ch.(queue := ch.queue[1..], taken := ch.taken + [ch.queue[0]]);
            Got(after) == Got(ch) && Position(after) == Position(ch)
  {
    assert (ch.taken + [ch.queue[0]]) + ch.queue[1..] == ch.taken + ch.queue;
  }

  lemma ReceiveIsLawful(s: Stream, w: WatcherId)
    requires Lawful(s)
    ensures Lawful(Received(s, w))
  {
    var t := Received(s, w);
    if t != s {
      ReceivingKeepsGot(s.channels[w]);
      assert forall v :: v in t.channels && v != w ==> t.channels[v] == s.channels[v];
    }
  }

  lemma NewIsCurrent(history: seq<Event>)
    ensures Current(Channel([], [], false, |history|, 0), history)
  {
    assert Got(Channel([], [], false, |history|, 0)) == [];
  }

  lemma SubscribeIsFed(s: Stream, w: WatcherId)
    requires Fed(s) && s.number == |s.history|
    ensures Fed(Subscribed(s, w))
  {
    var t := Subscribed(s, w);
    if t != s {
      NewIsCurrent(s.history);
      forall v | v in t.channels
        ensures Follows(t.channels[v], s.history) && (v in t.watchers ==> Current(t.channels[v], s.history))
      {
        assert v != w ==> t.channels[v] == s.channels[v];
      }
    }
  }

  lemma SubscribeIsLawful(s: Stream, w: WatcherId)
    requires Lawful(s)
    ensures Lawful(Subscribed(s, w))
  {
    SubscribeIsFed(s, w);
  }

  lemma CancelIsLawful(s: Stream, w: WatcherId)
    requires Lawful(s)
    ensures Lawful(Cancelled(s, w))
  {}

  lemma StepIsLawful(s: Stream, step: Step)
    requires Lawful(s)
    ensures Lawful(Next(s, step))
  {
    match step
    case Publish(kind, logs, at) => PublishIsLawful(s, kind, logs, at);
    case Subscribe(w) => SubscribeIsLawful(s, w);
    case Announce(count, at) => AnnounceIsLawful(s, count, at);
    case Cancel(w) => CancelIsLawful(s, w);
    case Receive(w) => ReceiveIsLawful(s, w);
    case End(reason, at) => EndIsLawful(s, reason, at);
    case _ =>
  }

  /** Over every run: numbers are given out without gaps, the ring holds the last 512
      events published and knows how many it let go, and each watcher's channel carries
      genuine events in order, short only of those it had no room for. */
  lemma {:induction false} RunsAreLawful(s: Stream, run: seq<Step>)
    requires Lawful(s)
    ensures Lawful(After(s, run))
    decreases |run|
  {
    if run != [] {
      RunsAreLawful(s, run[..|run| - 1]);
      StepIsLawful(After(s, run[..|run| - 1]), run[|run| - 1]);
    }
  }

  /** In particular from a new session on. */
  lemma EveryRunIsLawful(run: seq<Step>)
    ensures Lawful(After(FRESH, run))
  {
    assert Lawful(FRESH);
    RunsAreLawful(FRESH, run);
  }

  // ----- the bounds, in numbers ------------------------------------------------------

  ghost predicate QueuesAreBounded(s: Stream) {
    forall w :: w in s.channels ==> |s.channels[w].queue| <= 256
  }

  lemma {:induction false} OfferAllIsBounded(ch: Channel, events: seq<Event>)
    requires !ch.closed && |ch.queue| <= 256
    ensures |OfferAll(ch, events).queue| <= 256
    decreases |events|
  {
    if events != [] {
      OfferAllIsBounded(ch, events[..|events| - 1]);
    }
  }

  lemma StepKeepsQueuesBounded(s: Stream, step: Step)
    requires Sound(s) && QueuesAreBounded(s)
    ensures QueuesAreBounded(Next(s, step))
  {
    var t := Next(s, step);
    forall w | w in t.channels
      ensures |t.channels[w].queue| <= 256
    {
      if w in s.watchers && step.Publish? {
        OfferAllIsBounded(s.channels[w], Messages(step.kind, step.logs, step.at, s.number));
      } else if w in s.watchers && step.Announce? {
        OfferAllIsBounded(s.channels[w], [Announcement(step.count, step.at)]);
      }
    }
  }

  lemma {:induction false} QueuesOfEveryRun(run: seq<Step>)
    ensures QueuesAreBounded(After(FRESH, run))
    decreases |run|
  {
    if run != [] {
      QueuesOfEveryRun(run[..|run| - 1]);
      StepKeepsQueuesBounded(After(FRESH, run[..|run| - 1]), run[|run| - 1]);
    }
  }

  /** Over every run: at most 20 watchers, at most 256 events waiting for any of them, and
      while the session lives its ring is the last 512 events of the history. */
  lemma BoundsOfEveryRun(run: seq<Step>)
    ensures var s := After(FRESH, run);
            && |s.watchers| <= 20 && QueuesAreBounded(s)
            && (!s.ended ==>
                  s.recent == if |s.history| <= 512 then s.history else s.history[|s.history| - 512..])
  {
    QueuesOfEveryRun(run);
    EveryRunIsLawful(run);
  }

  // ----- what the history tells ------------------------------------------------------

  predicate EndedIn(run: seq<Step>)
    decreases |run|
  {
    run != [] && (EndedIn(run[..|run| - 1]) || run[|run| - 1].End?)
  }

  /** An event without its number. */
  datatype Entry = Entry(kind: Kind, at: int, log: Option<LiveEvents.Log>, reason: string, watchers: nat)

  function EntryOf(ev: Event): Entry {
    Entry(ev.kind, ev.at, ev.log, ev.reason, ev.watchers)
  }

  function Entries(events: seq<Event>): (r: seq<Entry>)
    ensures |r| == |events| && forall i :: 0 <= i < |r| ==> r[i] == EntryOf(events[i])
  {
    seq(|events|, i requires 0 <= i < |events| => EntryOf(events[i]))
  }

  /** A batch is told log by log, in order, under one kind and time; an empty one once. */
  function LogEntries(kind: Kind, logs: seq<LiveEvents.Log>, at: int): seq<Entry> {
    if logs == [] then []
    else [Entry(kind, at, Some(logs[0]), "", 0)] + LogEntries(kind, logs[1..], at)
  }

  function BatchEntries(kind: Kind, logs: seq<LiveEvents.Log>, at: int): seq<Entry> {
    if logs == [] then [Entry(kind, at, None, "", 0)] else LogEntries(kind, logs, at)
  }

  /** What a run publishes until it ends, and that it ends. */
  function Story(run: seq<Step>): seq<Entry>
    decreases |run|
  {
    if run == [] then []
    else
      var before, last := run[..|run| - 1], run[|run| - 1];
      if EndedIn(before) then Story(before)
      else if last.Publish? then Story(before) + BatchEntries(last.kind, last.logs, last.at)
      else if last.End? then Story(before) + [Entry(EndedEvent, last.at, None, last.reason, 0)]
      else Story(before)
  }

  lemma {:induction false} LogEntriesInOrder(kind: Kind, logs: seq<LiveEvents.Log>, at: int)
    ensures |LogEntries(kind, logs, at)| == |logs|
    ensures forall i :: 0 <= i < |logs| ==> LogEntries(kind, logs, at)[i] == Entry(kind, at, Some(logs[i]), "", 0)
  {
    if logs != [] {
      LogEntriesInOrder(kind, logs[1..], at);
    }
  }

  /** Event i of a batch has its kind, its time and log i; an empty batch is one event without
      a log. */
  lemma BatchIsTold(kind: Kind, logs: seq<LiveEvents.Log>, at: int, after: nat)
    ensures Entries(Messages(kind, logs, at, after)) == BatchEntries(kind, logs, at)
  {
    LogEntriesInOrder(kind, logs, at);
  }

  lemma EntriesAppend(a: seq<Event>, b: seq<Event>)
    ensures Entries(a + b) == Entries(a) + Entries(b)
  {}

  lemma StepIsTold(s: Stream, step: Step)
    requires Sound(s)
    ensures var t := Next(s, step);
            && t.ended == (s.ended || step.End?)
            && Entries(t.history) ==
               Entries(s.history) +
                 if s.ended then [] else if step.Publish? then BatchEntries(step.kind, step.logs, step.at)
                 else if step.End? then [Entry(EndedEvent, step.at, None, step.reason, 0)] else []
  {
    if !s.ended && step.Publish? {
      var batch := Messages(step.kind, step.logs, step.at, s.number);
      EntriesAppend(s.history, batch);
      BatchIsTold(step.kind, step.logs, step.at, s.number);
    } else if !s.ended && step.End? {
      EntriesAppend(s.history, [FinalEvent(s, step.reason, step.at)]);
    } else {
      assert Entries(s.history) + [] == Entries(s.history);
    }
  }

  /** Over every run the history tells exactly what was published before the end, every log
      of every batch in order, with its kind and time, and then the end with its reason. */
  lemma {:induction false} HistoryIsWhatWasPublished(run: seq<Step>)
    ensures var s := After(FRESH, run); s.ended == EndedIn(run) && Entries(s.history) == Story(run)
    decreases |run|
  {
    if run != [] {
      HistoryIsWhatWasPublished(run[..|run| - 1]);
      StepIsTold(After(FRESH, run[..|run| - 1]), run[|run| - 1]);
    }
  }

  function LogsTold(entries: seq<Entry>): seq<LiveEvents.Log> {
    if entries == [] then []
    else
      var n := |entries| - 1;
      LogsTold(entries[..n]) + if entries[n].log.Some? then [entries[n].log.value] else []
  }

  /** The logs given to `Publish` before the end, one batch behind the other. */
  function LogsPublished(run: seq<Step>): seq<LiveEvents.Log>
    decreases |run|
  {
    if run == [] then []
    else
      var before, last := run[..|run| - 1], run[|run| - 1];
      LogsPublished(before) + if last.Publish? && !EndedIn(before) then last.logs else []
  }

  lemma {:induction false} LogsToldAppend(a: seq<Entry>, b: seq<Entry>)
    ensures LogsTold(a + b) == LogsTold(a) + LogsTold(b)
  {
    if b == [] {
      assert a + b == a;
    } else {
      var n := |b| - 1;
      assert (a + b)[..|a + b| - 1] == a + b[..n];
      LogsToldAppend(a, b[..n]);
      Regroup(LogsTold(a), LogsTold(b[..n]), if b[n].log.Some? then [b[n].log.value] else []);
    }
  }

  lemma {:induction false} LogsOfABatch(kind: Kind, logs: seq<LiveEvents.Log>, at: int)
    ensures LogsTold(LogEntries(kind, logs, at)) == logs
  {
    if logs != [] {
      var first := [Entry(kind, at, Some(logs[0]), "", 0)];
      LogsOfABatch(kind, logs[1..], at);
      LogsToldAppend(first, LogEntries(kind, logs[1..], at));
      assert LogsTold(first) == [logs[0]];
    }
  }

  lemma {:induction false} LogsOfTheStory(run: seq<Step>)
    ensures LogsTold(Story(run)) == LogsPublished(run)
    decreases |run|
  {
    if run != [] {
      var before, last := run[..|run| - 1], run[|run| - 1];
      LogsOfTheStory(before);
      if !EndedIn(before) && last.Publish? {
        LogsToldAppend(Story(before), BatchEntries(last.kind, last.logs, last.at));
        LogsOfABatch(last.kind, last.logs, last.at);
      } else {
        assert LogsPublished(before) + [] == LogsPublished(before);
      }
    }
  }

  /** No log is lost, doubled or moved. */
  lemma LogsAreKeptInOrder(run: seq<Step>)
    ensures LogsTold(Entries(After(FRESH, run).history)) == LogsPublished(run)
  {
    HistoryIsWhatWasPublished(run);
    LogsOfTheStory(run);
  }

  // ----- catching up ----------------------------------------------------------------

  lemma {:induction false} LaterOfConsecutive(events: seq<Event>, after: nat, place: int)
    requires Consecutive(events, after)
    ensures Later(events, place) ==
            if place <= after then events else if place - after <= |events| then events[place - after..] else []
    decreases |events|
  {
    if events != [] {
      var n := |events| - 1;
      assert Consecutive(events[..n], after);
      LaterOfConsecutive(events[..n], after, place);
      assert events == events[..n] + [events[n]];
      if after < place <= after + n {
        assert events[place - after..] == events[..n][place - after..] + [events[n]];
      }
    }
  }

  lemma SuffixIsConsecutive(history: seq<Event>, first: nat)
    requires Consecutive(history, 0) && first <= |history|
    ensures Consecutive(history[first..], first)
  {}

  lemma RingIsTheEndOfHistory(s: Stream)
    requires Chronicle(s) && Ring(s) && !s.ended
    ensures s.dropped <= |s.history| && s.recent == s.history[s.dropped..]
    ensures Consecutive(s.recent, s.dropped) && (s.dropped > 0 ==> s.dropped < |s.history|)
  {
    assert Played(s) == s.history;
    SuffixIsConsecutive(s.history, s.dropped);
  }

  function Gone(dropped: nat, place: int): int {
    if dropped > place then dropped - place else 0
  }

  lemma SinceOnTheRing(history: seq<Event>, dropped: nat, place: int)
    requires dropped <= |history| && Consecutive(history[dropped..], dropped) && 0 < place
    requires dropped > 0 ==> dropped < |history|
    ensures Since(history[dropped..], place) ==
            if place <= |history| then (history[place + Gone(dropped, place)..], Gone(dropped, place)) else ([], 0)
  {
    LaterOfConsecutive(history[dropped..], dropped, place);
    if place <= |history| {
      var gone := Gone(dropped, place);
      assert history[dropped..][place + gone - dropped..] == history[place + gone..];
    }
  }

  /** What a watcher at `place` is told: the events after it that the ring still holds,
      and how many before those are gone. Together they are all that happened since. */
  lemma SinceAccountsForAll(s: Stream, place: int)
    requires Lawful(s) && !s.ended && 0 < place
    ensures var (backlog, missed) := Since(s.recent, place);
            if place <= s.number then
              missed == Gone(s.dropped, place) && place + missed + |backlog| == s.number
              && backlog == s.history[place + missed..]
            else backlog == [] && missed == 0
  {
    RingIsTheEndOfHistory(s);
    SinceOnTheRing(s.history, s.dropped, place);
  }

  lemma ExactCountIsEverything(got: seq<Event>, history: seq<Event>, lo: nat, hi: nat)
    requires Genuine(got, history, lo, hi) && lo + |got| == hi
    ensures got == history[lo..hi]
  {
    forall i | 0 <= i < |got|
      ensures got[i].number == lo + 1 + i
    {
      AtLeast(got, history, lo, hi, i);
      AtMost(got, history, lo, hi, i);
    }
  }

  lemma {:induction false} AtLeast(got: seq<Event>, history: seq<Event>, lo: nat, hi: nat, i: nat)
    requires Genuine(got, history, lo, hi) && i < |got|
    ensures got[i].number >= lo + 1 + i
  {
    if i > 0 {
      AtLeast(got, history, lo, hi, i - 1);
    }
  }

  lemma {:induction false} AtMost(got: seq<Event>, history: seq<Event>, lo: nat, hi: nat, i: nat)
    requires Genuine(got, history, lo, hi) && i < |got|
    ensures got[i].number <= hi - (|got| - 1 - i)
    decreases |got| - i
  {
    if i < |got| - 1 {
      AtMost(got, history, lo, hi, i + 1);
    }
  }

  /** The watcher is still subscribed, or the session ended under it; either way it has
      been offered everything so far. */
  ghost predicate Watching(s: Stream, w: WatcherId, start: nat) {
    && w in s.channels && s.channels[w].start == start && Current(s.channels[w], s.history)
    && (s.ended || w in s.watchers)
  }

  lemma EndStillWatching(s: Stream, w: WatcherId, start: nat, reason: string, at: int)
    requires Sound(s) && s.number == |s.history| && Watching(s, w, start)
    ensures Watching(Ended(s, reason, at), w, start)
  {
    if !s.ended {
      LastEventFollows(s.channels[w], s.history, FinalEvent(s, reason, at));
    }
  }

  lemma PublishStillWatching(s: Stream, w: WatcherId, start: nat, kind: Kind, logs: seq<LiveEvents.Log>, at: int)
    requires Sound(s) && s.number == |s.history| && Watching(s, w, start)
    ensures Watching(Published(s, kind, logs, at), w, start)
  {
    if !s.ended {
      OfferAllFollows(s.channels[w], s.history, Messages(kind, logs, at, s.number));
    }
  }

  lemma AnnounceStillWatching(s: Stream, w: WatcherId, start: nat, count: nat, at: int)
    requires Sound(s) && Watching(s, w, start)
    ensures Watching(Announced(s, count, at), w, start)
  {
    if w in s.watchers {
      OfferUnnumbered(s.channels[w], Announcement(count, at));
    }
  }

  lemma ReceiveStillWatching(s: Stream, w: WatcherId, start: nat, v: WatcherId)
    requires Watching(s, w, start)
    ensures Watching(Received(s, v), w, start)
  {
    if v == w && s.channels[w].queue != [] {
      ReceivingKeepsGot(s.channels[w]);
    }
  }

  lemma StepStillWatching(s: Stream, w: WatcherId, start: nat, step: Step)
    requires Sound(s) && s.number == |s.history| && Watching(s, w, start) && step != Cancel(w)
    ensures Watching(Next(s, step), w, start)
  {
    match step
    case Publish(kind, logs, at) => PublishStillWatching(s, w, start, kind, logs, at);
    case Announce(count, at) => AnnounceStillWatching(s, w, start, count, at);
    case Receive(v) => ReceiveStillWatching(s, w, start, v);
    case End(reason, at) => EndStillWatching(s, w, start, reason, at);
    case _ =>
  }

  lemma {:induction false} RunStillWatching(s: Stream, w: WatcherId, start: nat, run: seq<Step>)
    requires Lawful(s) && Watching(s, w, start) && Cancel(w) !in run
    ensures Watching(After(s, run), w, start)
    decreases |run|
  {
    if run != [] {
      var before := run[..|run| - 1];
      RunStillWatching(s, w, start, before);
      RunsAreLawful(s, before);
      StepStillWatching(After(s, before), w, start, run[|run| - 1]);
    }
  }

  lemma WatchStarts(s: Stream, w: WatcherId)
    requires Lawful(s) && MayWatch(s).None? && w !in s.channels
    ensures Watching(Subscribed(s, w), w, s.number) && Lawful(Subscribed(s, w))
  {
    SubscribeIsLawful(s, w);
  }

  /** Whatever happens after `Watch`, short of cancelling, the channel is offered all of it. */
  lemma WatchGoesOn(s: Stream, w: WatcherId, run: seq<Step>)
    requires Lawful(s) && MayWatch(s).None? && w !in s.channels && Cancel(w) !in run
    ensures var t := After(Subscribed(s, w), run);
            Watching(t, w, s.number) && Chronicle(t) && s.history <= t.history
  {
    WatchStarts(s, w);
    RunStillWatching(Subscribed(s, w), w, s.number, run);
    RunsAreLawful(Subscribed(s, w), run);
    HistoryOnlyGrows(Subscribed(s, w), run);
  }

  lemma JoinGenuine(backlog: seq<Event>, got: seq<Event>, history: seq<Event>, first: nat, start: nat, hi: nat)
    requires first <= start <= hi <= |history| && backlog == history[first..start]
    requires Consecutive(history, 0)
    requires Genuine(got, history, start, hi)
    ensures Genuine(backlog + got, history, first, hi)
  {
    var all, n := backlog + got, |backlog|;
    forall i | 0 <= i < |all|
      ensures first < all[i].number <= hi && all[i] == history[all[i].number - 1]
      ensures i < n <==> all[i].number <= start
    {
      assert all[i] == if i < n then history[first + i] else got[i - n];
    }
    forall i, j | 0 <= i < j < |all|
      ensures all[i].number < all[j].number
    {
      if j < n {
        assert all[i] == history[first + i] && all[j] == history[first + j];
      } else if n <= i {
        assert all[i] == got[i - n] && all[j] == got[j - n];
      }
    }
  }

  /** Where the backlog of a watcher at `place` starts. */
  function BacklogStart(s: Stream, place: int): nat {
    var n := |Since(s.recent, place).0|;
    if n <= s.number then s.number - n else 0
  }

  lemma BacklogIsHistory(s: Stream, place: int)
    requires Lawful(s) && !s.ended
    ensures BacklogStart(s, place) <= s.number && Since(s.recent, place).0 == s.history[BacklogStart(s, place)..]
  {
    if 0 < place {
      SinceAccountsForAll(s, place);
    }
  }

  lemma BacklogThenChannel(s: Stream, place: int, ch: Channel, history: seq<Event>)
    requires Lawful(s) && !s.ended && s.history <= history && ch.start == s.number && Current(ch, history)
    requires Consecutive(history, 0)
    ensures var seen, first := Since(s.recent, place).0 + Got(ch), BacklogStart(s, place);
            Genuine(seen, history, first, |history|) && first + |seen| + ch.lost == |history|
  {
    BacklogIsHistory(s, place);
    var first, backlog := BacklogStart(s, place), Since(s.recent, place).0;
    assert backlog == history[first..s.number];
    JoinGenuine(backlog, Got(ch), history, first, s.number, |history|);
  }

  /** Neither hole nor duplicate: whatever else happens to the session after `Watch`, the
      backlog and the channel together are events of the history in order, none twice,
      and with those the channel had no room for they are all of it; when it always had
      room they are exactly the history from where the backlog starts, up to and
      including the event that ends the session. */
  lemma WatchHasNoHoleAndNoDuplicate(s: Stream, w: WatcherId, place: int, run: seq<Step>)
    requires Lawful(s) && MayWatch(s).None? && w !in s.channels && Cancel(w) !in run
    ensures w in After(Subscribed(s, w), run).channels
    ensures var t := After(Subscribed(s, w), run); var ch := t.channels[w];
            var seen, first := Since(s.recent, place).0 + Got(ch), BacklogStart(s, place);
            && Genuine(seen, t.history, first, |t.history|) && first + |seen| + ch.lost == |t.history|
            && (ch.lost == 0 ==> seen == t.history[first..])
  {
    WatchGoesOn(s, w, run);
    var t := After(Subscribed(s, w), run);
    var ch := t.channels[w];
    BacklogThenChannel(s, place, ch, t.history);
    if ch.lost == 0 {
      var seen, first := Since(s.recent, place).0 + Got(ch), BacklogStart(s, place);
      ExactCountIsEverything(seen, t.history, first, |t.history|);
      SliceToEnd(t.history, first, |t.history|);
    }
  }

  lemma {:induction false} HistoryOnlyGrows(s: Stream, run: seq<Step>)
    requires Sound(s)
    ensures s.history <= After(s, run).history
    decreases |run|
  {
    if run != [] {
      HistoryOnlyGrows(s, run[..|run| - 1]);
      HistoryGrows(After(s, run[..|run| - 1]), run[|run| - 1]);
    }
  }

  lemma HistoryGrows(s: Stream, step: Step)
    requires Sound(s)
    ensures s.history <= Next(s, step).history
  {}

  // ----- reconnecting ---------------------------------------------------------------

  /** The id a browser hands back: that of the last event written to it, an announcement's
      zero included. */
  function LastId(before: int, written: seq<Event>): int {
    if written == [] then before else written[|written| - 1].number
  }

  /** How far a watcher that came back at `before` has got: the number of the last event
      written to it that has one. */
  function Place(before: int, written: seq<Event>): int {
    var numbered := Numbered(written);
    if numbered == [] then before else numbered[|numbered| - 1].number
  }

  lemma PlaceOfNumbered(before: int, written: seq<Event>)
    requires written != [] && written[|written| - 1].number != 0
    ensures Place(before, written) == written[|written| - 1].number
  {}

  /** A watcher that reconnects is caught up, told of or shown all that followed its place,
      exactly when nothing was written to it since it last came back, or the last thing
      written was an event of the history, or nothing has been published since. After an
      announcement of the watcher count it hands back zero and is taken for a newcomer: no
      backlog, and nothing missed. */
  lemma ReconnectCatchesUpExactly(s: Stream, written: seq<Event>, before: int)
    requires Lawful(s) && !s.ended && 0 < Place(before, written) <= s.number
    ensures var place := Place(before, written); var (backlog, missed) := Since(s.recent, LastId(before, written));
            place + missed + |backlog| == s.number <==>
            written == [] || written[|written| - 1].number != 0 || place == s.number
  {
    if written == [] {
      SinceAccountsForAll(s, before);
    } else if written[|written| - 1].number != 0 {
      PlaceOfNumbered(before, written);
      SinceAccountsForAll(s, LastId(before, written));
    }
  }

  lemma {:induction false} NumberedAppend(a: seq<Event>, b: seq<Event>)
    ensures Numbered(a + b) == Numbered(a) + Numbered(b)
  {
    if b == [] {
      assert a + b == a;
    } else {
      var n := |b| - 1;
      assert (a + b)[..|a + b| - 1] == a + b[..n];
      NumberedAppend(a, b[..n]);
      Regroup(Numbered(a), Numbered(b[..n]), if b[n].number != 0 then [b[n]] else []);
    }
  }

  lemma {:induction false} AllAreNumbered(events: seq<Event>, after: nat)
    requires Consecutive(events, after)
    ensures Numbered(events) == events
  {
    if events != [] {
      var n := |events| - 1;
      assert Consecutive(events[..n], after);
      AllAreNumbered(events[..n], after);
      assert events == events[..n] + [events[n]];
    }
  }

  /** What has been written to a watcher: its backlog and what it took from its channel. */
  function WrittenTo(s: Stream, place: int, ch: Channel): seq<Event> {
    Since(s.recent, place).0 + ch.taken
  }

  lemma NumberedWritten(s: Stream, place: int, ch: Channel)
    requires Lawful(s) && !s.ended
    ensures Numbered(WrittenTo(s, place, ch)) + Numbered(ch.queue) == Since(s.recent, place).0 + Got(ch)
  {
    var backlog := Since(s.recent, place).0;
    BacklogIsHistory(s, place);
    SuffixIsConsecutive(s.history, BacklogStart(s, place));
    AllAreNumbered(backlog, BacklogStart(s, place));
    NumberedAppend(backlog, ch.taken);
    NumberedAppend(ch.taken, ch.queue);
    Regroup(backlog, Numbered(ch.taken), Numbered(ch.queue));
  }

  /** Nothing is written to a watcher that has not been published. */
  lemma PlaceIsPublished(s: Stream, w: WatcherId, before: int, run: seq<Step>)
    requires Lawful(s) && MayWatch(s).None? && w !in s.channels && Cancel(w) !in run && before <= s.number
    ensures var t := After(Subscribed(s, w), run);
            w in t.channels && Place(before, WrittenTo(s, before, t.channels[w])) <= t.number
  {
    WatchHasNoHoleAndNoDuplicate(s, w, before, run);
    WatchGoesOn(s, w, run);
    var t := After(Subscribed(s, w), run);
    var ch := t.channels[w];
    var numbered, seen := Numbered(WrittenTo(s, before, ch)), Since(s.recent, before).0 + Got(ch);
    NumberedWritten(s, before, ch);
    if numbered != [] {
      assert seen[|numbered| - 1] == numbered[|numbered| - 1];
    }
  }

  /** The same over whatever happens while the watcher is there: it came back at `before`,
      was written its backlog and some of its channel, and dropped. */
  lemma ReconnectAfterAnyRun(s: Stream, w: WatcherId, before: int, run: seq<Step>)
    requires Lawful(s) && MayWatch(s).None? && w !in s.channels && Cancel(w) !in run && before <= s.number
    ensures var t := After(Subscribed(s, w), run);
            && w in t.channels
            && var written := WrittenTo(s, before, t.channels[w]);
            var place := Place(before, written); var (backlog, missed) := Since(t.recent, LastId(before, written));
            !t.ended && 0 < place ==>
              (place + missed + |backlog| == t.number <==>
               written == [] || written[|written| - 1].number != 0 || place == t.number)
  {
    PlaceIsPublished(s, w, before, run);
    var t := After(Subscribed(s, w), run);
    var written := WrittenTo(s, before, t.channels[w]);
    if !t.ended && 0 < Place(before, written) {
      SubscribeIsLawful(s, w);
      RunsAreLawful(Subscribed(s, w), run);
      ReconnectCatchesUpExactly(t, written, before);
    }
  }

  /** All that a watcher has been sent, whether it has taken it or not. */
  function SentTo(ch: Channel): seq<Event> {
    ch.taken + ch.queue
  }

  lemma OfferSends(ch: Channel, ev: Event)
    requires !ch.closed
    ensures SentTo(ch) <= SentTo(Offer(ch, ev))
    ensures |ch.queue| < EVENT_BUFFER ==> SentTo(Offer(ch, ev)) == SentTo(ch) + [ev]
  {
    assert ch.taken + (ch.queue + [ev]) == (ch.taken + ch.queue) + [ev];
  }

  lemma {:induction false} OfferAllSends(ch: Channel, events: seq<Event>)
    requires !ch.closed
    ensures SentTo(ch) <= SentTo(OfferAll(ch, events))
    decreases |events|
  {
    if events != [] {
      OfferAllSends(ch, events[..|events| - 1]);
      OfferSends(OfferAll(ch, events[..|events| - 1]), events[|events| - 1]);
    }
  }

  /** What was sent stays sent, and may be followed by more. */
  ghost predicate StillSent(s: Stream, t: Stream, w: WatcherId) {
    w in s.channels && w in t.channels && SentTo(s.channels[w]) <= SentTo(t.channels[w])
  }

  lemma ReceiveStillSent(s: Stream, w: WatcherId, v: WatcherId)
    requires w in s.channels
    ensures StillSent(s, Received(s, v), w)
  {
    var ch := s.channels[w];
    if v == w && ch.queue != [] {
      assert (ch.taken + [ch.queue[0]]) + ch.queue[1..] == ch.taken + ch.queue;
    }
  }

  lemma StepStillSent(s: Stream, w: WatcherId, step: Step)
    requires Sound(s) && w in s.channels
    ensures StillSent(s, Next(s, step), w)
  {
    match step
    case Publish(kind, logs, at) =>
      if w in s.watchers {
        OfferAllSends(s.channels[w], Messages(kind, logs, at, s.number));
      }
    case Announce(count, at) =>
      if w in s.watchers {
        OfferAllSends(s.channels[w], [Announcement(count, at)]);
      }
    case Receive(v) => ReceiveStillSent(s, w, v);
    case End(reason, at) =>
      if w in s.watchers {
        OfferSends(s.channels[w], FinalEvent(s, reason, at));
      }
    case _ =>
  }

  lemma {:induction false} RunStillSent(s: Stream, w: WatcherId, run: seq<Step>)
    requires Sound(s) && w in s.channels
    ensures StillSent(s, After(s, run), w)
    decreases |run|
  {
    if run != [] {
      RunStillSent(s, w, run[..|run| - 1]);
      StepStillSent(After(s, run[..|run| - 1]), w, run[|run| - 1]);
    }
  }

  /** The announcement follows what the watcher was sent before it. */
  lemma AnnouncementIsSent(s: Stream, w: WatcherId, count: nat, at: int)
    requires Sound(s) && w in s.watchers && |s.channels[w].queue| < EVENT_BUFFER
    ensures var t := Announced(s, count, at);
            w in t.channels && SentTo(t.channels[w]) == SentTo(s.channels[w]) + [Announcement(count, at)]
  {
    var ev := Announcement(count, at);
    assert [ev][..0] == [] && OfferAll(s.channels[w], [ev]) == Offer(s.channels[w], ev);
    OfferSends(s.channels[w], ev);
  }

  lemma TakenIsAsSent(ch: Channel, sent: seq<Event>, ev: Event)
    requires sent + [ev] <= SentTo(ch) && |ch.taken| == |sent| + 1
    ensures ch.taken == sent + [ev]
  {
    assert ch.taken == SentTo(ch)[..|ch.taken|];
  }

  lemma EndsWith(written: seq<Event>, taken: seq<Event>, ev: Event, place: int)
    ensures LastId(place, written + (taken + [ev])) == ev.number
  {}

  /** And every `Watch` ends in an announcement that reaches the watcher itself, unless its
      channel has filled up in between. Whatever happens before it and after it: when it is
      the last thing the watcher took, the watcher has lost its place, wherever that was. */
  lemma WatchingResetsThePlace(
    s: Stream, w: WatcherId, place: int, between: seq<Step>, count: nat, at: int, later: seq<Step>)
    requires Lawful(s) && MayWatch(s).None? && w !in s.channels && Cancel(w) !in between
    ensures w in After(Subscribed(s, w), between).channels
    ensures var t := After(Subscribed(s, w), between); var sent := SentTo(t.channels[w]);
            var u := After(Announced(t, count, at), later);
            && w in u.channels
            && (!t.ended && |t.channels[w].queue| < 256 && |u.channels[w].taken| == |sent| + 1 ==>
                  u.channels[w].taken == sent + [Event(WatcherEvent, at, 0, None, "", count)]
                  && LastId(place, WrittenTo(s, place, u.channels[w])) == 0)
  {
    WatchGoesOn(s, w, between);
    var t, ev := After(Subscribed(s, w), between), Announcement(count, at);
    var sent := SentTo(t.channels[w]);
    RunStillSent(Announced(t, count, at), w, later);
    var u := After(Announced(t, count, at), later);
    if !t.ended && |t.channels[w].queue| < 256 && |u.channels[w].taken| == |sent| + 1 {
      AnnouncementIsSent(t, w, count, at);
      TakenIsAsSent(u.channels[w], sent, ev);
      EndsWith(Since(s.recent, place).0, sent, ev, place);
    }
  }

  // ----- questions --------------------------------------------------------------------

  datatype Fate = Open | Answered(a: Answer) | DeviceLeft | GivenUp

  /** What became of a question: the first answer with its id, the end of the session or
      its asker giving up, whichever came first. */
  function FateOf(q: Question, run: seq<Step>): Fate
    decreases |run|
  {
    if run == [] then Open
    else
      var sofar, last := FateOf(q, run[..|run| - 1]), run[|run| - 1];
      if sofar != Open then sofar
      else if last.End? then DeviceLeft
      else if last.Deliver? && last.q == q then Answered(last.a)
      else if last == Forget(q) then GivenUp
      else Open
  }

  function ReplyFor(fate: Fate): Reply {
    match fate
    case Open => Reply(None, false)
    case Answered(a) => Reply(Some(a), false)
    case DeviceLeft => Reply(None, true)
    case GivenUp => Reply(None, false)
  }

  ghost predicate Met(s: Stream, q: Question, fate: Fate) {
    && q in s.replies && s.replies[q] == ReplyFor(fate)
    && (q in s.pending <==> fate == Open) && (s.ended ==> fate != Open)
  }

  lemma StepMeetsFate(s: Stream, q: Question, fate: Fate, step: Step)
    requires Sound(s) && Met(s, q, fate)
    ensures Met(Next(s, step), q, if fate != Open then fate else FateOf(q, [step]))
  {
    assert [step][..0] == [];
    assert FateOf(q, []) == Open;
  }

  lemma FateOfMore(q: Question, run: seq<Step>)
    requires run != []
    ensures var sofar := FateOf(q, run[..|run| - 1]);
            FateOf(q, run) == if sofar != Open then sofar else FateOf(q, [run[|run| - 1]])
  {
    var step := run[|run| - 1];
    assert [step][..0] == [];
    assert FateOf(q, []) == Open;
  }

  /** A question has one fate, whatever else is asked, answered or ended meanwhile: its
      channel holds its own first answer, or is closed because the session ended, never
      both, and it is pending only as long as neither has happened. */
  lemma {:induction false} QuestionsHaveOneFate(s: Stream, q: Question, run: seq<Step>)
    requires Sound(s) && MayAsk(s).None? && q !in s.replies
    ensures Met(After(Registered(s, q), run), q, FateOf(q, run))
    decreases |run|
  {
    if run != [] {
      QuestionsHaveOneFate(s, q, run[..|run| - 1]);
      FateOfMore(q, run);
      StepMeetsFate(After(Registered(s, q), run[..|run| - 1]), q, FateOf(q, run[..|run| - 1]), run[|run| - 1]);
    }
  }

  // ----- hanging up -------------------------------------------------------------------

  /** A device was attached after an end: `AttachDevice` does not ask whether the session
      is still live. */
  predicate AttachedLate(run: seq<Step>)
    decreases |run|
  {
    run != [] && (AttachedLate(run[..|run| - 1]) || (EndedIn(run[..|run| - 1]) && run[|run| - 1].Attach?))
  }

  lemma StepHangsUp(s: Stream, step: Step)
    requires Sound(s)
    ensures var t := Next(s, step);
            && t.ended == (s.ended || step.End?)
            && (t.ended && t.device <==> s.ended && (s.device || step.Attach?))
  {}

  /** An ended session lets go of its device, and so hangs up on it, except exactly when
      the end came between the claim and `AttachDevice`. */
  lemma {:induction false} EndedSessionsHoldADeviceExactly(run: seq<Step>)
    ensures var t := After(FRESH, run); t.ended == EndedIn(run) && (t.ended && t.device <==> AttachedLate(run))
    decreases |run|
  {
    if run != [] {
      EndedSessionsHoldADeviceExactly(run[..|run| - 1]);
      StepHangsUp(After(FRESH, run[..|run| - 1]), run[|run| - 1]);
    }
  }

  // ----- a session that is over --------------------------------------------------------

  lemma SubscribeIsNew(s: Stream, w: WatcherId, step: Step)
    requires Sound(s) && w !in s.channels && w in Next(s, step).channels
    ensures step == Subscribe(w) && MayWatch(s).None?
  {}

  /** Whoever subscribed and has not cancelled has been offered all there was since. */
  lemma {:induction false} UncancelledAreWatching(run: seq<Step>, w: WatcherId)
    requires w in After(FRESH, run).channels && Cancel(w) !in run
    ensures Watching(After(FRESH, run), w, After(FRESH, run).channels[w].start)
    decreases |run|
  {
    if run != [] {
      var before, step := run[..|run| - 1], run[|run| - 1];
      var s := After(FRESH, before);
      EveryRunIsLawful(before);
      if w in s.channels {
        UncancelledAreWatching(before, w);
        StepStillWatching(s, w, s.channels[w].start, step);
      } else {
        SubscribeIsNew(s, w, step);
        WatchStarts(s, w);
      }
    }
  }

  /** A channel is open only while it is watched, and the last event of an ended session says so. */
  ghost predicate LetsGo(s: Stream) {
    && (forall w :: w in s.channels && !s.channels[w].closed ==> w in s.watchers)
    && (s.ended ==> s.history != [] && s.history[|s.history| - 1].kind == EndedEvent)
  }

  lemma StepLetsGo(s: Stream, step: Step)
    requires Sound(s) && LetsGo(s)
    ensures LetsGo(Next(s, step))
  {
    var t := Next(s, step);
    forall w | w in t.channels && !t.channels[w].closed
      ensures w in t.watchers
    {
      if w in s.channels && s.channels[w].closed {
        assert w !in s.watchers;
      }
    }
  }

  lemma {:induction false} EveryRunLetsGo(run: seq<Step>)
    ensures LetsGo(After(FRESH, run))
    decreases |run|
  {
    if run != [] {
      EveryRunLetsGo(run[..|run| - 1]);
      StepLetsGo(After(FRESH, run[..|run| - 1]), run[|run| - 1]);
    }
  }

  /** Nobody waits on a session that has ended: its questions are settled, its channels are
      closed, and every watcher that had not cancelled was offered all events, the one that
      says it ended included. */
  lemma EndedSessionsAreFinished(run: seq<Step>, w: WatcherId)
    requires After(FRESH, run).ended
    ensures var s := After(FRESH, run);
            && s.watchers == {} && s.pending == {}
            && s.history != [] && s.history[|s.history| - 1].kind == EndedEvent
            && (w in s.channels ==>
                  s.channels[w].closed && (Cancel(w) !in run ==> Current(s.channels[w], s.history)))
  {
    EveryRunIsLawful(run);
    EveryRunLetsGo(run);
    if w in After(FRESH, run).channels && Cancel(w) !in run {
      UncancelledAreWatching(run, w);
    }
  }

  // ----- who is let in, and who is out ----------------------------------------------------

  /** The watcher subscribed while there was room and the session was live, and has neither
      cancelled nor been let go by the end since. */
  predicate IsWatching(run: seq<Step>, w: WatcherId)
    decreases |run|
  {
    run != [] &&
    var before, last := run[..|run| - 1], run[|run| - 1];
    if last.End? || last == Cancel(w) then false
    else
      || IsWatching(before, w)
      || (last == Subscribe(w) && !EndedIn(before) && |After(FRESH, before).watchers| < 20
          && w !in After(FRESH, before).channels)
  }

  lemma SubscribeWatches(s: Stream, w: WatcherId)
    ensures Subscribed(s, w).watchers ==
            if !s.ended && |s.watchers| < 20 && w !in s.channels then s.watchers + {w} else s.watchers
  {}

  lemma CancelUnwatches(s: Stream, w: WatcherId)
    requires Sound(s)
    ensures Cancelled(s, w).watchers == s.watchers - {w}
  {
    assert w !in s.watchers ==> s.watchers - {w} == s.watchers;
  }

  lemma EndUnwatches(s: Stream, reason: string, at: int)
    requires Sound(s) && Closed(s)
    ensures Ended(s, reason, at).watchers == {}
  {}

  lemma OthersWatchOn(s: Stream, step: Step)
    requires Sound(s) && !step.Subscribe? && !step.Cancel? && !step.End?
    ensures Next(s, step).watchers == s.watchers
  {}

  /** Who comes and who goes in one step. */
  lemma StepWatchers(s: Stream, step: Step)
    requires Sound(s) && Closed(s)
    ensures Next(s, step).watchers ==
            match step
            case Subscribe(w) =>
              if !s.ended && |s.watchers| < 20 && w !in s.channels then s.watchers + {w} else s.watchers
            case Cancel(w) => s.watchers - {w}
            case End(_, _) => {}
            case _ => s.watchers
  {
    match step
    case Subscribe(w) => SubscribeWatches(s, w);
    case Cancel(w) => CancelUnwatches(s, w);
    case End(reason, at) => EndUnwatches(s, reason, at);
    case _ => OthersWatchOn(s, step);
  }

  lemma {:induction false} WatchersAreThoseWatching(run: seq<Step>, w: WatcherId)
    ensures w in After(FRESH, run).watchers <==> IsWatching(run, w)
    decreases |run|
  {
    if run != [] {
      var before := run[..|run| - 1];
      WatchersAreThoseWatching(before, w);
      HistoryIsWhatWasPublished(before);
      EveryRunIsLawful(before);
      StepWatchers(After(FRESH, before), run[|run| - 1]);
    }
  }

  /** `Watch` is refused exactly when the session has ended, or else 20 are watching. */
  lemma WatchIsRefusedExactly(run: seq<Step>)
    ensures MayWatch(After(FRESH, run)) ==
            if EndedIn(run) then Some(NoSuchSession)
            else if |After(FRESH, run).watchers| >= 20 then Some(TooManyWatchers)
            else None
  {
    HistoryIsWhatWasPublished(run);
  }

  lemma {:induction false} DeviceIsThereOnceAttached(run: seq<Step>)
    requires !EndedIn(run)
    ensures After(FRESH, run).device <==> Attach in run
    decreases |run|
  {
    if run != [] {
      var before, last := run[..|run| - 1], run[|run| - 1];
      assert run == before + [last];
      DeviceIsThereOnceAttached(before);
      HistoryIsWhatWasPublished(before);
    }
  }

  /** `Ask` is refused exactly when the session has ended, or else no device was attached. */
  lemma AskIsRefusedExactly(run: seq<Step>)
    ensures MayAsk(After(FRESH, run)) ==
            if EndedIn(run) then Some(NoSuchSession)
            else if Attach !in run then Some(DeviceGone)
            else None
  {
    HistoryIsWhatWasPublished(run);
    if !EndedIn(run) {
      DeviceIsThereOnceAttached(run);
    }
  }

  /** A closed channel is left as it is, but for what is taken from it. */
  ghost predicate IsOut(s: Stream, w: WatcherId, sent: seq<Event>) {
    w in s.channels && s.channels[w].closed && w !in s.watchers && SentTo(s.channels[w]) == sent
  }

  lemma StepLeavesOut(s: Stream, w: WatcherId, sent: seq<Event>, step: Step)
    requires Sound(s) && IsOut(s, w, sent)
    ensures IsOut(Next(s, step), w, sent)
  {
    if step.Receive? && step.w == w && s.channels[w].queue != [] {
      var ch := s.channels[w];
      assert (ch.taken + [ch.queue[0]]) + ch.queue[1..] == ch.taken + ch.queue;
    }
  }

  /** A watcher that has cancelled is out for good: its channel is closed, and nothing is
      sent to it any more. */
  lemma {:induction false} CancelledIsOut(s: Stream, w: WatcherId, run: seq<Step>)
    requires Sound(s) && LetsGo(s) && w in s.channels
    ensures IsOut(After(Next(s, Cancel(w)), run), w, SentTo(s.channels[w]))
    decreases |run|
  {
    if run != [] {
      CancelledIsOut(s, w, run[..|run| - 1]);
      StepLeavesOut(After(Next(s, Cancel(w)), run[..|run| - 1]), w, SentTo(s.channels[w]), run[|run| - 1]);
    }
  }
}
