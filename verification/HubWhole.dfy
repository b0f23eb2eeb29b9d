/** The hub as a whole: the pairing codes of HubCodes and the sessions of HubSession, of one
    run. Ending a session, by `End` or by a sweep, is one step of both. */
module HubWhole {
  import opened Prelude
  import Codes = HubCodes
  import Live = HubSession
  import Runs = HubRuns

  /** `streams` also holds the sessions the hub has forgotten: their watchers still read
      what is left in their channels. */
  datatype Whole = Whole(book: Codes.Book, streams: map<Codes.SessionId, Live.Stream>)

  const NEW: Whole := Whole(Codes.EMPTY, map[])

  const EXPIRED: string := "the code expired before a device used it"
  const QUIET: string := "the device went quiet"

  /** What happens to one session. Ending it goes through the hub. */
  type Inner = s: Runs.Step | !s.End? witness Runs.Attach

  datatype Step =
    | Registry(step: Codes.Step, reason: string)
    | Inside(id: Codes.SessionId, inner: Inner, now: int)

  ghost predicate AllSound(w: Whole) {
    forall id :: id in w.streams ==> Live.Sound(w.streams[id])
  }

  function ReasonFor(s: Codes.Session, step: Codes.Step, given: string): string {
    if step.End? then given else if s.state == Codes.Waiting then EXPIRED else QUIET
  }

  /** What a step of the hub is to the session with this id. */
  function StepsOf(w: Whole, step: Step, id: Codes.SessionId): seq<Runs.Step> {
    match step
    case Registry(step, reason) =>
      if id in w.streams && Codes.EndsBetween(w.book, Codes.Next(w.book, step), id) then
        [Runs.End(ReasonFor(w.book.sessions[id], step, reason), step.now)]
      else []
    case Inside(other, inner, now) =>
      // Of a session the hub has forgotten only the channels are left.
      if id == other && id in w.streams && (id in w.book.sessions || inner.Receive?) then [inner] else []
  }

  /** What it is to the book: publishing and answering show that the device is there. */
  function BookSteps(w: Whole, step: Step): seq<Codes.Step> {
    match step
    case Registry(step, _) => [step]
    case Inside(id, inner, now) =>
      if id in w.book.sessions && w.book.sessions[id].state != Codes.Ended && (inner.Publish? || inner.Deliver?) then
        [Codes.Touch(id, now)]
      else []
  }

  function BookAfter(w: Whole, step: Step): Codes.Book {
    var steps := BookSteps(w, step);
    if steps == [] then w.book else Codes.Next(w.book, steps[0])
  }

  function StreamAfter(w: Whole, step: Step, id: Codes.SessionId): (s: Live.Stream)
    requires AllSound(w)
    ensures Live.Sound(s)
  {
    var steps := StepsOf(w, step, id);
    if id !in w.streams then Live.FRESH
    else if steps == [] then w.streams[id]
    else Runs.Next(w.streams[id], steps[0])
  }

  function Next(w: Whole, step: Step): (t: Whole)
    requires AllSound(w)
    ensures AllSound(t)
  {
    var b := BookAfter(w, step);
    Whole(b, map id | id in b.minted :: StreamAfter(w, step, id))
  }

  function After(run: seq<Step>): (w: Whole)
    ensures AllSound(w)
    decreases |run|
  {
    if run == [] then NEW else Next(After(run[..|run| - 1]), run[|run| - 1])
  }

  // ----- each part by itself ---------------------------------------------------------------

  function BookRun(run: seq<Step>): seq<Codes.Step>
    decreases |run|
  {
    if run == [] then []
    else BookRun(run[..|run| - 1]) + BookSteps(After(run[..|run| - 1]), run[|run| - 1])
  }

  function StreamRun(run: seq<Step>, id: Codes.SessionId): seq<Runs.Step>
    decreases |run|
  {
    if run == [] then []
    else StreamRun(run[..|run| - 1], id) + StepsOf(After(run[..|run| - 1]), run[|run| - 1], id)
  }

  lemma BookOneMore(run: seq<Codes.Step>, more: seq<Codes.Step>)
    requires |more| <= 1
    ensures Codes.After(run + more) == if more == [] then Codes.After(run) else Codes.Next(Codes.After(run), more[0])
  {
    if more == [] {
      assert run + more == run;
    } else {
      assert (run + more)[..|run|] == run;
    }
  }

  lemma StreamOneMore(run: seq<Runs.Step>, more: seq<Runs.Step>)
    requires |more| <= 1
    ensures Runs.After(Live.FRESH, run + more) ==
            if more == [] then Runs.After(Live.FRESH, run) else Runs.Next(Runs.After(Live.FRESH, run), more[0])
  {
    if more == [] {
      assert run + more == run;
    } else {
      assert (run + more)[..|run|] == run;
    }
  }

  /** The book lives through a run of its own, so all that is proved of books holds of it. */
  lemma {:induction false} BooksAreRuns(run: seq<Step>)
    ensures After(run).book == Codes.After(BookRun(run))
    decreases |run|
  {
    if run != [] {
      var before := run[..|run| - 1];
      BooksAreRuns(before);
      BookOneMore(BookRun(before), BookSteps(After(before), run[|run| - 1]));
    }
  }

  /** Ended, or ended and forgotten. */
  predicate IsOver(b: Codes.Book, id: Codes.SessionId) {
    id !in b.sessions || b.sessions[id].state == Codes.Ended
  }

  /** How the registry moves: no id comes back, no ended session is revived, and only ended
      ones are forgotten. */
  lemma OverForGood(b: Codes.Book, step: Codes.Step, id: Codes.SessionId)
    requires Codes.Agrees(b)
    ensures var t := Codes.Next(b, step);
            && b.minted <= t.minted
            && (id in b.minted ==> (IsOver(t, id) <==> IsOver(b, id) || Codes.EndsBetween(b, t, id)))
            && (id in t.minted && id !in b.minted ==> !IsOver(t, id))
  {}

  /** Of every session minted there is a stream, ended exactly when the book says so or has
      forgotten it. */
  ghost predicate InStep(w: Whole) {
    && w.streams.Keys == w.book.minted && Codes.Agrees(w.book)
    && forall id :: id in w.streams ==> InStepAt(w, id)
  }

  ghost predicate InStepAt(w: Whole, id: Codes.SessionId)
    requires id in w.streams
  {
    w.streams[id].ended <==> IsOver(w.book, id)
  }

  /** What a step of the registry makes of one stream. */
  lemma RegistryStream(w: Whole, step: Codes.Step, reason: string, id: Codes.SessionId)
    requires AllSound(w)
    ensures var s := StreamAfter(w, Registry(step, reason), id);
            s.ended <==>
            id in w.streams && (w.streams[id].ended || Codes.EndsBetween(w.book, Codes.Next(w.book, step), id))
  {}

  lemma RegistryInStep(w: Whole, step: Codes.Step, reason: string, id: Codes.SessionId)
    requires AllSound(w) && InStep(w)
    requires id in Next(w, Registry(step, reason)).streams
    ensures InStepAt(Next(w, Registry(step, reason)), id)
  {
    OverForGood(w.book, step, id);
    RegistryStream(w, step, reason, id);
    if id in w.streams {
      assert InStepAt(w, id);
    }
  }

  lemma InnerKeepsEnded(s: Live.Stream, inner: Inner)
    requires Live.Sound(s)
    ensures Runs.Next(s, inner).ended == s.ended
  {}

  lemma InsideInStep(w: Whole, step: Step, id: Codes.SessionId)
    requires AllSound(w) && InStep(w) && step.Inside?
    requires id in Next(w, step).streams
    ensures InStepAt(Next(w, step), id)
  {
    assert InStepAt(w, id);
    InnerKeepsEnded(w.streams[id], step.inner);
  }

  lemma StepInStep(w: Whole, step: Step)
    requires AllSound(w) && InStep(w)
    ensures InStep(Next(w, step))
  {
    var steps, t := BookSteps(w, step), Next(w, step);
    if steps != [] {
      Codes.StepAgrees(w.book, steps[0]);
    }
    forall id | id in t.streams
      ensures InStepAt(t, id)
    {
      match step
      case Registry(inner, reason) => RegistryInStep(w, inner, reason, id);
      case Inside(_, _, _) => InsideInStep(w, step, id);
    }
  }

  /** The two halves of the hub agree, in every state of every run, on which sessions are over. */
  lemma {:induction false} RunsInStep(run: seq<Step>)
    ensures InStep(After(run))
    decreases |run|
  {
    if run != [] {
      RunsInStep(run[..|run| - 1]);
      StepInStep(After(run[..|run| - 1]), run[|run| - 1]);
    }
  }

  lemma IdsStay(w: Whole, step: Step)
    requires Codes.Agrees(w.book)
    ensures w.book.minted <= BookAfter(w, step).minted
  {}

  /** So does each session. */
  lemma {:induction false} StreamsAreRuns(run: seq<Step>, id: Codes.SessionId)
    ensures id in After(run).streams ==> After(run).streams[id] == Runs.After(Live.FRESH, StreamRun(run, id))
    ensures id !in After(run).streams ==> StreamRun(run, id) == []
    decreases |run|
  {
    if run != [] {
      var before, step := run[..|run| - 1], run[|run| - 1];
      StreamsAreRuns(before, id);
      RunsInStep(before);
      IdsStay(After(before), step);
      StreamOneMore(StreamRun(before, id), StepsOf(After(before), step, id));
    }
  }

  // ----- over every run ---------------------------------------------------------------------

  /** A session that was ended, by `End` or by a sweep, whether the hub still knows it or not:
      nobody is left subscribed or waiting for an answer, every channel is closed, and every
      watcher that had not cancelled was offered all events up to the one that says so. */
  lemma EndingReachesEveryWatcher(run: seq<Step>, id: Codes.SessionId, w: Live.WatcherId)
    requires id in After(run).book.minted && IsOver(After(run).book, id)
    ensures id in After(run).streams
    ensures var s := After(run).streams[id];
            && s.ended && s.watchers == {} && s.pending == {}
            && s.history != [] && s.history[|s.history| - 1].kind == Live.EndedEvent
            && (w in s.channels ==>
                  && s.channels[w].closed
                  && (Runs.Cancel(w) !in StreamRun(run, id) ==> Runs.Current(s.channels[w], s.history)))
  {
    RunsInStep(run);
    StreamsAreRuns(run, id);
    assert InStepAt(After(run), id);
    Runs.EndedSessionsAreFinished(StreamRun(run, id), w);
  }

  /** And of one that was not, no watcher is let go unless it cancels. */
  lemma LiveSessionsKeepTheirWatchers(run: seq<Step>, id: Codes.SessionId, w: Live.WatcherId)
    requires id in After(run).book.minted && !IsOver(After(run).book, id)
    ensures id in After(run).streams && !After(run).streams[id].ended
    ensures var s := After(run).streams[id];
            w in s.channels && Runs.Cancel(w) !in StreamRun(run, id) ==>
              w in s.watchers && !s.channels[w].closed && Runs.Current(s.channels[w], s.history)
  {
    RunsInStep(run);
    StreamsAreRuns(run, id);
    assert InStepAt(After(run), id);
    if w in After(run).streams[id].channels && Runs.Cancel(w) !in StreamRun(run, id) {
      Runs.UncancelledAreWatching(StreamRun(run, id), w);
    }
  }

  lemma LastOfHistory(s: Live.Stream, reason: string, at: int)
    requires Live.Sound(s) && !s.ended
    ensures var history := Runs.Next(s, Runs.End(reason, at)).history;
            history == s.history + [Live.Event(Live.EndedEvent, at, s.number + 1, None, reason, 0)]
  {}

  /** Why a session ended is what its watchers are told: what `End` was given, that the code
      ran out, or that the device fell silent; and when. */
  lemma WatchersAreToldWhy(run: seq<Step>, step: Codes.Step, given: string, id: Codes.SessionId)
    requires var b := After(run).book; id in b.minted && Codes.EndsBetween(b, Codes.Next(b, step), id)
    ensures id in After(run).streams && id in Next(After(run), Registry(step, given)).streams
    ensures var before := After(run).streams[id].history;
            var after := Next(After(run), Registry(step, given)).streams[id].history;
            var waiting := After(run).book.sessions[id].state == Codes.Waiting;
            |after| == |before| + 1 && after[..|before|] == before
            && var last := after[|before|];
            && last.kind == Live.EndedEvent && last.at == step.now
            && last.reason == (if step.End? then given
                               else if waiting then "the code expired before a device used it"
                               else "the device went quiet")
  {
    var w := After(run);
    RunsInStep(run);
    assert InStepAt(w, id);
    IdsStay(w, Registry(step, given));
    LastOfHistory(w.streams[id], ReasonFor(w.book.sessions[id], step, given), step.now);
  }

  /** Publishing and answering are signs of life, as a touch is; nothing else that happens to a
      live session is, and none of it touches another. */
  lemma SignsOfLife(w: Whole, id: Codes.SessionId, inner: Inner, now: int, other: Codes.SessionId)
    requires AllSound(w) && id in w.book.sessions && w.book.sessions[id].state != Codes.Ended
    ensures var t := Next(w, Inside(id, inner, now)).book;
            && t.byCode == w.book.byCode && t.sessions.Keys == w.book.sessions.Keys
            && t.sessions[id] == w.book.sessions[id].(
                 lastSeen := if inner.Publish? || inner.Deliver? then now else w.book.sessions[id].lastSeen)
            && (other in w.book.sessions && other != id ==> t.sessions[other] == w.book.sessions[other])
  {}

  /** What happens inside a session happens to that one and no other; of one that the hub has
      forgotten nothing is left but what can still be taken from its channels. */
  lemma HappensToItsSession(w: Whole, id: Codes.SessionId, inner: Inner, now: int, other: Codes.SessionId)
    requires AllSound(w) && InStep(w) && id in w.streams && other in w.streams
    ensures var t := Next(w, Inside(id, inner, now));
            && id in t.streams && other in t.streams
            && (other != id ==> t.streams[other] == w.streams[other])
            && (id in w.book.sessions || inner.Receive? ==> t.streams[id] == Runs.Next(w.streams[id], inner))
            && (id !in w.book.sessions && !inner.Receive? ==> t.streams[id] == w.streams[id])
  {
    IdsStay(w, Inside(id, inner, now));
  }

  /** And a step of the hub happens to those sessions only that it ends. */
  lemma RegistryHappensToTheEnded(w: Whole, step: Codes.Step, given: string, id: Codes.SessionId)
    requires AllSound(w) && InStep(w) && id in w.streams
    requires !Codes.EndsBetween(w.book, Codes.Next(w.book, step), id)
    ensures var t := Next(w, Registry(step, given));
            id in t.streams && t.streams[id] == w.streams[id] && t.book == Codes.Next(w.book, step)
  {
    IdsStay(w, Registry(step, given));
  }
}
