/** One live session of internal/live/hub.go: the events a device publishes, the replay
    ring, the watchers that follow it, and the questions put to the device. Every step
    below is one critical section, so a run is any interleaving of them. */
module HubSession {
  import opened Prelude
  import LiveEvents

  const RECENT_BUFFER: nat := 512
  const EVENT_BUFFER: nat := 256
  const MAX_WATCHERS: nat := 20

  datatype Kind = LogEvent | EndedEvent | DeviceEvent | WatcherEvent

  datatype Event = Event(
    kind: Kind, at: int, number: nat, log: Option<LiveEvents.Log>, reason: string, watchers: nat)

  /** A watcher's channel. A closed one may still be drained. `taken` is what the watcher
      has received; `start` (the last number given out when it was made) and `lost` (the
      numbered events that found it full) are kept for the proofs only. */
  datatype Channel = Channel(queue: seq<Event>, taken: seq<Event>, closed: bool, start: nat, lost: nat)

  datatype WatcherId = WatcherId(n: nat)

  datatype Question = Question(id: string)

  datatype Answer = Answer(json: string)

  /** The reply channel of a question, which has room for one answer. */
  datatype Reply = Reply(answer: Option<Answer>, closed: bool)

  /** The fields of a session; channels and replies also hold those the session has let
      go of, since their owners still read them. `history` is every numbered event. */
  datatype Stream = Stream(
    ended: bool,
    number: nat,
    recent: seq<Event>,
    dropped: nat,
    channels: map<WatcherId, Channel>,
    watchers: set<WatcherId>,
    device: bool,
    replies: map<Question, Reply>,
    pending: set<Question>,
    history: seq<Event>)

  const FRESH: Stream := Stream(false, 0, [], 0, map[], {}, false, map[], {}, [])

  datatype Refusal = NoSuchSession | TooManyWatchers | DeviceGone

  // ----- the steps --------------------------------------------------------------

  /** A send in a select with a default. Sending on a closed channel panics. */
  function Offer(ch: Channel, ev: Event): Channel
    requires !ch.closed
  {
    if |ch.queue| < EVENT_BUFFER then ch.(queue := ch.queue + [ev])
    else ch.(lost := ch.lost + if ev.number != 0 then 1 else 0)
  }

  function OfferAll(ch: Channel, events: seq<Event>): (r: Channel)
    requires !ch.closed
    ensures !r.closed && r.start == ch.start && r.taken == ch.taken
    decreases |events|
  {
    if events == [] then ch
    else Offer(OfferAll(ch, events[..|events| - 1]), events[|events| - 1])
  }

  /** Only the session's watchers are sent to, and they are open; only open questions
      are answered or closed. This is what keeps every step from panicking. */
  ghost predicate Sound(s: Stream) {
    && (forall w :: w in s.watchers ==> w in s.channels && !s.channels[w].closed)
    && (forall q :: q in s.pending ==> q in s.replies && s.replies[q] == Reply(None, false))
  }

  function Messages(kind: Kind, logs: seq<LiveEvents.Log>, at: int, after: nat): (r: seq<Event>)
    ensures |r| == if logs == [] then 1 else |logs|
    ensures forall i :: 0 <= i < |r| ==> r[i].number == after + 1 + i
  {
    if logs == [] then [Event(kind, at, after + 1, None, "", 0)]
    else seq(|logs|, i requires 0 <= i < |logs| => Event(kind, at, after + 1 + i, Some(logs[i]), "", 0))
  }

  function Broadcast(s: Stream, events: seq<Event>): map<WatcherId, Channel>
    requires Sound(s)
  {
    map w | w in s.channels :: if w in s.watchers then OfferAll(s.channels[w], events) else s.channels[w]
  }

  function Published(s: Stream, kind: Kind, logs: seq<LiveEvents.Log>, at: int): (t: Stream)
    requires Sound(s)
    ensures Sound(t)
  {
    if s.ended then s
    else
      var events := Messages(kind, logs, at, s.number);
      var all := s.recent + events;
      s.(number := s.number + |events|, recent := Last(RECENT_BUFFER, all),
         dropped := s.dropped + |all| - |Last(RECENT_BUFFER, all)|,
         channels := Broadcast(s, events), history := s.history + events)
  }

  function MayWatch(s: Stream): Option<Refusal> {
    if s.ended then Some(NoSuchSession)
    else if |s.watchers| >= MAX_WATCHERS then Some(TooManyWatchers)
    else None
  }

  /** The first half of `Watch`; w is the channel made for it, so it is new. */
  function Subscribed(s: Stream, w: WatcherId): (t: Stream)
    ensures Sound(s) ==> Sound(t)
  {
    if MayWatch(s).Some? || w in s.channels then s
    else s.(watchers := s.watchers + {w}, channels := s.channels[w := Channel([], [], false, s.number, 0)])
  }

  function Announcement(count: nat, at: int): Event {
    Event(WatcherEvent, at, 0, None, "", count)
  }

  function Announced(s: Stream, count: nat, at: int): (t: Stream)
    requires Sound(s)
    ensures Sound(t)
  {
    s.(channels := Broadcast(s, [Announcement(count, at)]))
  }

  function Cancelled(s: Stream, w: WatcherId): (t: Stream)
    requires Sound(s)
    ensures Sound(t)
  {
    if w !in s.watchers then s
    else s.(watchers := s.watchers - {w}, channels := s.channels[w := s.channels[w].(closed := true)])
  }

  /** A watcher takes the next event from its channel. */
  function Received(s: Stream, w: WatcherId): (t: Stream)
    ensures Sound(s) ==> Sound(t)
  {
    if w !in s.channels || s.channels[w].queue == [] then s
    else
      var ch := s.channels[w];
      s.(channels := s.channels[w := ch.(queue := ch.queue[1..], taken := ch.taken + [ch.queue[0]])])
  }

  function FinalEvent(s: Stream, reason: string, at: int): Event {
    Event(EndedEvent, at, s.number + 1, None, reason, 0)
  }

  /** The channels once these watchers have been offered the last event and let go. */
  function Finished(channels: map<WatcherId, Channel>, watchers: set<WatcherId>, last: Event): map<WatcherId, Channel>
    requires forall w :: w in watchers && w in channels ==> !channels[w].closed
  {
    map w | w in channels :: if w in watchers then Offer(channels[w], last).(closed := true) else channels[w]
  }

  function Dismissed(replies: map<Question, Reply>, pending: set<Question>): map<Question, Reply> {
    map q | q in replies :: if q in pending then Reply(None, true) else replies[q]
  }

  function Ended(s: Stream, reason: string, at: int): (t: Stream)
    requires Sound(s)
    ensures Sound(t)
  {
    if s.ended then s
    else
      var last := FinalEvent(s, reason, at);
      Stream(true, s.number + 1, s.recent, s.dropped, Finished(s.channels, s.watchers, last), {}, false,
             Dismissed(s.replies, s.pending), {}, s.history + [last])
  }

  function Attached(s: Stream): (t: Stream)
    ensures Sound(s) ==> Sound(t)
  {
    s.(device := true)
  }

  function MayAsk(s: Stream): Option<Refusal> {
    if s.ended then Some(NoSuchSession) else if !s.device then Some(DeviceGone) else None
  }

  /** The first half of `Ask`; the id is newly drawn. */
  function Registered(s: Stream, q: Question): (t: Stream)
    ensures Sound(s) ==> Sound(t)
  {
    if MayAsk(s).Some? || q in s.replies then s
    else s.(pending := s.pending + {q}, replies := s.replies[q := Reply(None, false)])
  }

  function Delivered(s: Stream, q: Question, a: Answer): (t: Stream)
    ensures Sound(s) ==> Sound(t)
  {
    if s.ended || q !in s.pending then s
    else s.(pending := s.pending - {q}, replies := s.replies[q := Reply(Some(a), false)])
  }

  /** `Ask` leaving, by whichever path. */
  function Forgotten(s: Stream, q: Question): (t: Stream)
    ensures Sound(s) ==> Sound(t)
  {
    s.(pending := s.pending - {q})
  }

  /** `since`. */
  function Since(recent: seq<Event>, after: int): (seq<Event>, int) {
    if after <= 0 then ([], 0)
    else
      (Later(recent, after),
       if recent != [] && recent[0].number > after + 1 then recent[0].number - after - 1 else 0)
  }

  function Later(events: seq<Event>, after: int): seq<Event> {
    if events == [] then []
    else
      var n := |events| - 1;
      Later(events[..n], after) + if events[n].number > after then [events[n]] else []
  }

  // ----- the session as the hub holds it ----------------------------------------

  class Session {
    var ended: bool
    var number: nat
    var recent: seq<Event>
    var dropped: nat
    var channels: map<WatcherId, Channel>
    var watchers: set<WatcherId>
    var device: bool
    var replies: map<Question, Reply>
    var pending: set<Question>
    ghost var history: seq<Event>

    ghost function Value(): Stream
      reads this
    {
      Stream(ended, number, recent, dropped, channels, watchers, device, replies, pending, history)
    }

    constructor ()
      ensures Value() == FRESH
    {
      ended, number, recent, dropped := false, 0, [], 0;
      channels, watchers, device := map[], {}, false;
      replies, pending, history := map[], {}, [];
    }

    method Remember(ev: Event)
      modifies `recent, `dropped
      ensures recent == Last(RECENT_BUFFER, old(recent) + [ev])
      ensures dropped == old(dropped) + |old(recent)| + 1 - |recent|
    {
      recent := recent + [ev];
      if |recent| > RECENT_BUFFER {
        dropped := dropped + (|recent| - RECENT_BUFFER);
        recent := recent[|recent| - RECENT_BUFFER..];
      }
    }

    method EventsSince(after: int) returns (out: seq<Event>, missed: int)
      ensures (out, missed) == Since(recent, after)
    {
      out, missed := [], 0;
      if after <= 0 {
        return;
      }
      for i := 0 to |recent|
        invariant out == Later(recent[..i], after)
      {
        assert recent[..i + 1][..i] == recent[..i];
        if recent[i].number > after {
          out := out + [recent[i]];
        }
      }
      assert recent[..|recent|] == recent;
      if |recent| > 0 {
        var oldest := recent[0].number;
        if oldest > after + 1 {
          missed := oldest - after - 1;
        }
      }
    }

    method SendToAll(events: seq<Event>)
      requires Sound(Value())
      modifies `channels
      ensures channels == Broadcast(old(Value()), events)
    {
      ghost var s := Value();
      var todo := watchers;
      while todo != {}
        invariant todo <= watchers
        invariant channels.Keys == s.channels.Keys
        invariant forall w :: w in s.channels ==>
          channels[w] == if w in watchers - todo then OfferAll(s.channels[w], events) else s.channels[w]
        decreases |todo|
      {
        var w :| w in todo;
        var ch := channels[w];
        for i := 0 to |events|
          invariant ch == OfferAll(s.channels[w], events[..i])
        {
          assert events[..i + 1][..i] == events[..i];
          ch := Offer(ch, events[i]);
        }
        assert events[..|events|] == events;
        channels := channels[w := ch];
        todo := todo - {w};
      }
    }

    method NumberEvents(kind: Kind, logs: seq<LiveEvents.Log>, at: int) returns (events: seq<Event>)
      modifies `number
      ensures events == Messages(kind, logs, at, old(number)) && number == old(number) + |events|
    {
      events := [];
      if |logs| == 0 {
        number := number + 1;
        events := events + [Event(kind, at, number, None, "", 0)];
      }
      for i := 0 to |logs|
        invariant number == old(number) + |events|
        invariant logs == [] ==> events == Messages(kind, logs, at, old(number))
        invariant logs != [] ==> |events| == i && events == Messages(kind, logs, at, old(number))[..i]
      {
        number := number + 1;
        events := events + [Event(kind, at, number, Some(logs[i]), "", 0)];
      }
    }

    method RememberAll(events: seq<Event>)
      requires events != []
      modifies `recent, `dropped
      ensures recent == Last(RECENT_BUFFER, old(recent) + events)
      ensures dropped == old(dropped) + |old(recent)| + |events| - |recent|
    {
      for i := 0 to |events|
        invariant recent == if i == 0 then old(recent) else Last(RECENT_BUFFER, old(recent) + events[..i])
        invariant dropped == old(dropped) + |old(recent)| + i - |recent|
      {
        assert old(recent) + events[..i + 1] == (old(recent) + events[..i]) + [events[i]];
        assert old(recent) + events[..0] == old(recent);
        Remember(events[i]);
      }
      assert events[..|events|] == events;
    }

    method Publish(kind: Kind, logs: seq<LiveEvents.Log>, at: int)
      requires Sound(Value())
      modifies this
      ensures Value() == Published(old(Value()), kind, logs, at)
    {
      if ended {
        return;
      }
      var events := NumberEvents(kind, logs, at);
      RememberAll(events);
      history := history + events;
      SendToAll(events);
    }

    /** The first critical section of Watch. */
    method Watch(w: WatcherId, after: int)
      returns (refused: Option<Refusal>, backlog: seq<Event>, missed: int, count: nat)
      requires w !in channels
      modifies `channels, `watchers
      ensures Value() == Subscribed(old(Value()), w) && refused == MayWatch(old(Value()))
      ensures refused.None? ==> (backlog, missed) == Since(recent, after) && count == |watchers|
    {
      refused, backlog, missed, count := None, [], 0, 0;
      if ended {
        return Some(NoSuchSession), [], 0, 0;
      }
      if |watchers| >= MAX_WATCHERS {
        return Some(TooManyWatchers), [], 0, 0;
      }
      backlog, missed := EventsSince(after);
      channels := channels[w := Channel([], [], false, number, 0)];
      watchers := watchers + {w};
      count := |watchers|;
    }

    method AnnounceWatchers(count: nat, at: int)
      requires Sound(Value())
      modifies `channels
      ensures Value() == Announced(old(Value()), count, at)
    {
      SendToAll([Announcement(count, at)]);
    }

    /** The critical section of a subscription's cancel; the count is announced after it. */
    method Cancel(w: WatcherId) returns (left: Option<nat>)
      requires Sound(Value())
      modifies `channels, `watchers
      ensures Value() == Cancelled(old(Value()), w)
      ensures left == if w in old(watchers) then Some(|watchers|) else None
    {
      if w !in watchers {
        return None;
      }
      watchers := watchers - {w};
      left := Some(|watchers|);
      channels := channels[w := channels[w].(closed := true)];
    }

    method Receive(w: WatcherId) returns (got: Option<Event>)
      modifies `channels
      ensures Value() == Received(old(Value()), w)
      ensures got ==
              if w in old(channels) && old(channels)[w].queue != [] then Some(old(channels)[w].queue[0]) else None
    {
      if w !in channels || channels[w].queue == [] {
        return None;
      }
      var ch := channels[w];
      channels := channels[w := ch.(queue := ch.queue[1..], taken := ch.taken + [ch.queue[0]])];
      got := Some(ch.queue[0]);
    }

    /** End; hungUp says that the device's connection was dropped. */
    method End(reason: string, at: int) returns (hungUp: bool)
      requires Sound(Value())
      modifies this
      ensures Value() == Ended(old(Value()), reason, at)
      ensures hungUp == (!old(ended) && old(device))
    {
      if ended {
        return false;
      }
      ended := true;
      number := number + 1;
      var last := Event(EndedEvent, at, number, None, reason, 0);
      CloseWatchers(last);
      CloseQuestions();
      hungUp := device;
      device := false;
      history := history + [last];
    }

    method CloseWatchers(last: Event)
      requires forall w :: w in watchers ==> w in channels && !channels[w].closed
      modifies `channels, `watchers
      ensures watchers == {} && channels == Finished(old(channels), old(watchers), last)
    {
      while watchers != {}
        invariant watchers <= old(watchers)
        invariant channels == Finished(old(channels), old(watchers) - watchers, last)
        decreases |watchers|
      {
        var w :| w in watchers;
        channels := channels[w := Offer(channels[w], last).(closed := true)];
        watchers := watchers - {w};
      }
      assert old(watchers) - {} == old(watchers);
    }

    method CloseQuestions()
      requires forall q :: q in pending ==> q in replies && replies[q] == Reply(None, false)
      modifies `replies, `pending
      ensures pending == {} && replies == Dismissed(old(replies), old(pending))
    {
      while pending != {}
        invariant pending <= old(pending)
        invariant replies == Dismissed(old(replies), old(pending) - pending)
        decreases |pending|
      {
        var q :| q in pending;
        replies := replies[q := Reply(None, true)];
        pending := pending - {q};
      }
      assert old(pending) - {} == old(pending);
    }

    method AttachDevice()
      modifies `device
      ensures Value() == Attached(old(Value()))
    {
      device := true;
    }

    /** Ask up to the point where the frame is written, outside the lock. */
    method Ask(q: Question) returns (refused: Option<Refusal>)
      requires q !in replies
      modifies `replies, `pending
      ensures Value() == Registered(old(Value()), q) && refused == MayAsk(old(Value()))
    {
      if ended {
        return Some(NoSuchSession);
      }
      if !device {
        return Some(DeviceGone);
      }
      replies := replies[q := Reply(None, false)];
      pending := pending + {q};
      refused := None;
    }

    method Deliver(q: Question, a: Answer)
      requires Sound(Value())
      modifies `replies, `pending
      ensures Value() == Delivered(old(Value()), q, a)
    {
      if ended || q !in pending {
        return;
      }
      pending := pending - {q};
      if replies[q].answer.None? {
        replies := replies[q := Reply(Some(a), false)];
      }
    }

    method Forget(q: Question)
      modifies `pending
      ensures Value() == Forgotten(old(Value()), q)
    {
      pending := pending - {q};
    }
  }
}
