/** `serveDatabase` in e2e/device.js: the loop that answers the server's questions
    on a device socket. JSON, and what the answers are, are parameters. */
module RequestLoop {
  import opened Octets
  import opened Prelude
  import opened Wire
  import opened DeviceClient
  import Mailbox

  type Fields<V> = map<string, V>

  /** What JSON.parse makes of a message. A frame that is `null` has no `req` to look
      at: the property access throws. */
  datatype Parsed<V> = Malformed | Null | Scalar | Object(fields: Fields<V>)

  datatype Script<!V> = Script(
    parse: Message -> Parsed<V>,
    truthy: V -> bool,
    answer: Fields<V> -> Option<Fields<V>>,  // the caller's body for this frame; None throws
    stringify: Fields<V> -> seq<Byte>)

  datatype Status = Serving | Stopped | Returned | Threw

  datatype Loop<V> = Loop(asked: seq<Fields<V>>, replies: seq<Fields<V>>, status: Status)

  /** One `await dev.next(8000)` settling, with None for a rejection, and whether
      `stop` had been called by the time the loop looked. */
  datatype Settled = Settled(outcome: Option<Message>, stopped: bool)

  predicate IsQuestion<V>(s: Script<V>, p: Parsed<V>) {
    p.Object? && "req" in p.fields && s.truthy(p.fields["req"])
  }

  /** { req: frame.req, ...body }: the body is spread last, so it wins. */
  function Reply<V>(s: Script<V>, frame: Fields<V>): Option<Fields<V>>
    requires "req" in frame
  {
    match s.answer(frame)
    case None => None
    case Some(body) => Some(map["req" := frame["req"]] + body)
  }

  predicate Fits<V>(s: Script<V>, reply: Fields<V>) {
    |s.stringify(reply)| < 0x1_0000
  }

  /** The body does not throw, and the reply can be framed. */
  predicate Answerable<V>(s: Script<V>, frame: Fields<V>)
    requires "req" in frame
  {
    var reply := Reply(s, frame);
    reply.Some? && Fits(s, reply.value)
  }

  function Hear<V>(s: Script<V>, l: Loop<V>, outcome: Option<Message>): Loop<V> {
    if outcome.None? then l.(status := Returned)
    else
      var p := s.parse(outcome.value);
      if p.Malformed? then l.(status := Returned)
      else if p.Null? then l.(status := Threw)
      else if !IsQuestion(s, p) then l
      else if Answerable(s, p.fields) then
        Loop(l.asked + [p.fields], l.replies + [Reply(s, p.fields).value], l.status)
      else Loop(l.asked + [p.fields], l.replies, Threw)
  }

  function Step<V>(s: Script<V>, l: Loop<V>, e: Settled): Loop<V> {
    if l.status != Serving then l
    else
      var heard := Hear(s, l, e.outcome);
      if heard.status == Serving && e.stopped then heard.(status := Stopped) else heard
  }

  function After<V>(s: Script<V>, run: seq<Settled>): Loop<V> {
    if run == [] then Loop([], [], Serving)
    else Step(s, After(s, run[..|run| - 1]), run[|run| - 1])
  }

  lemma AfterOneMore<V>(s: Script<V>, run: seq<Settled>, e: Settled)
    ensures After(s, run + [e]) == Step(s, After(s, run), e)
  {
    assert (run + [e])[..|run|] == run;
  }

  // ----- what a run amounts to -------------------------------------------------

  /** How many of the settled calls the loop lived to see. */
  function Seen<V>(s: Script<V>, run: seq<Settled>): (n: nat)
    ensures n <= |run|
  {
    if run == [] then 0
    else
      var before := run[..|run| - 1];
      if After(s, before).status == Serving then |run| else Seen(s, before)
  }

  /** The messages among these outcomes. */
  function Heard(run: seq<Settled>): seq<Message> {
    if run == [] then []
    else
      var last := run[|run| - 1].outcome;
      Heard(run[..|run| - 1]) + if last.Some? then [last.value] else []
  }

  /** The frames carrying a `req`, in order. */
  function Questions<V>(s: Script<V>, messages: seq<Message>): seq<Fields<V>> {
    if messages == [] then []
    else
      var p := s.parse(messages[|messages| - 1]);
      Questions(s, messages[..|messages| - 1]) + if IsQuestion(s, p) then [p.fields] else []
  }

  /** One message more is one question more exactly when it is an object whose `req` is
      there and truthy. */
  lemma QuestionsGrow<V>(s: Script<V>, messages: seq<Message>, m: Message)
    ensures var p := s.parse(m);
            Questions(s, messages + [m]) ==
            Questions(s, messages) +
              if p.Object? && "req" in p.fields && s.truthy(p.fields["req"]) then [p.fields] else []
  {
    assert (messages + [m])[..|messages|] == messages;
  }

  /** The body was made for this frame, and the reply has all of it: each of its fields with
      its value, the id of the question unless the body has one, and nothing else. */
  ghost predicate IsReplyTo<V>(s: Script<V>, frame: Fields<V>, reply: Fields<V>)
    requires "req" in frame
  {
    s.answer(frame).Some? &&
    var body := s.answer(frame).value;
    && reply.Keys == body.Keys + {"req"}
    && (forall name :: name in body ==> name in reply && reply[name] == body[name])
    && ("req" !in body ==> reply["req"] == frame["req"])
  }

  /** There is one reply to a frame, if any. */
  lemma ReplyIsTheBodyWithItsRequest<V>(s: Script<V>, frame: Fields<V>, reply: Fields<V>)
    requires "req" in frame
    ensures Reply(s, frame) == Some(reply) <==> IsReplyTo(s, frame, reply)
  {
    if s.answer(frame).Some? {
      var made := Reply(s, frame).value;
      assert IsReplyTo(s, frame, made);
      if IsReplyTo(s, frame, reply) {
        assert reply.Keys == made.Keys;
        assert forall name :: name in reply ==> reply[name] == made[name];
        assert reply == made;
      }
    }
  }

  /** The body throws, or the reply is longer than a frame can say. */
  predicate CannotAnswer<V>(s: Script<V>, frame: Fields<V>)
    requires "req" in frame
  {
    s.answer(frame).None? || |s.stringify(Reply(s, frame).value)| >= 65536
  }

  /** Reply i answers question i, and at most the last one could not be answered. */
  ghost predicate Matched<V>(s: Script<V>, l: Loop<V>) {
    && (forall i :: 0 <= i < |l.asked| ==> "req" in l.asked[i])
    && (|l.replies| == |l.asked| || (|l.replies| + 1 == |l.asked| && l.status == Threw))
    && (forall i :: 0 <= i < |l.replies| ==>
          IsReplyTo(s, l.asked[i], l.replies[i]) && |s.stringify(l.replies[i])| < 65536)
    && (|l.replies| < |l.asked| ==> CannotAnswer(s, l.asked[|l.replies|]))
  }

  ghost predicate Lawful<V>(s: Script<V>, run: seq<Settled>) {
    && Matched(s, After(s, run))
    && After(s, run).asked == Questions(s, Heard(run[..Seen(s, run)]))
  }

  lemma HearKeepsMatched<V>(s: Script<V>, l: Loop<V>, outcome: Option<Message>)
    requires Matched(s, l) && l.status == Serving
    ensures Matched(s, Hear(s, l, outcome))
  {
    if outcome.Some? {
      var p := s.parse(outcome.value);
      if IsQuestion(s, p) && Answerable(s, p.fields) {
        ReplyIsTheBodyWithItsRequest(s, p.fields, Reply(s, p.fields).value);
      }
    }
  }

  lemma HeardGrows(run: seq<Settled>, e: Settled)
    ensures Heard(run + [e]) == Heard(run) + if e.outcome.Some? then [e.outcome.value] else []
  {
    assert (run + [e])[..|run|] == run;
  }

  lemma HearAsks<V>(s: Script<V>, l: Loop<V>, before: seq<Settled>, e: Settled)
    requires l.asked == Questions(s, Heard(before))
    ensures Hear(s, l, e.outcome).asked == Questions(s, Heard(before + [e]))
  {
    HeardGrows(before, e);
    if e.outcome.Some? {
      QuestionsGrow(s, Heard(before), e.outcome.value);
    } else {
      assert Heard(before) + [] == Heard(before);
    }
  }

  lemma LawfulStep<V>(s: Script<V>, before: seq<Settled>, e: Settled)
    requires Lawful(s, before) && After(s, before).status == Serving
    ensures Lawful(s, before + [e])
  {
    var run := before + [e];
    assert run[..|run| - 1] == before && run[..|run|] == run && before[..|before|] == before;
    var l := After(s, before);
    HearKeepsMatched(s, l, e.outcome);
    HearAsks(s, l, before, e);
  }

  lemma LawfulStutter<V>(s: Script<V>, before: seq<Settled>, e: Settled)
    requires Lawful(s, before) && After(s, before).status != Serving
    ensures Lawful(s, before + [e])
  {
    var run := before + [e];
    assert run[..|run| - 1] == before;
    assert run[..Seen(s, run)] == before[..Seen(s, before)];
  }

  /** The request loop over every sequence of settled calls: `asked` is exactly the
      received frames that carry a `req`, in arrival order, up to where the loop ended;
      reply i answers question i; and only a question whose body throws or whose reply is
      too long to frame goes without. */
  lemma {:induction false} AskedAreTheQuestions<V>(s: Script<V>, run: seq<Settled>)
    ensures Lawful(s, run)
  {
    if run != [] {
      var before, e := run[..|run| - 1], run[|run| - 1];
      AskedAreTheQuestions(s, before);
      assert before + [e] == run;
      if After(s, before).status == Serving {
        LawfulStep(s, before, e);
      } else {
        LawfulStutter(s, before, e);
      }
    }
  }

  /** What a settled call does to a loop that is serving. */
  ghost predicate Lasts<V>(s: Script<V>, e: Settled) {
    && e.outcome.Some? && !e.stopped
    && var p := s.parse(e.outcome.value);
    !p.Malformed? && !p.Null? && (IsQuestion(s, p) ==> !CannotAnswer(s, p.fields))
  }

  ghost predicate Leaves<V>(s: Script<V>, e: Settled) {
    e.outcome.None? || s.parse(e.outcome.value).Malformed?
  }

  ghost predicate Breaks<V>(s: Script<V>, e: Settled) {
    e.outcome.Some? &&
    var p := s.parse(e.outcome.value);
    p.Null? || (IsQuestion(s, p) && CannotAnswer(s, p.fields))
  }

  lemma StepEnds<V>(s: Script<V>, l: Loop<V>, e: Settled)
    requires l.status == Serving
    ensures var after := Step(s, l, e).status;
            && (after == Serving <==> Lasts(s, e)) && (after == Returned <==> Leaves(s, e))
            && (after == Threw <==> Breaks(s, e))
  {}

  /** How long the loop serves, over every run: as long as its calls bring JSON that is not
      null, every question can be answered and `stop` has not been called. The first call
      that is rejected or not JSON makes it return, the first null or question that cannot
      be answered makes it throw, and otherwise it stops. */
  lemma {:induction false} TheFirstEndDecides<V>(s: Script<V>, run: seq<Settled>)
    ensures After(s, run).status == Serving <==> forall j :: 0 <= j < |run| ==> Lasts(s, run[j])
    ensures forall k :: 0 <= k < |run| && !Lasts(s, run[k]) && (forall j :: 0 <= j < k ==> Lasts(s, run[j])) ==>
              && (After(s, run).status == Returned <==> Leaves(s, run[k]))
              && (After(s, run).status == Threw <==> Breaks(s, run[k]))
  {
    if run != [] {
      var n := |run| - 1;
      var before := run[..n];
      TheFirstEndDecides(s, before);
      assert forall j :: 0 <= j < n ==> before[j] == run[j];
      if After(s, before).status == Serving {
        StepEnds(s, After(s, before), run[n]);
      } else {
        var i :| 0 <= i < n && !Lasts(s, before[i]);
        assert !Lasts(s, run[i]);
      }
    }
  }

  /** A reply carries the `req` of its question exactly when the body leaves that field
      alone, or sets it to the same thing. */
  lemma ReplyKeepsRequestExactlyWhenBodyDoes<V>(s: Script<V>, frame: Fields<V>)
    requires "req" in frame && s.answer(frame).Some?
    ensures var reply, body := Reply(s, frame).value, s.answer(frame).value;
            "req" in reply && (reply["req"] == frame["req"] <==> "req" in body ==> body["req"] == frame["req"])
  {}

  /** Once `stop` has been called the loop answers what it is waiting for, and nothing
      after that. */
  lemma {:induction false} NothingAfterTheEnd<V>(s: Script<V>, run: seq<Settled>, later: seq<Settled>)
    requires After(s, run).status != Serving
    ensures After(s, run + later) == After(s, run)
  {
    if later == [] {
      assert run + later == run;
    } else {
      var all := run + later;
      assert all[..|all| - 1] == run + later[..|later| - 1];
      NothingAfterTheEnd(s, run, later[..|later| - 1]);
    }
  }

  // ----- on top of the mailbox ---------------------------------------------------

  /** The loop is the only caller of `next()` from call `first` on, and `run` says how
      its calls settled. */
  ghost predicate RunsOn(run: seq<Settled>, outcomes: seq<Mailbox.Outcome<Message>>, first: nat) {
    && first + |run| <= |outcomes|
    && forall j :: 0 <= j < |run| ==> Settles(run[j], outcomes[first + j])
  }

  ghost predicate Settles(e: Settled, o: Mailbox.Outcome<Message>) {
    match o
    case Waiting => false
    case Resolved(m) => e.outcome == Some(m)
    case Rejected => e.outcome == None
  }

  lemma ResolvedIsItsMessage(mail: seq<Mailbox.Event<Message>>, k: nat, m: Message)
    requires k < |Mailbox.After(mail).outcomes| && Mailbox.After(mail).outcomes[k] == Mailbox.Resolved(m)
    ensures k < |Mailbox.Messages(mail)| && Mailbox.Messages(mail)[k] == m
  {
    Mailbox.PairingLaw(mail);
  }

  lemma RunsOnBefore(run: seq<Settled>, outcomes: seq<Mailbox.Outcome<Message>>, first: nat)
    requires RunsOn(run, outcomes, first) && run != []
    ensures RunsOn(run[..|run| - 1], outcomes, first)
    ensures Settles(run[|run| - 1], outcomes[first + |run| - 1])
  {}

  lemma {:induction false} HeardInOrder(run: seq<Settled>, mail: seq<Mailbox.Event<Message>>, first: nat)
    requires RunsOn(run, Mailbox.After(mail).outcomes, first)
    requires forall j :: 0 <= j < |run| ==> run[j].outcome.Some?
    ensures first + |run| <= |Mailbox.Messages(mail)| || run == []
    ensures run != [] ==> Heard(run) == Mailbox.Messages(mail)[first..first + |run|]
  {
    if run != [] {
      var n, messages := |run| - 1, Mailbox.Messages(mail);
      RunsOnBefore(run, Mailbox.After(mail).outcomes, first);
      HeardInOrder(run[..n], mail, first);
      ResolvedIsItsMessage(mail, first + n, run[n].outcome.value);
      assert Heard(run) == Heard(run[..n]) + [messages[first + n]];
      if n > 0 {
        SliceGrows(messages, first, first + n);
      } else {
        assert messages[first..first + 1] == [messages[first]];
      }
    }
  }

  lemma {:induction false} ServingHeardEverything<V>(s: Script<V>, run: seq<Settled>)
    requires After(s, run).status == Serving
    ensures forall j :: 0 <= j < |run| ==> run[j].outcome.Some?
  {
    if run != [] {
      var before := run[..|run| - 1];
      ServingHeardEverything(s, before);
      assert forall j :: 0 <= j < |before| ==> run[j] == before[j];
    }
  }

  lemma ServingAskedWhatItHeard<V>(s: Script<V>, run: seq<Settled>)
    requires After(s, run).status == Serving
    ensures After(s, run).asked == Questions(s, Heard(run))
  {
    AskedAreTheQuestions(s, run);
    if run == [] {
      assert Heard(run[..Seen(s, run)]) == Heard(run);
    } else {
      assert run[..|run|] == run;
    }
  }

  /** Composed with the pairing law, for every run of the device client: while the loop
      is serving, its questions are those among the messages that arrived from number
      `first` on, one message per call, none skipped and none twice. */
  lemma QuestionsComeFromTheStream<V>(
    s: Script<V>, run: seq<Settled>, mail: seq<Mailbox.Event<Message>>, first: nat)
    requires RunsOn(run, Mailbox.After(mail).outcomes, first)
    requires run != [] && After(s, run).status == Serving
    ensures first + |run| <= |Mailbox.Messages(mail)|
    ensures After(s, run).asked == Questions(s, Mailbox.Messages(mail)[first..first + |run|])
  {
    ServingHeardEverything(s, run);
    HeardInOrder(run, mail, first);
    ServingAskedWhatItHeard(s, run);
  }

  lemma RunsOnKept(
    run: seq<Settled>, before: seq<Mailbox.Outcome<Message>>, after: seq<Mailbox.Outcome<Message>>, first: nat)
    requires RunsOn(run, before, first) && Mailbox.KeepsSettled(before, after)
    ensures RunsOn(run, after, first)
  {
    forall j | 0 <= j < |run|
      ensures Settles(run[j], after[first + j])
    {
      assert Settles(run[j], before[first + j]);
    }
  }

  // ----- the loop and its device ------------------------------------------------------

  /** A loop on a device: its settled calls so far, the first of which was call `first`. */
  datatype Service = Service(client: Client, run: seq<Settled>, first: nat)

  /** A chunk arrives, a timer runs out, or the `await` goes on once its call has settled. */
  datatype Happening = Arrives(chunk: seq<Byte>) | TimesOut(call: nat) | Resumes(stopped: bool)

  function Started(c: Client): Service {
    Service(Handle(c, Event.Next), [], Mailbox.Calls(c.mail))
  }

  /** What became of the call the loop is waiting on. */
  function Awaited(sv: Service): Mailbox.Outcome<Message> {
    var outcomes := Mailbox.After(sv.client.mail).outcomes;
    var call := sv.first + |sv.run|;
    if call < |outcomes| then outcomes[call] else Mailbox.Waiting
  }

  function Came(o: Mailbox.Outcome<Message>): Option<Message> {
    if o.Resolved? then Some(o.message) else None
  }

  /** What the replies past the n-th put on the socket. */
  function Replied<V>(s: Script<V>, replies: seq<Fields<V>>, n: nat): seq<Effect> {
    if |replies| <= n || !Fits(s, replies[n]) then []
    else [Wrote(ClientFrame(s.stringify(replies[n]), TEXT))]
  }

  /** The device once this has been written, and `next()` called when the loop goes on. */
  function Turned(c: Client, writes: seq<Effect>, goesOn: bool): Client {
    var wrote := c.(effects := c.effects + writes);
    if goesOn then Handle(wrote, Event.Next) else wrote
  }

  function Resumed<V>(s: Script<V>, sv: Service, e: Settled): Service {
    var l, after := After(s, sv.run), After(s, sv.run + [e]);
    var writes := Replied(s, after.replies, |l.replies|);
    Service(Turned(sv.client, writes, after.status == Serving), sv.run + [e], sv.first)
  }

  function Happens<V>(s: Script<V>, sv: Service, h: Happening): Service {
    match h
    case Arrives(chunk) => sv.(client := Receive(sv.client, chunk))
    case TimesOut(call) => sv.(client := Handle(sv.client, Event.Timeout(call)))
    case Resumes(stopped) =>
      if After(s, sv.run).status != Serving || Awaited(sv).Waiting? then sv
      else Resumed(s, sv, Settled(Came(Awaited(sv)), stopped))
  }

  // ----- the object ----------------------------------------------------------------

  class DatabaseServer<V> {
    const script: Script<V>
    const dev: DeviceSocket

    var asked: seq<Fields<V>>
    var stopped: bool
    var status: Status
    var call: nat                 // the `next()` the loop is waiting on

    ghost var run: seq<Settled>
    ghost var replies: seq<Fields<V>>
    ghost var first: nat          // the first call it made

    ghost function Life(): Service
      reads this, dev
    {
      Service(dev.model, run, first)
    }

    /** The loop has heard what its calls settled with, and while it serves the call it
        waits on is the last one made: nobody else calls `next()`. */
    ghost predicate Valid()
      reads this, dev
    {
      && dev.Valid()
      && After(script, run) == Loop(asked, replies, status)
      && RunsOn(run, dev.outcomes, first)
      && (status == Serving ==> call == first + |run| && |dev.outcomes| == call + 1)
    }

    constructor (script: Script<V>, dev: DeviceSocket)
      requires dev.Valid()
      modifies dev
      ensures Valid() && this.script == script && this.dev == dev
      ensures Life() == Started(old(dev.model)) && status == Serving && !stopped
    {
      this.script, this.dev := script, dev;
      asked, stopped, status := [], false, Serving;
      run, replies := [], [];
      call, first := 0, 0;
      new;
      Begin();
    }

    /** The first test at the head of the loop, which cannot have been stopped yet. */
    method Begin()
      requires dev.Valid() && Loop(asked, replies, status) == After(script, []) && run == []
      modifies `call, `first, dev
      ensures Valid() && Life() == Started(old(dev.model))
    {
      AwaitNext();
      first := call;
      NothingHeardYet(dev.outcomes, first);
    }

    /** The `await` at the head of the loop, up to where it waits. */
    method AwaitNext()
      requires dev.Valid()
      modifies `call, dev
      ensures dev.Valid() && dev.model == Handle(old(dev.model), Event.Next)
      ensures call == |old(dev.outcomes)| == Mailbox.Calls(old(dev.model).mail) && |dev.outcomes| == call + 1
    {
      ghost var mail := dev.model.mail;
      call := dev.Next();
      OneMoreCall(mail);
    }

    /** The device goes on underneath: a chunk arrives. */
    method OnData(chunk: seq<Byte>)
      requires Valid()
      modifies dev
      ensures Valid() && Life() == Happens(script, old(Life()), Arrives(chunk))
    {
      ghost var before := dev.model;
      ReceiveOnlyAddsMail(dev.model, chunk);
      var refused := dev.OnData(chunk);
      NobodyCalled(run, first, before, dev.model);
    }

    /** The timer of some call runs out. */
    method OnTimeout(k: nat)
      requires Valid()
      modifies dev
      ensures Valid() && Life() == Happens(script, old(Life()), TimesOut(k))
    {
      ghost var before := dev.model;
      dev.OnTimeout(k);
      TimeoutsAreNoCalls(before.mail, k);
      NobodyCalled(run, first, before, dev.model);
    }

    method Stop()
      requires Valid()
      modifies `stopped
      ensures Valid() && stopped
    {
      stopped := true;
    }

    /** Records the question; throws when the body does or the reply cannot be framed. */
    method Answer(frame: Fields<V>) returns (written: bool)
      requires dev.Valid() && "req" in frame
      modifies `asked, `replies, dev
      ensures dev.Valid() && dev.outcomes == old(dev.outcomes)
      ensures asked == old(asked) + [frame]
      ensures written <==> Answerable(script, frame)
      ensures replies == if written then old(replies) + [Reply(script, frame).value] else old(replies)
      ensures dev.model ==
              if written then
                old(dev.model).(effects := old(dev.model).effects +
                  [Wrote(ClientFrame(script.stringify(Reply(script, frame).value), TEXT))])
              else old(dev.model)
    {
      asked := asked + [frame];
      var reply := Reply(script, frame);
      if reply.None? {
        return false;
      }
      written := dev.Send(script.stringify(reply.value));
      if written {
        replies := replies + [reply.value];
      }
    }

    /** The loop body up to the end of one turn. */
    method TakeTurn(outcome: Option<Message>)
      requires dev.Valid() && status == Serving
      modifies `asked, `replies, `status, dev
      ensures dev.Valid() && dev.outcomes == old(dev.outcomes)
      ensures Loop(asked, replies, status) == Hear(script, old(Loop(asked, replies, status)), outcome)
      ensures dev.model ==
              old(dev.model).(effects := old(dev.model).effects + Replied(script, replies, |old(replies)|))
    {
      ghost var start := dev.model;
      assert start.effects + [] == start.effects;
      if outcome.None? {
        status := Returned;
        return;
      }
      var frame := script.parse(outcome.value);
      if frame.Malformed? {
        status := Returned;
      } else if frame.Null? {
        status := Threw;
      } else if frame.Object? && "req" in frame.fields && script.truthy(frame.fields["req"]) {
        var written := Answer(frame.fields);
        if !written {
          status := Threw;
        }
      }
    }

    /** The test at the head of the loop. */
    method GoOn()
      requires dev.Valid()
      modifies `status, `call, dev
      ensures dev.Valid()
      ensures status == if old(status) == Serving && stopped then Stopped else old(status)
      ensures dev.model == if status == Serving then Handle(old(dev.model), Event.Next) else old(dev.model)
      ensures status == Serving ==> call == |old(dev.outcomes)| && |dev.outcomes| == call + 1
    {
      if status == Serving {
        if stopped {
          status := Stopped;
        } else {
          AwaitNext();
        }
      }
    }

    /** One turn and the test behind it. */
    method Turn(outcome: Option<Message>)
      requires dev.Valid() && status == Serving
      modifies `asked, `replies, `status, `call, dev
      ensures dev.Valid()
      ensures Loop(asked, replies, status) ==
              Step(script, old(Loop(asked, replies, status)), Settled(outcome, stopped))
      ensures dev.model ==
              Turned(old(dev.model), Replied(script, replies, |old(replies)|), status == Serving)
      ensures status == Serving ==> call == |old(dev.outcomes)| && |dev.outcomes| == call + 1
    {
      TakeTurn(outcome);
      GoOn();
    }

    /** The same with the settled call on record. */
    method RecordTurn(outcome: Option<Message>)
      requires dev.Valid() && status == Serving && After(script, run) == Loop(asked, replies, status)
      modifies `asked, `replies, `status, `call, `run, dev
      ensures dev.Valid() && After(script, run) == Loop(asked, replies, status)
      ensures Life() == Resumed(script, old(Life()), Settled(outcome, stopped))
      ensures status == Serving ==> call == |old(dev.outcomes)| && |dev.outcomes| == call + 1
    {
      ghost var life, e := Life(), Settled(outcome, stopped);
      Turn(outcome);
      run := run + [e];
      TurnedIsResumed(script, life, e, Loop(asked, replies, status), dev.model);
    }

    /** From one `await` to the next: the call the loop waits on has settled with this
        outcome; the device writes the reply, if there is one, and is asked for the next
        message, if the loop goes on. */
    method OnSettled(outcome: Option<Message>)
      requires Valid() && status == Serving && Settles(Settled(outcome, stopped), dev.outcomes[call])
      modifies this, dev
      ensures Valid() && Life() == Happens(script, old(Life()), Resumes(old(stopped)))
    {
      OneTurn(script, Life(), Settled(outcome, stopped));
      RecordTurn(outcome);
    }
  }

  lemma TurnedIsResumed<V>(s: Script<V>, sv: Service, e: Settled, l: Loop<V>, c: Client)
    requires l == Step(s, After(s, sv.run), e)
    requires c == Turned(sv.client, Replied(s, l.replies, |After(s, sv.run).replies|), l.status == Serving)
    ensures After(s, sv.run + [e]) == l && Resumed(s, sv, e) == Service(c, sv.run + [e], sv.first)
  {
    AfterOneMore(s, sv.run, e);
  }

  /** What one turn leaves: one more settled call, heard in its place. */
  lemma OneTurn<V>(s: Script<V>, sv: Service, e: Settled)
    requires After(s, sv.run).status == Serving && Settles(e, Awaited(sv))
    requires RunsOn(sv.run, Mailbox.After(sv.client.mail).outcomes, sv.first)
    ensures Happens(s, sv, Resumes(e.stopped)) == Resumed(s, sv, e)
    ensures After(s, sv.run + [e]) == Step(s, After(s, sv.run), e)
    ensures var after := Resumed(s, sv, e);
            RunsOn(after.run, Mailbox.After(after.client.mail).outcomes, after.first)
  {
    var mail, after := sv.client.mail, Resumed(s, sv, e);
    AfterOneMore(s, sv.run, e);
    RunsOnOneMore(sv.run, Mailbox.After(mail).outcomes, sv.first, e);
    MailKeepsSettled(mail, after.client.mail);
    RunsOnKept(after.run, Mailbox.After(mail).outcomes, Mailbox.After(after.client.mail).outcomes, sv.first);
  }

  lemma NothingHeardYet(outcomes: seq<Mailbox.Outcome<Message>>, first: nat)
    requires first <= |outcomes|
    ensures RunsOn([], outcomes, first)
  {}

  lemma RunsOnOneMore(run: seq<Settled>, outcomes: seq<Mailbox.Outcome<Message>>, first: nat, e: Settled)
    requires RunsOn(run, outcomes, first) && first + |run| < |outcomes| && Settles(e, outcomes[first + |run|])
    ensures RunsOn(run + [e], outcomes, first)
  {}

  lemma OneMoreCall(mail: seq<Mailbox.Event<Message>>)
    ensures |Mailbox.After(mail + [Mailbox.Next]).outcomes| == |Mailbox.After(mail).outcomes| + 1
  {
    assert (mail + [Mailbox.Next])[..|mail|] == mail;
  }

  lemma MailKeepsSettled(mail: seq<Mailbox.Event<Message>>, longer: seq<Mailbox.Event<Message>>)
    requires mail <= longer
    ensures Mailbox.KeepsSettled(Mailbox.After(mail).outcomes, Mailbox.After(longer).outcomes)
  {
    assert longer == mail + longer[|mail|..];
    Mailbox.SettledForGoodOverRuns(mail, longer[|mail|..]);
  }

  lemma ReactOnlyAddsMail(c: Client, f: Received)
    requires |f.payload| < 0x1_0000
    ensures c.mail <= React(c, f).mail && Mailbox.Calls(React(c, f).mail) == Mailbox.Calls(c.mail)
  {
    assert (c.mail + [Mailbox.Arrive(f.payload)])[..|c.mail|] == c.mail;
  }

  /** Chunks add messages to the mail and no calls. */
  lemma {:induction false} FlowOnlyAddsMail(c: Client, bytes: seq<Byte>)
    ensures c.mail <= Flow(c, bytes).mail && Mailbox.Calls(Flow(c, bytes).mail) == Mailbox.Calls(c.mail)
    decreases |bytes|
  {
    match TakeFrame(bytes)
    case Short =>
    case Taken(f, rest) =>
      ReactOnlyAddsMail(c, f);
      FlowOnlyAddsMail(React(c, f), rest);
  }

  lemma ReceiveOnlyAddsMail(c: Client, chunk: seq<Byte>)
    ensures c.mail <= Receive(c, chunk).mail && Mailbox.Calls(Receive(c, chunk).mail) == Mailbox.Calls(c.mail)
  {
    match c.phase
    case Handshaking(seen) =>
      var all := seen + chunk;
      var found := FindBlankLine(all, 0);
      if found.Some? {
        FlowOnlyAddsMail(c, all[found.value + 4..]);
        assert Receive(c, chunk).mail == c.mail || Receive(c, chunk) == Flow(c, all[found.value + 4..]);
      }
    case Refused(_) =>
    case Open(buffer) => FlowOnlyAddsMail(c, buffer + chunk);
  }

  /** Between two states of the device nobody called `next()`: what had settled stays, and
      no outcome is added. */
  lemma NobodyCalled(run: seq<Settled>, first: nat, before: Client, after: Client)
    requires before.mail <= after.mail && Mailbox.Calls(after.mail) == Mailbox.Calls(before.mail)
    requires RunsOn(run, Mailbox.After(before.mail).outcomes, first)
    ensures RunsOn(run, Mailbox.After(after.mail).outcomes, first)
    ensures |Mailbox.After(after.mail).outcomes| == |Mailbox.After(before.mail).outcomes|
  {
    MailKeepsSettled(before.mail, after.mail);
    RunsOnKept(run, Mailbox.After(before.mail).outcomes, Mailbox.After(after.mail).outcomes, first);
    Mailbox.EveryCallHasAnOutcome(before.mail);
    Mailbox.EveryCallHasAnOutcome(after.mail);
  }

  lemma TimeoutsAreNoCalls(mail: seq<Mailbox.Event<Message>>, k: nat)
    ensures Mailbox.Calls(mail + [Mailbox.Timeout(k)]) == Mailbox.Calls(mail)
  {
    assert (mail + [Mailbox.Timeout(k)])[..|mail|] == mail;
  }
}
