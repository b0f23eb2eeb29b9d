/** The request loop on its device, end to end: what is asked of it, and what the server
    gets back, over every order of chunks, timeouts and turns of the loop. */
module ServedStream {
  import opened DeviceClient
  import opened Octets
  import opened Prelude
  import opened Wire
  import Mailbox
  import L = RequestLoop

  function Lives<V>(s: L.Script<V>, sv: L.Service, life: seq<L.Happening>): L.Service
    decreases |life|
  {
    if life == [] then sv else L.Happens(s, Lives(s, sv, life[..|life| - 1]), life[|life| - 1])
  }

  function Chunks(life: seq<L.Happening>): seq<Byte>
    decreases |life|
  {
    if life == [] then []
    else
      var h := life[|life| - 1];
      Chunks(life[..|life| - 1]) + if h.Arrives? then h.chunk else []
  }

  // ----- what was written, by who wrote it ----------------------------------------------

  predicate IsText(e: Effect) {
    e.Wrote? && e.bytes != [] && Low4(e.bytes[0]) == TEXT
  }

  /** The replies among these effects, or the others. */
  function Side(effects: seq<Effect>, texts: bool): seq<Effect> {
    if effects == [] then []
    else (if IsText(effects[0]) == texts then [effects[0]] else []) + Side(effects[1..], texts)
  }

  lemma {:induction false} SideAppend(left: seq<Effect>, right: seq<Effect>, texts: bool)
    ensures Side(left + right, texts) == Side(left, texts) + Side(right, texts)
  {
    if left == [] {
      assert left + right == right;
    } else {
      assert (left + right)[1..] == left[1..] + right;
      SideAppend(left[1..], right, texts);
      Regroup(if IsText(left[0]) == texts then [left[0]] else [], Side(left[1..], texts), Side(right, texts));
    }
  }

  lemma SideOfOne(e: Effect, texts: bool)
    ensures Side([e], texts) == if IsText(e) == texts then [e] else []
  {
    assert Side([], texts) == [];
  }

  ghost predicate Framed(e: Effect) {
    e.Wrote? ==> exists payload: seq<Byte>, opcode: Byte :: IsFrame(e.bytes, payload, opcode)
  }

  ghost predicate IsFrame(bytes: seq<Byte>, payload: seq<Byte>, opcode: Byte) {
    |payload| < 0x1_0000 && opcode < 16 && bytes == ClientFrame(payload, opcode)
  }

  ghost predicate AllFramed(effects: seq<Effect>) {
    forall e :: e in effects ==> Framed(e)
  }

  /** The frames the server can read: those written before the socket was ended. */
  function Sendings(effects: seq<Effect>): seq<Frame> {
    if effects == [] || effects[0].HungUp? then []
    else
      match Decode(effects[0].bytes)
      case None => []
      case Some((f, _)) => [f] + Sendings(effects[1..])
  }

  lemma FrameReads(bytes: seq<Byte>, payload: seq<Byte>, opcode: Byte)
    requires IsFrame(bytes, payload, opcode)
    ensures Decode(bytes) == Some((Sent(payload, opcode), [])) && bytes != [] && Low4(bytes[0]) == opcode
  {
    ServerReadsClientFrame(payload, opcode, []);
    assert bytes + [] == bytes;
    assert bytes[0] == WithTopBit(opcode);
  }

  lemma {:induction false} SendingsAreDecoded(effects: seq<Effect>)
    requires AllFramed(effects)
    ensures DecodeAll(Written(effects)) == Some(Sendings(effects))
  {
    if effects != [] && effects[0].Wrote? {
      var e := effects[0];
      assert Framed(e);
      var payload: seq<Byte>, opcode: Byte :| IsFrame(e.bytes, payload, opcode);
      FrameReads(e.bytes, payload, opcode);
      ServerReadsClientFrame(payload, opcode, Written(effects[1..]));
      SendingsAreDecoded(effects[1..]);
    }
  }

  function Others(frames: seq<Frame>): seq<Frame> {
    if frames == [] then []
    else (if frames[0].opcode != TEXT then [frames[0]] else []) + Others(frames[1..])
  }

  lemma HeadOfOthers(f: Frame, frames: seq<Frame>)
    ensures Others([f] + frames) == if f.opcode != TEXT then [f] + Others(frames) else Others(frames)
    ensures Texts([f] + frames) == if f.opcode == TEXT then [f.payload] + Texts(frames) else Texts(frames)
  {
    assert ([f] + frames)[1..] == frames;
    assert [] + Others(frames) == Others(frames) && [] + Texts(frames) == Texts(frames);
  }

  lemma HeadOfSide(e: Effect, effects: seq<Effect>, texts: bool)
    ensures Side([e] + effects, texts) ==
            if IsText(e) == texts then [e] + Side(effects, texts) else Side(effects, texts)
  {
    assert ([e] + effects)[1..] == effects;
    assert [] + Side(effects, texts) == Side(effects, texts);
  }

  lemma HeadOfSendings(e: Effect, effects: seq<Effect>, payload: seq<Byte>, opcode: Byte)
    requires e.Wrote? && IsFrame(e.bytes, payload, opcode)
    ensures Sendings([e] + effects) == [Sent(payload, opcode)] + Sendings(effects)
    ensures IsText(e) <==> opcode == TEXT
  {
    FrameReads(e.bytes, payload, opcode);
    assert ([e] + effects)[1..] == effects;
  }

  /** The server reads the pongs as if no reply had come between, and the replies in
      order, all of them unless the socket was ended. */
  lemma {:induction false} SidesAreSent(effects: seq<Effect>)
    requires AllFramed(effects)
    ensures SidesSent(effects)
  {
    if effects != [] {
      var e, rest := effects[0], effects[1..];
      assert effects == [e] + rest && Framed(e);
      SidesAreSent(rest);
      if e.Wrote? {
        var payload: seq<Byte>, opcode: Byte :| IsFrame(e.bytes, payload, opcode);
        SidesBehindFrame(e, rest, payload, opcode);
      } else {
        HeadOfSide(e, rest, false);
      }
    }
  }

  ghost predicate SidesSent(effects: seq<Effect>) {
    var sent, replies := Sendings(effects), Texts(Sendings(Side(effects, true)));
    && Others(sent) == Sendings(Side(effects, false))
    && Texts(sent) <= replies && (HangUps(effects) == 0 ==> Texts(sent) == replies)
  }

  lemma SidesBehindFrame(e: Effect, rest: seq<Effect>, payload: seq<Byte>, opcode: Byte)
    requires e.Wrote? && IsFrame(e.bytes, payload, opcode) && SidesSent(rest)
    ensures SidesSent([e] + rest)
  {
    HeadOfSide(e, rest, true);
    HeadOfSide(e, rest, false);
    OneMoreSent(e, rest, payload, opcode);
    assert ([e] + rest)[1..] == rest;
  }

  lemma OneMoreSent(e: Effect, rest: seq<Effect>, payload: seq<Byte>, opcode: Byte)
    requires e.Wrote? && IsFrame(e.bytes, payload, opcode)
    ensures var all := [e] + rest; var f := Sent(payload, opcode);
            && Others(Sendings(all)) == (if IsText(e) then Others(Sendings(rest)) else [f] + Others(Sendings(rest)))
            && Texts(Sendings(all)) == (if IsText(e) then [payload] + Texts(Sendings(rest)) else Texts(Sendings(rest)))
            && Sendings([e] + Side(rest, IsText(e))) == [f] + Sendings(Side(rest, IsText(e)))
            && (IsText(e) ==> Texts(Sendings([e] + Side(rest, true))) == [payload] + Texts(Sendings(Side(rest, true))))
  {
    HeadOfSendings(e, rest, payload, opcode);
    HeadOfSendings(e, Side(rest, IsText(e)), payload, opcode);
    HeadOfOthers(Sent(payload, opcode), Sendings(rest));
    HeadOfOthers(Sent(payload, opcode), Sendings(Side(rest, true)));
  }

  // ----- the device without its replies ---------------------------------------------------

  /** What the replies so far put on the socket. */
  function ReplyWrites<V>(s: L.Script<V>, replies: seq<L.Fields<V>>): seq<Effect> {
    if replies == [] then []
    else ReplyWrites(s, replies[..|replies| - 1]) + L.Replied(s, replies, |replies| - 1)
  }

  /** d is the device c without the replies. */
  ghost predicate Without(c: Client, d: Client) {
    c.phase == d.phase && c.mail == d.mail && Side(c.effects, false) == d.effects
  }

  ghost predicate Shadows<V>(s: L.Script<V>, sv: L.Service, d: Client) {
    && Without(sv.client, d) && AllFramed(sv.client.effects)
    && Side(sv.client.effects, true) == ReplyWrites(s, L.After(s, sv.run).replies)
  }

  /** What stays as it is when the client answers the server by itself. */
  ghost predicate SameReplies(c: Client, e: Client) {
    Side(e.effects, true) == Side(c.effects, true) && (AllFramed(c.effects) ==> AllFramed(e.effects))
  }

  lemma OwnEffect(c: Client, d: Client, e: Effect)
    requires Side(c.effects, false) == d.effects && !IsText(e) && Framed(e)
    ensures Side(c.effects + [e], false) == d.effects + [e]
    ensures SameReplies(c, c.(effects := c.effects + [e]))
  {
    SideAppend(c.effects, [e], false);
    SideAppend(c.effects, [e], true);
    SideOfOne(e, false);
    SideOfOne(e, true);
    assert Side(c.effects, true) + [] == Side(c.effects, true);
  }

  lemma PongIsOwn(payload: seq<Byte>)
    requires |payload| < 0x1_0000
    ensures var e := Wrote(ClientFrame(payload, PONG)); !IsText(e) && Framed(e)
  {
    assert IsFrame(ClientFrame(payload, PONG), payload, PONG);
    FrameReads(ClientFrame(payload, PONG), payload, PONG);
  }

  lemma ReactWithout(c: Client, d: Client, f: Received)
    requires |f.payload| < 0x1_0000 && Without(c, d)
    ensures Without(React(c, f), React(d, f)) && SameReplies(c, React(c, f))
  {
    if f.opcode == PING {
      PongIsOwn(f.payload);
      OwnEffect(c, d, Wrote(ClientFrame(f.payload, PONG)));
    } else if f.opcode == CLOSE {
      OwnEffect(c, d, HungUp);
    }
  }

  lemma {:induction false} FlowWithout(c: Client, d: Client, bytes: seq<Byte>)
    requires Side(c.effects, false) == d.effects && c.mail == d.mail
    ensures Without(Flow(c, bytes), Flow(d, bytes)) && SameReplies(c, Flow(c, bytes))
    decreases |bytes|
  {
    match TakeFrame(bytes)
    case Short =>
    case Taken(f, rest) =>
      ReactWithout(c.(phase := Refused([])), d.(phase := Refused([])), f);
      FlowForgetsPhase(c, Refused([]), bytes);
      FlowForgetsPhase(d, Refused([]), bytes);
      FlowWithout(React(c.(phase := Refused([])), f), React(d.(phase := Refused([])), f), rest);
  }

  lemma ReceiveWithout(c: Client, d: Client, chunk: seq<Byte>)
    requires Without(c, d)
    ensures Without(Receive(c, chunk), Receive(d, chunk)) && SameReplies(c, Receive(c, chunk))
  {
    match c.phase
    case Handshaking(seen) =>
      var all := seen + chunk;
      var found := FindBlankLine(all, 0);
      if found.Some? {
        FlowWithout(c, d, all[found.value + 4..]);
      }
    case Refused(_) =>
    case Open(buffer) => FlowWithout(c, d, buffer + chunk);
  }

  lemma {:induction false} NothingRepliedYet(before: seq<Event>)
    ensures var c := Run(FRESH, before); Without(c, c) && Side(c.effects, true) == [] && AllFramed(c.effects)
  {
    if before != [] {
      var earlier, e := before[..|before| - 1], before[|before| - 1];
      NothingRepliedYet(earlier);
      if e.Data? {
        ReceiveWithout(Run(FRESH, earlier), Run(FRESH, earlier), e.chunk);
      }
    }
  }

  // ----- the loop and its device, step by step ----------------------------------------------

  /** The loop goes round once more. */
  predicate GoesOn<V>(s: L.Script<V>, sv: L.Service, h: L.Happening) {
    && h.Resumes? && L.After(s, sv.run).status == L.Serving && !L.Awaited(sv).Waiting?
    && L.After(s, L.Happens(s, sv, h).run).status == L.Serving
  }

  /** What happens to the device itself. */
  function Beneath<V>(s: L.Script<V>, sv: L.Service, h: L.Happening): seq<Event> {
    match h
    case Arrives(chunk) => [Data(chunk)]
    case TimesOut(call) => [Timeout(call)]
    case Resumes(_) => if GoesOn(s, sv, h) then [Next] else []
  }

  function Underneath<V>(s: L.Script<V>, sv: L.Service, life: seq<L.Happening>): seq<Event>
    decreases |life|
  {
    if life == [] then []
    else
      var before := life[..|life| - 1];
      Underneath(s, sv, before) + Beneath(s, Lives(s, sv, before), life[|life| - 1])
  }

  lemma RunOneMore(c: Client, events: seq<Event>, more: seq<Event>)
    requires |more| <= 1
    ensures Run(c, events + more) == if more == [] then Run(c, events) else Handle(Run(c, events), more[0])
    ensures Stream(events + more) == Stream(events) + if more != [] && more[0].Data? then more[0].chunk else []
  {
    if more == [] {
      assert events + more == events;
    } else {
      assert (events + more)[..|events|] == events;
    }
  }

  lemma RepliesGrow<V>(s: L.Script<V>, l: L.Loop<V>, e: L.Settled)
    requires l.status == L.Serving
    ensures var replies := L.Step(s, l, e).replies;
            ReplyWrites(s, replies) == ReplyWrites(s, l.replies) + L.Replied(s, replies, |l.replies|)
  {
    var replies := L.Step(s, l, e).replies;
    if replies == l.replies {
      assert ReplyWrites(s, l.replies) + [] == ReplyWrites(s, l.replies);
    } else {
      assert replies[..|l.replies|] == l.replies;
    }
  }

  lemma RepliedIsText<V>(s: L.Script<V>, replies: seq<L.Fields<V>>, n: nat)
    ensures var wrote := L.Replied(s, replies, n);
            Side(wrote, false) == [] && Side(wrote, true) == wrote && AllFramed(wrote)
  {
    if n < |replies| && L.Fits(s, replies[n]) {
      var bytes := ClientFrame(s.stringify(replies[n]), TEXT);
      assert IsFrame(bytes, s.stringify(replies[n]), TEXT);
      FrameReads(bytes, s.stringify(replies[n]), TEXT);
      SideOfOne(Wrote(bytes), true);
      SideOfOne(Wrote(bytes), false);
    }
  }

  lemma ResumedShadows<V>(s: L.Script<V>, sv: L.Service, d: Client, e: L.Settled)
    requires Shadows(s, sv, d) && L.After(s, sv.run).status == L.Serving
    ensures var after := L.Resumed(s, sv, e);
            Shadows(s, after, if L.After(s, after.run).status == L.Serving then Handle(d, Event.Next) else d)
  {
    var wrote := L.Replied(s, L.After(s, sv.run + [e]).replies, |L.After(s, sv.run).replies|);
    L.AfterOneMore(s, sv.run, e);
    RepliesGrow(s, L.After(s, sv.run), e);
    RepliedIsText(s, L.After(s, sv.run + [e]).replies, |L.After(s, sv.run).replies|);
    SideAppend(sv.client.effects, wrote, true);
    SideAppend(sv.client.effects, wrote, false);
    assert d.effects + [] == d.effects;
  }

  lemma ShadowStep<V>(s: L.Script<V>, sv: L.Service, d: Client, h: L.Happening)
    requires Shadows(s, sv, d)
    ensures var more := Beneath(s, sv, h);
            Shadows(s, L.Happens(s, sv, h), if more == [] then d else Handle(d, more[0]))
  {
    match h
    case Arrives(chunk) => ReceiveWithout(sv.client, d, chunk);
    case TimesOut(call) =>
    case Resumes(stopped) =>
      if L.After(s, sv.run).status == L.Serving && !L.Awaited(sv).Waiting? {
        ResumedShadows(s, sv, d, L.Settled(L.Came(L.Awaited(sv)), stopped));
      }
  }

  /** Without its replies, the device lives through a run of its own, over the same bytes. */
  lemma {:induction false} LifeIsARun<V>(s: L.Script<V>, before: seq<Event>, life: seq<L.Happening>)
    ensures var start := L.Started(Run(FRESH, before));
            var events := before + [Next] + Underneath(s, start, life);
            && Shadows(s, Lives(s, start, life), Run(FRESH, events))
            && Stream(events) == Stream(before) + Chunks(life)
    decreases |life|
  {
    var start := L.Started(Run(FRESH, before));
    var events := before + [Next] + Underneath(s, start, life);
    if life == [] {
      assert events == before + [Next];
      RunOneMore(FRESH, before, [Next]);
      NothingRepliedYet(before);
    } else {
      var earlier, h := life[..|life| - 1], life[|life| - 1];
      LifeIsARun(s, before, earlier);
      var sv, so := Lives(s, start, earlier), before + [Next] + Underneath(s, start, earlier);
      ShadowStep(s, sv, Run(FRESH, so), h);
      Regroup(before + [Next], Underneath(s, start, earlier), Beneath(s, sv, h));
      RunOneMore(FRESH, so, Beneath(s, sv, h));
      Regroup(Stream(before), Chunks(earlier), if h.Arrives? then h.chunk else []);
    }
  }

  // ----- what the loop has heard --------------------------------------------------------------

  /** The loop heard what its calls settled with, never after it had ended, and while it
      serves it waits on the last call made. */
  ghost predicate InStep<V>(s: L.Script<V>, sv: L.Service) {
    var outcomes := Mailbox.After(sv.client.mail).outcomes;
    && L.RunsOn(sv.run, outcomes, sv.first) && L.Seen(s, sv.run) == |sv.run|
    && (L.After(s, sv.run).status == L.Serving ==> |outcomes| == sv.first + |sv.run| + 1)
  }

  lemma StartsInStep<V>(s: L.Script<V>, c: Client)
    ensures InStep(s, L.Started(c))
  {
    Mailbox.EveryCallHasAnOutcome(c.mail);
    L.OneMoreCall(c.mail);
  }

  lemma NobodyCallsInStep<V>(s: L.Script<V>, sv: L.Service, after: Client)
    requires InStep(s, sv)
    requires sv.client.mail <= after.mail && Mailbox.Calls(after.mail) == Mailbox.Calls(sv.client.mail)
    ensures InStep(s, sv.(client := after))
  {
    L.NobodyCalled(sv.run, sv.first, sv.client, after);
  }

  lemma ResumesInStep<V>(s: L.Script<V>, sv: L.Service, stopped: bool)
    requires InStep(s, sv) && L.After(s, sv.run).status == L.Serving && !L.Awaited(sv).Waiting?
    ensures InStep(s, L.Resumed(s, sv, L.Settled(L.Came(L.Awaited(sv)), stopped)))
  {
    var e := L.Settled(L.Came(L.Awaited(sv)), stopped);
    L.OneTurn(s, sv, e);
    L.OneMoreCall(sv.client.mail);
    assert (sv.run + [e])[..|sv.run|] == sv.run;
  }

  lemma {:induction false} LivesInStep<V>(s: L.Script<V>, c: Client, life: seq<L.Happening>)
    ensures InStep(s, Lives(s, L.Started(c), life)) && Lives(s, L.Started(c), life).first == Mailbox.Calls(c.mail)
    decreases |life|
  {
    if life == [] {
      StartsInStep(s, c);
    } else {
      LivesInStep(s, c, life[..|life| - 1]);
      var sv := Lives(s, L.Started(c), life[..|life| - 1]);
      match life[|life| - 1]
      case Arrives(chunk) =>
        L.ReceiveOnlyAddsMail(sv.client, chunk);
        NobodyCallsInStep(s, sv, Receive(sv.client, chunk));
      case TimesOut(call) =>
        L.TimeoutsAreNoCalls(sv.client.mail, call);
        NobodyCallsInStep(s, sv, Handle(sv.client, Event.Timeout(call)));
      case Resumes(stopped) =>
        if L.After(s, sv.run).status == L.Serving && !L.Awaited(sv).Waiting? {
          ResumesInStep(s, sv, stopped);
        }
    }
  }

  function Past<T>(n: nat, all: seq<T>): seq<T> {
    if n <= |all| then all[n..] else []
  }

  /** Every call the loop saw settle brought a message, but perhaps the last. */
  lemma HeardAllButTheLast<V>(s: L.Script<V>, run: seq<L.Settled>)
    requires L.Seen(s, run) == |run| && run != []
    ensures forall j :: 0 <= j < |run| - 1 ==> run[j].outcome.Some?
    ensures run[|run| - 1].outcome.None? ==> L.Heard(run) == L.Heard(run[..|run| - 1])
  {
    var before := run[..|run| - 1];
    L.ServingHeardEverything(s, before);
    assert forall j :: 0 <= j < |before| ==> run[j] == before[j];
    assert L.Heard(before) + [] == L.Heard(before);
  }

  lemma HeardIsPrefix(run: seq<L.Settled>, mail: seq<Mailbox.Event<Message>>, first: nat)
    requires L.RunsOn(run, Mailbox.After(mail).outcomes, first)
    requires forall j :: 0 <= j < |run| ==> run[j].outcome.Some?
    ensures L.Heard(run) <= Past(first, Mailbox.Messages(mail)) && |L.Heard(run)| == |run|
  {
    L.HeardInOrder(run, mail, first);
  }

  lemma AskedWhatItHeard<V>(s: L.Script<V>, run: seq<L.Settled>)
    requires L.Seen(s, run) == |run|
    ensures L.After(s, run).asked == L.Questions(s, L.Heard(run))
  {
    L.AskedAreTheQuestions(s, run);
    assert run[..|run|] == run;
  }

  /** What the loop heard are the messages from its first call on, as far as it got. */
  lemma HeardSoFar<V>(s: L.Script<V>, sv: L.Service)
    requires InStep(s, sv)
    ensures L.Heard(sv.run) <= Past(sv.first, Mailbox.Messages(sv.client.mail))
  {
    var run := sv.run;
    if run != [] {
      HeardAllButTheLast(s, run);
      var all := if run[|run| - 1].outcome.Some? then run else run[..|run| - 1];
      HeardIsPrefix(all, sv.client.mail, sv.first);
    }
  }

  /** A loop that serves and waits has heard everything that came. */
  lemma WaitingHeardAll<V>(s: L.Script<V>, sv: L.Service)
    requires InStep(s, sv) && L.After(s, sv.run).status == L.Serving && L.Awaited(sv).Waiting?
    ensures L.Heard(sv.run) == Past(sv.first, Mailbox.Messages(sv.client.mail))
  {
    Mailbox.PairingLaw(sv.client.mail);
    L.ServingHeardEverything(s, sv.run);
    HeardIsPrefix(sv.run, sv.client.mail, sv.first);
  }

  // ----- what the server gets --------------------------------------------------------------------

  function Bodies<V>(s: L.Script<V>, replies: seq<L.Fields<V>>): seq<Message> {
    seq(|replies|, i requires 0 <= i < |replies| => s.stringify(replies[i]))
  }

  lemma {:induction false} SendingsAppend(effects: seq<Effect>, more: seq<Effect>)
    requires AllFramed(effects) && HangUps(effects) == 0
    ensures Sendings(effects + more) == Sendings(effects) + Sendings(more)
  {
    if effects == [] {
      assert effects + more == more;
    } else {
      assert Framed(effects[0]);
      assert (effects + more)[1..] == effects[1..] + more;
      SendingsAppend(effects[1..], more);
      var payload: seq<Byte>, opcode: Byte :| IsFrame(effects[0].bytes, payload, opcode);
      FrameReads(effects[0].bytes, payload, opcode);
      Regroup([Sent(payload, opcode)], Sendings(effects[1..]), Sendings(more));
    }
  }

  lemma {:induction false} HangUpsAppend(effects: seq<Effect>, more: seq<Effect>)
    ensures HangUps(effects + more) == HangUps(effects) + HangUps(more)
  {
    if effects == [] {
      assert effects + more == more;
    } else {
      assert (effects + more)[1..] == effects[1..] + more;
      HangUpsAppend(effects[1..], more);
    }
  }

  lemma {:induction false} TextsAppend(frames: seq<Frame>, more: seq<Frame>)
    ensures Texts(frames + more) == Texts(frames) + Texts(more)
  {
    if frames == [] {
      assert frames + more == more;
    } else {
      assert (frames + more)[1..] == frames[1..] + more;
      TextsAppend(frames[1..], more);
      Regroup(if frames[0].opcode == TEXT then [frames[0].payload] else [], Texts(frames[1..]), Texts(more));
    }
  }

  lemma OneMoreText(effects: seq<Effect>, payload: seq<Byte>)
    requires AllFramed(effects) && HangUps(effects) == 0 && |payload| < 0x1_0000
    ensures var more := [Wrote(ClientFrame(payload, TEXT))];
            && Texts(Sendings(effects + more)) == Texts(Sendings(effects)) + [payload]
            && HangUps(effects + more) == 0
  {
    var last := Wrote(ClientFrame(payload, TEXT));
    assert IsFrame(last.bytes, payload, TEXT);
    SendingsAppend(effects, [last]);
    HangUpsAppend(effects, [last]);
    HeadOfSendings(last, [], payload, TEXT);
    assert [last] + [] == [last] && Sendings([]) == [] && [Sent(payload, TEXT)] + [] == [Sent(payload, TEXT)];
    TextsAppend(Sendings(effects), [Sent(payload, TEXT)]);
    HeadOfOthers(Sent(payload, TEXT), []);
    assert [Sent(payload, TEXT)] + [] == [Sent(payload, TEXT)] && [payload] + Texts([]) == [payload];
  }

  lemma ReplyReads<V>(s: L.Script<V>, replies: seq<L.Fields<V>>, n: nat, effects: seq<Effect>)
    requires n < |replies| && L.Fits(s, replies[n]) && AllFramed(effects) && HangUps(effects) == 0
    ensures var more := effects + L.Replied(s, replies, n);
            && Texts(Sendings(more)) == Texts(Sendings(effects)) + [s.stringify(replies[n])]
            && AllFramed(more) && HangUps(more) == 0
  {
    OneMoreText(effects, s.stringify(replies[n]));
    RepliedIsText(s, replies, n);
  }

  lemma {:induction false} RepliesRead<V>(s: L.Script<V>, replies: seq<L.Fields<V>>)
    requires forall i :: 0 <= i < |replies| ==> L.Fits(s, replies[i])
    ensures Texts(Sendings(ReplyWrites(s, replies))) == Bodies(s, replies)
    ensures AllFramed(ReplyWrites(s, replies)) && HangUps(ReplyWrites(s, replies)) == 0
  {
    if replies != [] {
      var n := |replies| - 1;
      RepliesRead(s, replies[..n]);
      ReplyReads(s, replies, n, ReplyWrites(s, replies[..n]));
      assert Bodies(s, replies) == Bodies(s, replies[..n]) + [s.stringify(replies[n])];
    }
  }

  lemma {:induction false} OnlyTheOthersHangUp(effects: seq<Effect>)
    ensures HangUps(Side(effects, false)) == HangUps(effects)
  {
    if effects != [] {
      OnlyTheOthersHangUp(effects[1..]);
      assert effects == [effects[0]] + effects[1..];
      HeadOfSide(effects[0], effects[1..], false);
      assert ([effects[0]] + Side(effects[1..], false))[1..] == Side(effects[1..], false);
    }
  }

  lemma {:induction false} SideIsFramed(effects: seq<Effect>, texts: bool)
    requires AllFramed(effects)
    ensures AllFramed(Side(effects, texts))
  {
    if effects != [] {
      SideIsFramed(effects[1..], texts);
    }
  }

  /** A socket whose own answers are these and whose replies are those, read by the server. */
  lemma ServerReadsBoth<V>(s: L.Script<V>, effects: seq<Effect>, replies: seq<L.Fields<V>>, frames: seq<Frame>)
    requires AllFramed(effects) && Speaks(frames) && Side(effects, false) == Answers(frames)
    requires Side(effects, true) == ReplyWrites(s, replies)
    requires forall i :: 0 <= i < |replies| ==> L.Fits(s, replies[i])
    ensures DecodeAll(Written(effects)) == Some(Sendings(effects))
    ensures Others(Sendings(effects)) == Pongs(UpToClose(frames))
    ensures Texts(Sendings(effects)) <= Bodies(s, replies)
    ensures Closes(frames) == 0 ==> Texts(Sendings(effects)) == Bodies(s, replies)
  {
    SendingsAreDecoded(effects);
    SidesAreSent(effects);
    RepliesRead(s, replies);
    AnswersAreWritten(frames);
    SideIsFramed(effects, false);
    SendingsAreDecoded(Answers(frames));
    OnlyTheOthersHangUp(effects);
  }

  lemma RepliesFit<V>(s: L.Script<V>, run: seq<L.Settled>)
    ensures L.Matched(s, L.After(s, run))
    ensures var replies := L.After(s, run).replies; forall i :: 0 <= i < |replies| ==> L.Fits(s, replies[i])
  {
    L.AskedAreTheQuestions(s, run);
  }

  // ----- which replies the server still gets ----------------------------------------------

  /** The life up to the first happening after which the socket has been ended, or all of it. */
  function Heeded<V>(s: L.Script<V>, sv: L.Service, life: seq<L.Happening>): seq<L.Happening>
    decreases |life|
  {
    if life == [] then []
    else
      var before := life[..|life| - 1];
      if HangUps(Lives(s, sv, before).client.effects) > 0 then Heeded(s, sv, before) else life
  }

  lemma {:induction false} FlowOnlyAddsEffects(c: Client, bytes: seq<Byte>)
    ensures c.effects <= Flow(c, bytes).effects
    decreases |bytes|
  {
    match TakeFrame(bytes)
    case Short =>
    case Taken(f, rest) => FlowOnlyAddsEffects(React(c, f), rest);
  }

  lemma ReceiveOnlyAddsEffects(c: Client, chunk: seq<Byte>)
    ensures c.effects <= Receive(c, chunk).effects
  {
    match c.phase
    case Handshaking(seen) =>
      var all := seen + chunk;
      var found := FindBlankLine(all, 0);
      if found.Some? {
        FlowOnlyAddsEffects(c, all[found.value + 4..]);
      }
    case Refused(_) =>
    case Open(buffer) => FlowOnlyAddsEffects(c, buffer + chunk);
  }

  /** Behind the end of the socket nothing is sent. */
  lemma {:induction false} NothingSentAfter(effects: seq<Effect>, more: seq<Effect>)
    requires HangUps(effects) > 0
    ensures Sendings(effects + more) == Sendings(effects)
  {
    assert (effects + more)[1..] == effects[1..] + more;
    if effects[0].Wrote? {
      NothingSentAfter(effects[1..], more);
    }
  }

  /** What the device does by itself sends no text. */
  lemma OwnSendsNoText(effects: seq<Effect>, more: seq<Effect>)
    requires AllFramed(effects + more) && Side(effects + more, true) == Side(effects, true)
    ensures Texts(Sendings(effects + more)) == Texts(Sendings(effects))
  {
    if HangUps(effects) > 0 {
      NothingSentAfter(effects, more);
    } else {
      assert forall e :: e in effects || e in more ==> e in effects + more;
      SideAppend(effects, more, true);
      SidesAreSent(more);
      SendingsAppend(effects, more);
      TextsAppend(Sendings(effects), Sendings(more));
      assert Texts(Sendings(Side(more, true))) == [];
    }
  }

  lemma ChunkSendsNoText(c: Client, chunk: seq<Byte>)
    requires Without(c, c.(effects := Side(c.effects, false))) && AllFramed(c.effects)
    ensures Texts(Sendings(Receive(c, chunk).effects)) == Texts(Sendings(c.effects))
  {
    ReceiveWithout(c, c.(effects := Side(c.effects, false)), chunk);
    ReceiveOnlyAddsEffects(c, chunk);
    var more := Receive(c, chunk).effects[|c.effects|..];
    assert Receive(c, chunk).effects == c.effects + more;
    OwnSendsNoText(c.effects, more);
  }

  /** The replies made so far, as the server reads them while the socket is open. */
  lemma OpenSocketSendsAll<V>(s: L.Script<V>, sv: L.Service, d: Client)
    requires Shadows(s, sv, d) && HangUps(sv.client.effects) == 0
    ensures Texts(Sendings(sv.client.effects)) == Bodies(s, L.After(s, sv.run).replies)
  {
    SidesAreSent(sv.client.effects);
    RepliesFit(s, sv.run);
    RepliesRead(s, L.After(s, sv.run).replies);
  }

  /** One happening more, on a socket that had been ended, adds nothing. */
  lemma EndedSocketSendsNoMore<V>(s: L.Script<V>, sv: L.Service, h: L.Happening)
    requires HangUps(sv.client.effects) > 0
    ensures Sendings(L.Happens(s, sv, h).client.effects) == Sendings(sv.client.effects)
    ensures HangUps(L.Happens(s, sv, h).client.effects) > 0
  {
    var effects, after := sv.client.effects, L.Happens(s, sv, h).client.effects;
    if h.Arrives? {
      ReceiveOnlyAddsEffects(sv.client, h.chunk);
    }
    assert effects <= after && after == effects + after[|effects|..];
    NothingSentAfter(effects, after[|effects|..]);
    HangUpsAppend(effects, after[|effects|..]);
  }

  lemma RepliesHangNothingUp<V>(s: L.Script<V>, sv: L.Service, h: L.Happening)
    requires !h.Arrives? && HangUps(sv.client.effects) == 0
    ensures HangUps(L.Happens(s, sv, h).client.effects) == 0
  {
    if h.Resumes? && L.After(s, sv.run).status == L.Serving && !L.Awaited(sv).Waiting? {
      var run := sv.run + [L.Settled(L.Came(L.Awaited(sv)), h.stopped)];
      var wrote := L.Replied(s, L.After(s, run).replies, |L.After(s, sv.run).replies|);
      HangUpsAppend(sv.client.effects, wrote);
      assert HangUps(wrote) == 0;
    }
  }

  /** One happening more, on an open socket: the server gets the replies made by then, those
      of a chunk that ends the socket included, for they were made before it came. */
  lemma OpenSocketGoesOn<V>(s: L.Script<V>, sv: L.Service, d: Client, e: Client, h: L.Happening)
    requires Shadows(s, sv, d) && HangUps(sv.client.effects) == 0 && Shadows(s, L.Happens(s, sv, h), e)
    ensures var after := L.Happens(s, sv, h);
            Texts(Sendings(after.client.effects)) == Bodies(s, L.After(s, after.run).replies)
  {
    if h.Arrives? {
      OpenSocketSendsAll(s, sv, d);
      ChunkSendsNoText(sv.client, h.chunk);
    } else {
      RepliesHangNothingUp(s, sv, h);
      OpenSocketSendsAll(s, L.Happens(s, sv, h), e);
    }
  }

  lemma NothingSentYet(before: seq<Event>)
    ensures Texts(Sendings(Run(FRESH, before).effects)) == []
  {
    NothingRepliedYet(before);
    SidesAreSent(Run(FRESH, before).effects);
  }

  /** The server gets the replies made while the socket was open, and no others. */
  lemma {:induction false} HeededRepliesAreSent<V>(s: L.Script<V>, before: seq<Event>, life: seq<L.Happening>)
    ensures var start := L.Started(Run(FRESH, before));
            Texts(Sendings(Lives(s, start, life).client.effects))
            == Bodies(s, L.After(s, Lives(s, start, Heeded(s, start, life)).run).replies)
    decreases |life|
  {
    var start := L.Started(Run(FRESH, before));
    if life == [] {
      NothingSentYet(before);
    } else {
      var earlier, h := life[..|life| - 1], life[|life| - 1];
      var sv := Lives(s, start, earlier);
      LifeIsARun(s, before, earlier);
      LifeIsARun(s, before, life);
      if HangUps(sv.client.effects) > 0 {
        HeededRepliesAreSent(s, before, earlier);
        EndedSocketSendsNoMore(s, sv, h);
      } else {
        OpenSocketGoesOn(s, sv, Run(FRESH, before + [Next] + Underneath(s, start, earlier)),
                         Run(FRESH, before + [Next] + Underneath(s, start, life)), h);
      }
    }
  }

  /** End to end, from the server's frames to its frames, whatever the chunks, the timers
      and the turns of the loop, and whatever the device did before: what the loop hears
      are the text payloads from its first call on, none skipped and none twice, and all
      of them once it waits; it asks itself exactly the questions among them, reply i
      answers question i, and the server decodes exactly its pongs up to the first close and
      the replies made before the socket was ended, in order. */
  lemma DatabaseIsServed<V>(
    s: L.Script<V>, before: seq<Event>, life: seq<L.Happening>, head: seq<Byte>, frames: seq<Frame>, tail: seq<Byte>)
    requires UpgradeHead(head) && Speaks(frames) && TakeFrame(tail).Short?
    requires Stream(before) + Chunks(life) == head + BLANK_LINE + (EncodeAll(frames) + tail)
    ensures var c := Run(FRESH, before);
            var sv := Lives(s, L.Started(c), life);
            var l, heard := L.After(s, sv.run), L.Heard(sv.run);
            var texts := Past(Mailbox.Calls(c.mail), Texts(frames));
            && heard <= texts
            && (l.status == L.Serving && L.Awaited(sv).Waiting? ==> heard == texts)
            && l.asked == L.Questions(s, heard) && L.Matched(s, l)
            && var sent := Sendings(sv.client.effects);
            && DecodeAll(Written(sv.client.effects)) == Some(sent)
            && Others(sent) == Pongs(UpToClose(frames))
            && Texts(sent) == Bodies(s, L.After(s, Lives(s, L.Started(c), Heeded(s, L.Started(c), life)).run).replies)
            && (Closes(frames) == 0 ==> Texts(sent) == Bodies(s, l.replies))
  {
    var start := L.Started(Run(FRESH, before));
    var sv := Lives(s, start, life);
    LifeIsARun(s, before, life);
    ServerIsUnderstood(before + [Next] + Underneath(s, start, life), head, frames, tail);
    LivesInStep(s, Run(FRESH, before), life);
    HeardSoFar(s, sv);
    AskedWhatItHeard(s, sv.run);
    if L.After(s, sv.run).status == L.Serving && L.Awaited(sv).Waiting? {
      WaitingHeardAll(s, sv);
    }
    RepliesFit(s, sv.run);
    ServerReadsBoth(s, sv.client.effects, L.After(s, sv.run).replies, frames);
    HeededRepliesAreSent(s, before, life);
  }
}
