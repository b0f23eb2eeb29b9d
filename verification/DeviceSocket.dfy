/** The device client of e2e/device.js: the upgrade handshake, the incremental
    frame decoder and the mailbox behind `next()`, over one stream of bytes cut up
    by the network however it likes.

    A message is its payload bytes; turning them into text is Node's business. */
module DeviceClient {
  import opened Octets
  import opened Prelude
  import opened Wire
  import Mailbox

  type Message = seq<Byte>

  const TEXT: Byte := 0x1
  const CLOSE: Byte := 0x8
  const PING: Byte := 0x9
  const PONG: Byte := 0xa

  const BLANK_LINE: seq<Byte> := [13, 10, 13, 10]
  /** "HTTP/1.1 101" */
  const SWITCHING: seq<Byte> := [72, 84, 84, 80, 47, 49, 46, 49, 32, 49, 48, 49]

  /** What the client did to its socket. */
  datatype Effect = Wrote(bytes: seq<Byte>) | HungUp

  datatype Phase =
    | Handshaking(seen: seq<Byte>)   // no blank line yet
    | Refused(head: seq<Byte>)       // the upgrade was rejected; nobody listens
    | Open(buffer: seq<Byte>)

  /** The client as a value: where the stream has got to, what was done to the
      socket, and the history of its mailbox. */
  datatype Client = Client(phase: Phase, effects: seq<Effect>, mail: seq<Mailbox.Event<Message>>)

  const FRESH: Client := Client(Handshaking([]), [], [])

  datatype Event = Data(chunk: seq<Byte>) | Next | Timeout(call: nat)

  // ----- one frame, one chunk, one run ----------------------------------------

  function React(c: Client, f: Received): Client
    requires |f.payload| < 0x1_0000
  {
    if f.opcode == PING then c.(effects := c.effects + [Wrote(ClientFrame(f.payload, PONG))])
    else if f.opcode == CLOSE then c.(effects := c.effects + [HungUp])
    else if f.opcode != TEXT then c
    else c.(mail := c.mail + [Mailbox.Arrive(f.payload)])
  }

  /** The drain loop. */
  function Flow(c: Client, bytes: seq<Byte>): Client
    decreases |bytes|
  {
    match TakeFrame(bytes)
    case Short => c.(phase := Open(bytes))
    case Taken(f, rest) => Flow(React(c, f), rest)
  }

  ghost predicate BlankLineAt(bytes: seq<Byte>, i: nat) {
    i + 4 <= |bytes| && bytes[i..i + 4] == BLANK_LINE
  }

  /** indexOf('\r\n\r\n'), from position i on. */
  function FindBlankLine(bytes: seq<Byte>, i: nat): (r: Option<nat>)
    ensures r.Some? ==> i <= r.value && BlankLineAt(bytes, r.value)
    ensures r.Some? ==> forall j :: i <= j < r.value ==> !BlankLineAt(bytes, j)
    ensures r.None? ==> forall j :: i <= j ==> !BlankLineAt(bytes, j)
    decreases |bytes| - i
  {
    if i + 4 > |bytes| then None
    else if bytes[i..i + 4] == BLANK_LINE then Some(i)
    else FindBlankLine(bytes, i + 1)
  }

  /** The status line is that of an upgrade. */
  predicate Accepts(head: seq<Byte>) {
    SWITCHING <= head
  }

  function Receive(c: Client, chunk: seq<Byte>): Client {
    match c.phase
    case Handshaking(seen) =>
      var all := seen + chunk;
      (match FindBlankLine(all, 0)
       case None => c.(phase := Handshaking(all))
       case Some(end) =>
         if Accepts(all[..end]) then Flow(c, all[end + 4..])
         else c.(phase := Refused(all[..end])))
    case Refused(_) => c
    case Open(buffer) => Flow(c, buffer + chunk)
  }

  function Handle(c: Client, e: Event): Client {
    match e
    case Data(chunk) => Receive(c, chunk)
    case Next => c.(mail := c.mail + [Mailbox.Next])
    case Timeout(k) => c.(mail := c.mail + [Mailbox.Timeout(k)])
  }

  function Run(c: Client, events: seq<Event>): Client {
    if events == [] then c
    else Handle(Run(c, events[..|events| - 1]), events[|events| - 1])
  }

  function ReceiveAll(c: Client, chunks: seq<seq<Byte>>): Client
    decreases |chunks|
  {
    if chunks == [] then c else ReceiveAll(Receive(c, chunks[0]), chunks[1..])
  }

  // ----- chunking ----------------------------------------------------------------

  /** Nothing more could be done with the bytes at hand. True at every boundary
      between events. */
  ghost predicate Settled(c: Client) {
    match c.phase
    case Handshaking(seen) => FindBlankLine(seen, 0).None?
    case Refused(_) => true
    case Open(buffer) => TakeFrame(buffer).Short?
  }

  lemma {:induction false} FlowSettles(c: Client, bytes: seq<Byte>)
    ensures Flow(c, bytes).phase == Open(Drain(bytes).leftover)
    ensures Settled(Flow(c, bytes))
    decreases |bytes|
  {
    match TakeFrame(bytes)
    case Short =>
    case Taken(f, rest) => FlowSettles(React(c, f), rest);
  }

  lemma ReceiveSettles(c: Client, chunk: seq<Byte>)
    requires Settled(c)
    ensures Settled(Receive(c, chunk))
  {
    match c.phase
    case Handshaking(seen) =>
      var all := seen + chunk;
      var found := FindBlankLine(all, 0);
      if found.Some? {
        FlowSettles(c, all[found.value + 4..]);
      }
    case Refused(_) =>
    case Open(buffer) => FlowSettles(c, buffer + chunk);
  }

  lemma {:induction false} FlowForgetsPhase(c: Client, p: Phase, bytes: seq<Byte>)
    ensures Flow(c, bytes) == Flow(c.(phase := p), bytes)
    decreases |bytes|
  {
    match TakeFrame(bytes)
    case Short =>
    case Taken(f, rest) => FlowForgetsPhase(React(c, f), p, rest);
  }

  lemma {:induction false} FlowInTwoSteps(c: Client, first: seq<Byte>, second: seq<Byte>)
    ensures Flow(c, first + second) == Receive(Flow(c, first), second)
    decreases |first|
  {
    match TakeFrame(first)
    case Short => FlowForgetsPhase(c, Open(first), first + second);
    case Taken(f, rest) =>
      TakeFrameIgnoresWhatFollows(first, second);
      FlowInTwoSteps(React(c, f), rest, second);
  }

  lemma FoundBlankLineStays(bytes: seq<Byte>, more: seq<Byte>)
    requires FindBlankLine(bytes, 0).Some?
    ensures FindBlankLine(bytes + more, 0) == FindBlankLine(bytes, 0)
  {
    var end := FindBlankLine(bytes, 0).value;
    var longer := bytes + more;
    assert longer[end..end + 4] == bytes[end..end + 4];
    assert BlankLineAt(longer, end);
    forall j | 0 <= j < end
      ensures !BlankLineAt(longer, j)
    {
      assert !BlankLineAt(bytes, j);
      assert longer[j..j + 4] == bytes[j..j + 4];
    }
  }

  /** The client once the blank line is in, with these bytes behind it. */
  function Upgraded(c: Client, head: seq<Byte>, behind: seq<Byte>): Client {
    if Accepts(head) then Flow(c, behind) else c.(phase := Refused(head))
  }

  lemma LateBytesAreForFrames(c: Client, early: seq<Byte>, late: seq<Byte>)
    requires FindBlankLine(early, 0).Some?
    requires c.phase.Handshaking? && c.phase.seen == early
    ensures var end := FindBlankLine(early, 0).value;
            Receive(c, late) == Upgraded(c, early[..end], early[end + 4..] + late)
  {
    var end := FindBlankLine(early, 0).value;
    var whole := early + late;
    FoundBlankLineStays(early, late);
    assert whole[..end] == early[..end];
    assert whole[end + 4..] == early[end + 4..] + late;
  }

  lemma UpgradedInTwoSteps(c: Client, head: seq<Byte>, behind: seq<Byte>, second: seq<Byte>)
    ensures Receive(Upgraded(c, head, behind), second) == Upgraded(c, head, behind + second)
  {
    FlowInTwoSteps(c, behind, second);
  }

  lemma TwoHandshakeChunksAreOne(c: Client, early: seq<Byte>, second: seq<Byte>)
    requires FindBlankLine(early, 0).Some?
    requires c.phase.Handshaking? && c.phase.seen == early
    ensures Receive(Receive(c, []), second) == Receive(c, second)
  {
    var end := FindBlankLine(early, 0).value;
    var behind := early[end + 4..];
    LateBytesAreForFrames(c, early, []);
    assert behind + [] == behind;
    LateBytesAreForFrames(c, early, second);
    UpgradedInTwoSteps(c, early[..end], behind, second);
  }

  lemma {:induction false} ReceiveForgetsHandshakePhase(c: Client, seen: seq<Byte>, chunk: seq<Byte>)
    requires c.phase.Handshaking?
    ensures Receive(c.(phase := Handshaking(c.phase.seen + seen)), chunk) == Receive(c, seen + chunk)
  {
    var d := c.(phase := Handshaking(c.phase.seen + seen));
    var all := (c.phase.seen + seen) + chunk;
    assert c.phase.seen + (seen + chunk) == all;
    var found := FindBlankLine(all, 0);
    if found.Some? {
      FlowForgetsPhase(c, d.phase, all[found.value + 4..]);
    }
  }

  /** Two chunks in a row are one chunk, wherever the cut falls: in the blank line,
      in a header, in a payload. */
  lemma TwoChunksAreOne(c: Client, first: seq<Byte>, second: seq<Byte>)
    ensures Receive(Receive(c, first), second) == Receive(c, first + second)
  {
    match c.phase
    case Handshaking(seen) =>
      var d := c.(phase := Handshaking(seen + first));
      ReceiveForgetsHandshakePhase(c, first, second);
      if FindBlankLine(seen + first, 0).Some? {
        ReceiveForgetsHandshakePhase(c, first, []);
        assert first + [] == first;
        TwoHandshakeChunksAreOne(d, seen + first, second);
      }
    case Refused(_) =>
    case Open(buffer) =>
      assert buffer + (first + second) == (buffer + first) + second;
      FlowInTwoSteps(c, buffer + first, second);
  }

  lemma EmptyChunkChangesNothing(c: Client)
    requires Settled(c)
    ensures Receive(c, []) == c
  {
    match c.phase
    case Handshaking(seen) => assert seen + [] == seen;
    case Refused(_) =>
    case Open(buffer) => assert buffer + [] == buffer;
  }

  /** Chunking independence, from any point of a run: only the bytes matter, never
      where they were cut. */
  lemma {:induction false} ChunkingIsInvisible(c: Client, chunks: seq<seq<Byte>>)
    requires Settled(c)
    ensures ReceiveAll(c, chunks) == Receive(c, Concat(chunks))
    decreases |chunks|
  {
    if chunks == [] {
      EmptyChunkChangesNothing(c);
    } else {
      ReceiveSettles(c, chunks[0]);
      ChunkingIsInvisible(Receive(c, chunks[0]), chunks[1..]);
      TwoChunksAreOne(c, chunks[0], Concat(chunks[1..]));
    }
  }

  // ----- a whole run -------------------------------------------------------------

  function Stream(events: seq<Event>): seq<Byte> {
    if events == [] then []
    else
      var e := events[|events| - 1];
      Stream(events[..|events| - 1]) + if e.Data? then e.chunk else []
  }

  /** The two clients are at the same place in the stream, did the same to the
      socket, and were sent the same messages. */
  ghost predicate SameWire(c: Client, d: Client) {
    && c.phase == d.phase
    && c.effects == d.effects
    && Mailbox.Messages(c.mail) == Mailbox.Messages(d.mail)
  }

  lemma {:induction false} FlowKeepsSameWire(c: Client, d: Client, bytes: seq<Byte>)
    requires c.effects == d.effects && Mailbox.Messages(c.mail) == Mailbox.Messages(d.mail)
    ensures SameWire(Flow(c, bytes), Flow(d, bytes))
    decreases |bytes|
  {
    match TakeFrame(bytes)
    case Short =>
    case Taken(f, rest) =>
      FlowKeepsSameWire(React(c, f), React(d, f), rest);
  }

  lemma ReceiveKeepsSameWire(c: Client, d: Client, chunk: seq<Byte>)
    requires SameWire(c, d)
    ensures SameWire(Receive(c, chunk), Receive(d, chunk))
  {
    match c.phase
    case Handshaking(seen) =>
      var all := seen + chunk;
      var found := FindBlankLine(all, 0);
      if found.Some? && Accepts(all[..found.value]) {
        FlowKeepsSameWire(c, d, all[found.value + 4..]);
      }
    case Refused(_) =>
    case Open(buffer) => FlowKeepsSameWire(c, d, buffer + chunk);
  }

  lemma ChunkKeepsDeciding(c: Client, stream: seq<Byte>, chunk: seq<Byte>)
    requires SameWire(c, Receive(FRESH, stream)) && Settled(c)
    ensures SameWire(Receive(c, chunk), Receive(FRESH, stream + chunk)) && Settled(Receive(c, chunk))
  {
    ReceiveSettles(c, chunk);
    ReceiveKeepsSameWire(c, Receive(FRESH, stream), chunk);
    TwoChunksAreOne(FRESH, stream, chunk);
  }

  /** In every run, whatever calls and timeouts come between the chunks: the place in
      the stream, the socket traffic and the messages are decided by the bytes alone. */
  lemma {:induction false} StreamDecides(events: seq<Event>)
    ensures SameWire(Run(FRESH, events), Receive(FRESH, Stream(events)))
    ensures Settled(Run(FRESH, events))
  {
    if events == [] {
      EmptyChunkChangesNothing(FRESH);
    } else {
      var before, e := events[..|events| - 1], events[|events| - 1];
      StreamDecides(before);
      match e
      case Data(chunk) => ChunkKeepsDeciding(Run(FRESH, before), Stream(before), chunk);
      case Next =>
        assert Stream(events) == Stream(before);
      case Timeout(k) =>
        assert Stream(events) == Stream(before);
    }
  }

  // ----- against a section 5.2 server ---------------------------------------------

  /** The start of the status line of section 4.2.2 of RFC 6455, HTTP/1.1 101, octet by octet. */
  predicate Says101(head: seq<Byte>) {
    && |head| >= 12
    && head[0] == 72 && head[1] == 84 && head[2] == 84 && head[3] == 80 && head[4] == 47 && head[5] == 49
    && head[6] == 46 && head[7] == 49 && head[8] == 32 && head[9] == 49 && head[10] == 48 && head[11] == 49
  }

  /** Carriage return and line feed, twice. */
  predicate EmptyLineAt(bytes: seq<Byte>, i: nat) {
    i + 4 <= |bytes| && bytes[i] == 13 && bytes[i + 1] == 10 && bytes[i + 2] == 13 && bytes[i + 3] == 10
  }

  /** Its own empty line is the first. */
  ghost predicate IsHead(head: seq<Byte>) {
    forall i :: 0 <= i < |head| ==> !EmptyLineAt(head + [13, 10, 13, 10], i)
  }

  /** The head of a response that accepts the upgrade. */
  ghost predicate UpgradeHead(head: seq<Byte>) {
    IsHead(head) && Says101(head)
  }

  lemma EmptyLineIsBlank(bytes: seq<Byte>, i: nat)
    ensures EmptyLineAt(bytes, i) <==> BlankLineAt(bytes, i)
  {
    if i + 4 <= |bytes| {
      assert bytes[i..i + 4] == [bytes[i], bytes[i + 1], bytes[i + 2], bytes[i + 3]];
    }
  }

  lemma AcceptsExactly101(head: seq<Byte>)
    ensures Accepts(head) <==> Says101(head)
  {
    if |head| >= 12 {
      assert head[..12] == [head[0], head[1], head[2], head[3], head[4], head[5],
                            head[6], head[7], head[8], head[9], head[10], head[11]];
      assert SWITCHING <= head <==> head[..12] == SWITCHING;
    }
  }

  lemma HeadIsFound(head: seq<Byte>, rest: seq<Byte>)
    requires IsHead(head)
    ensures FindBlankLine(head + [13, 10, 13, 10] + rest, 0) == Some(|head|)
  {
    var whole, stream := head + [13, 10, 13, 10], head + [13, 10, 13, 10] + rest;
    forall i | 0 <= i < |head|
      ensures !BlankLineAt(stream, i)
    {
      assert !EmptyLineAt(whole, i);
      EmptyLineIsBlank(stream, i);
    }
    assert EmptyLineAt(stream, |head|);
    EmptyLineIsBlank(stream, |head|);
  }

  lemma HeadDecides(head: seq<Byte>, rest: seq<Byte>)
    requires IsHead(head)
    ensures Receive(FRESH, head + [13, 10, 13, 10] + rest) == Upgraded(FRESH, head, rest)
  {
    var stream := head + [13, 10, 13, 10] + rest;
    HeadIsFound(head, rest);
    assert [] + stream == stream && stream[..|head|] == head && stream[|head| + 4..] == rest;
  }

  /** The handshake over every run, whatever the chunking and whatever was called meanwhile:
      the client opens exactly when the response says 101, and otherwise is refused with the
      head: whatever follows is never read, answered or delivered. */
  lemma HandshakeIsDecidedByTheStatus(events: seq<Event>, head: seq<Byte>, rest: seq<Byte>)
    requires IsHead(head) && Stream(events) == head + [13, 10, 13, 10] + rest
    ensures var c := Run(FRESH, events);
            && (c.phase.Open? <==> Says101(head))
            && (!Says101(head) ==>
                  c.phase == Refused(head) && Mailbox.Messages(c.mail) == [] && c.effects == [])
  {
    StreamDecides(events);
    HeadDecides(head, rest);
    AcceptsExactly101(head);
    FlowSettles(FRESH, rest);
  }

  /** And as long as no empty line has come nothing has happened. */
  lemma NothingBeforeTheHead(events: seq<Event>)
    requires forall i: nat :: !EmptyLineAt(Stream(events), i)
    ensures var c := Run(FRESH, events);
            c.phase == Handshaking(Stream(events)) && Mailbox.Messages(c.mail) == [] && c.effects == []
  {
    var stream := Stream(events);
    StreamDecides(events);
    assert [] + stream == stream;
    var found := FindBlankLine(stream, 0);
    if found.Some? {
      EmptyLineIsBlank(stream, found.value);
    }
  }

  /** A server that sends what the client claims to read. */
  ghost predicate Speaks(frames: seq<Frame>) {
    forall f :: f in frames ==> WellFormed(f) && Supported(f)
  }

  // The opcodes of section 5.2 of RFC 6455: 1 is text, 8 close, 9 ping, 10 pong.

  function Texts(frames: seq<Frame>): seq<Message> {
    if frames == [] then []
    else (if frames[0].opcode == 1 then [frames[0].payload] else []) + Texts(frames[1..])
  }

  /** The pongs a server is owed: one for each ping, with its payload. */
  ghost function Pongs(frames: seq<Frame>): seq<Frame> {
    if frames == [] then []
    else (if frames[0].opcode == 9 then [Sent(frames[0].payload, 10)] else []) + Pongs(frames[1..])
  }

  function Closes(frames: seq<Frame>): nat {
    if frames == [] then 0
    else (if frames[0].opcode == 8 then 1 else 0) + Closes(frames[1..])
  }

  function UpToClose(frames: seq<Frame>): seq<Frame> {
    if frames == [] || frames[0].opcode == 8 then [] else [frames[0]] + UpToClose(frames[1..])
  }

  /** What reaches the server: once the socket has been ended Node writes nothing more. */
  function Written(effects: seq<Effect>): seq<Byte> {
    if effects == [] || effects[0].HungUp? then []
    else effects[0].bytes + Written(effects[1..])
  }

  function HangUps(effects: seq<Effect>): nat {
    if effects == [] then 0
    else (if effects[0].HungUp? then 1 else 0) + HangUps(effects[1..])
  }

  /** What the client does to its socket for one frame. */
  function AnswerTo(f: Frame): seq<Effect>
    requires |f.payload| < 0x1_0000
  {
    if f.opcode == PING then [Wrote(ClientFrame(f.payload, PONG))]
    else if f.opcode == CLOSE then [HungUp]
    else []
  }

  ghost function Answers(frames: seq<Frame>): seq<Effect>
    requires Speaks(frames)
  {
    if frames == [] then []
    else
      assert frames[0] in frames;
      AnswerTo(frames[0]) + Answers(frames[1..])
  }

  lemma ReactAnswersOne(c: Client, f: Frame)
    requires |f.payload| < 0x1_0000
    ensures var d := React(c, Received(f.opcode, f.payload));
            && Mailbox.Messages(d.mail) == Mailbox.Messages(c.mail) + Texts([f])
            && d.effects == c.effects + AnswerTo(f)
  {
    assert Texts([f]) == (if f.opcode == TEXT then [f.payload] else []) + Texts([]);
    assert (c.mail + [Mailbox.Arrive(f.payload)])[..|c.mail|] == c.mail;
  }

  /** Frames are answered one by one, in order, and taken off the buffer. */
  lemma {:induction false} FlowAnswersFrames(c: Client, frames: seq<Frame>, tail: seq<Byte>)
    requires Speaks(frames) && TakeFrame(tail).Short?
    ensures var d := Flow(c, EncodeAll(frames) + tail);
            && d.phase == Open(tail)
            && Mailbox.Messages(d.mail) == Mailbox.Messages(c.mail) + Texts(frames)
            && d.effects == c.effects + Answers(frames)
    decreases |frames|
  {
    if frames == [] {
      assert EncodeAll(frames) + tail == tail;
    } else {
      var f, others := frames[0], frames[1..];
      var rest := EncodeAll(others) + tail;
      Regroup(Encode(f), EncodeAll(others), tail);
      TakesSupportedFrame(f, rest);
      var d := React(c, Received(f.opcode, f.payload));
      assert f in frames;
      ReactAnswersOne(c, f);
      FlowAnswersFrames(d, others, tail);
      AnsweredInTwoSteps(c, d, Flow(d, rest), frames);
    }
  }

  lemma AnsweredInTwoSteps(c: Client, d: Client, e: Client, frames: seq<Frame>)
    requires frames != [] && Speaks(frames) && frames[0] in frames
    requires Mailbox.Messages(d.mail) == Mailbox.Messages(c.mail) + Texts([frames[0]])
    requires Mailbox.Messages(e.mail) == Mailbox.Messages(d.mail) + Texts(frames[1..])
    requires d.effects == c.effects + AnswerTo(frames[0]) && e.effects == d.effects + Answers(frames[1..])
    ensures Mailbox.Messages(e.mail) == Mailbox.Messages(c.mail) + Texts(frames)
    ensures e.effects == c.effects + Answers(frames)
  {
    Regroup(Mailbox.Messages(c.mail), Texts([frames[0]]), Texts(frames[1..]));
    Regroup(c.effects, AnswerTo(frames[0]), Answers(frames[1..]));
    TextsSplit(frames);
  }

  lemma TextsSplit(frames: seq<Frame>)
    requires frames != []
    ensures Texts(frames) == Texts([frames[0]]) + Texts(frames[1..])
  {
    assert Texts([frames[0]]) == (if frames[0].opcode == TEXT then [frames[0].payload] else []) + Texts([]);
  }

  lemma PongIsWellFormed(payload: seq<Byte>)
    requires |payload| < 0x1_0000
    ensures WellFormed(Sent(payload, PONG))
  {}

  /** Of the answers the server gets the pongs up to the first close, and the socket is
      ended once for each close. */
  lemma {:induction false} AnswersAreWritten(frames: seq<Frame>)
    requires Speaks(frames)
    ensures DecodeAll(Written(Answers(frames))) == Some(Pongs(UpToClose(frames)))
    ensures HangUps(Answers(frames)) == Closes(frames)
  {
    if frames != [] {
      var f, others := frames[0], frames[1..];
      assert f in frames;
      AnswersAreWritten(others);
      if f.opcode == PING {
        PongIsWritten(f.payload, Answers(others));
        PongsBehind(f, UpToClose(others));
      } else if f.opcode == CLOSE {
        assert ([HungUp] + Answers(others))[1..] == Answers(others);
      } else {
        assert [] + Answers(others) == Answers(others);
        PongsBehind(f, UpToClose(others));
      }
    }
  }

  lemma PongsBehind(f: Frame, frames: seq<Frame>)
    ensures Pongs([f] + frames) == if f.opcode == PING then [Sent(f.payload, PONG)] + Pongs(frames) else Pongs(frames)
  {
    assert ([f] + frames)[1..] == frames;
    assert [] + Pongs(frames) == Pongs(frames);
  }

  lemma PongIsWritten(payload: seq<Byte>, effects: seq<Effect>)
    requires |payload| < 0x1_0000 && DecodeAll(Written(effects)).Some?
    ensures var all := [Wrote(ClientFrame(payload, PONG))] + effects;
            && DecodeAll(Written(all)) == Some([Sent(payload, PONG)] + DecodeAll(Written(effects)).value)
            && HangUps(all) == HangUps(effects)
  {
    var wrote := Wrote(ClientFrame(payload, PONG));
    assert ([wrote] + effects)[1..] == effects;
    PongIsWellFormed(payload);
    ServerReadsClientFrame(payload, PONG, Written(effects));
  }

  lemma UpgradeOpens(head: seq<Byte>, payload: seq<Byte>)
    requires UpgradeHead(head)
    ensures Receive(FRESH, head + BLANK_LINE + payload) == Flow(FRESH, payload)
  {
    HeadDecides(head, payload);
    AcceptsExactly101(head);
  }

  /** End to end, over every run: when what came down the socket is an upgrade, some
      encoded frames and the beginning of another, then whatever the chunking and
      whatever calls were made in between, the messages are exactly the text payloads
      in order, the server decodes exactly one pong per ping up to the first close, in
      order, the socket is ended once per close frame, and the buffer holds exactly the
      unfinished frame. */
  lemma ServerIsUnderstood(events: seq<Event>, head: seq<Byte>, frames: seq<Frame>, tail: seq<Byte>)
    requires UpgradeHead(head) && Speaks(frames) && TakeFrame(tail).Short?
    requires Stream(events) == head + BLANK_LINE + (EncodeAll(frames) + tail)
    ensures var c := Run(FRESH, events);
            && c.phase == Open(tail)
            && Mailbox.Messages(c.mail) == Texts(frames)
            && c.effects == Answers(frames)
            && DecodeAll(Written(c.effects)) == Some(Pongs(UpToClose(frames)))
            && HangUps(c.effects) == Closes(frames)
  {
    StreamDecides(events);
    UpgradeOpens(head, EncodeAll(frames) + tail);
    FlowAnswersFrames(FRESH, frames, tail);
    AnswersAreWritten(frames);
    assert FRESH.effects + Answers(frames) == Answers(frames);
    assert Mailbox.Messages(FRESH.mail) + Texts(frames) == Texts(frames);
  }

  /** The same runs seen by the callers: the k-th call gets the k-th text payload, or
      is rejected when its timer ran out first, or is still waiting. */
  lemma CallersGetTextsInOrder(events: seq<Event>, head: seq<Byte>, frames: seq<Frame>, tail: seq<Byte>, k: nat)
    requires UpgradeHead(head) && Speaks(frames) && TakeFrame(tail).Short?
    requires Stream(events) == head + BLANK_LINE + (EncodeAll(frames) + tail)
    requires k < Mailbox.Calls(Run(FRESH, events).mail)
    ensures var mail := Run(FRESH, events).mail;
            var outcomes := Mailbox.After(mail).outcomes;
            && k < |outcomes|
            && outcomes[k] == if Mailbox.TimedOut(mail, k) then Mailbox.Rejected
                              else if k < |Texts(frames)| then Mailbox.Resolved(Texts(frames)[k])
                              else Mailbox.Waiting
  {
    ServerIsUnderstood(events, head, frames, tail);
    Mailbox.PairingLaw(Run(FRESH, events).mail);
  }

  // ----- the object ----------------------------------------------------------------

  datatype Listener = OnHandshake | OnFrames | Nobody

  class DeviceSocket {
    // The closure's buffer during the handshake, and which listener is installed.
    var listener: Listener
    var handshake: seq<Byte>

    var buffer: seq<Byte>
    var pending: seq<Message>
    var waiters: seq<nat>

    // The promises handed out, and what was done to the socket.
    var outcomes: seq<Mailbox.Outcome<Message>>
    var transcript: seq<Effect>

    ghost var model: Client

    ghost predicate Queues()
      reads this
    {
      Mailbox.After(model.mail) == Mailbox.Box(pending, waiters, outcomes) && transcript == model.effects
    }

    ghost predicate Valid()
      reads this
    {
      && Queues()
      && Settled(model)
      && match model.phase
         case Handshaking(seen) => listener == OnHandshake && handshake == seen && buffer == []
         case Refused(_) => listener == Nobody
         case Open(rest) => listener == OnFrames && buffer == rest
    }

    constructor ()
      ensures Valid() && model == FRESH
    {
      listener, handshake, buffer := OnHandshake, [], [];
      pending, waiters, outcomes, transcript := [], [], [], [];
      model := FRESH;
    }

    /** The 'data' event, by way of whichever listener is installed. A refusal rejects
        the promise of `connect` with the head. */
    method OnData(chunk: seq<Byte>) returns (refused: Option<seq<Byte>>)
      requires Valid()
      modifies this
      ensures Valid() && model == Receive(old(model), chunk)
      ensures refused.Some? <==> old(model).phase.Handshaking? && model.phase.Refused?
      ensures refused.Some? ==> model.phase == Refused(refused.value)
    {
      refused := None;
      ReceiveSettles(model, chunk);
      match listener {
        case OnHandshake => refused := ReadHandshake(chunk);
        case OnFrames => Feed(chunk);
        case Nobody =>
      }
    }

    method ReadHandshake(chunk: seq<Byte>) returns (refused: Option<seq<Byte>>)
      requires Valid() && listener == OnHandshake
      modifies this
      ensures Valid() && model == Receive(old(model), chunk)
      ensures refused.Some? <==> model.phase.Refused?
      ensures refused.Some? ==> model.phase == Refused(refused.value)
    {
      refused := None;
      handshake := handshake + chunk;
      var found := FindBlankLine(handshake, 0);
      if found.None? {
        model := model.(phase := Handshaking(handshake));
        return;
      }
      var head := handshake[..found.value];
      if !Accepts(head) {
        listener := Nobody;
        model := model.(phase := Refused(head));
        return Some(head);
      }
      buffer := handshake[found.value + 4..];
      listener := OnFrames;
      DrainBuffer();
    }

    method Feed(chunk: seq<Byte>)
      requires Valid() && listener == OnFrames
      modifies this
      ensures Valid() && model == Receive(old(model), chunk)
    {
      buffer := buffer + chunk;
      DrainBuffer();
    }

    /** `_drainBuffer`: the loop takes what is complete and leaves the rest. */
    method DrainBuffer()
      requires Queues() && listener == OnFrames
      modifies this
      ensures Valid() && listener == OnFrames
      ensures model == Flow(old(model), old(buffer))
    {
      FlowSettles(model, buffer);
      while true
        invariant Queues() && listener == OnFrames
        invariant Flow(model, buffer) == Flow(old(model), old(buffer))
        decreases |buffer|
      {
        if |buffer| < 2 {
          break;
        }
        var opcode := Low4(buffer[0]);
        var length: nat := Low7(buffer[1]);
        var offset := 2;
        if length == 126 {
          if |buffer| < 4 {
            break;
          }
          length := ReadU16(buffer[2], buffer[3]);
          offset := 4;
        }
        if |buffer| < offset + length {
          break;
        }
        var payload := buffer[offset..offset + length];
        assert TakeFrame(buffer) == Taken(Received(opcode, payload), buffer[offset + length..]);
        buffer := buffer[offset + length..];
        if opcode == PING {
          var written := WriteFrame(payload, PONG);
          assert written;
        } else if opcode == CLOSE {
          transcript := transcript + [HungUp];
          model := model.(effects := model.effects + [HungUp]);
        } else if opcode == TEXT {
          Deliver(payload);
        }
      }
      assert TakeFrame(buffer).Short?;
      model := model.(phase := Open(buffer));
    }

    /** A text frame goes to the oldest waiter, or into the queue. */
    method Deliver(message: Message)
      requires Queues()
      modifies `pending, `waiters, `outcomes, `model
      ensures Queues() && model == old(model).(mail := old(model).mail + [Mailbox.Arrive(message)])
    {
      GrowMail(Mailbox.Arrive(message));
      if waiters != [] {
        var waiter := waiters[0];
        waiters := waiters[1..];
        outcomes := Mailbox.Settle(outcomes, waiter, Mailbox.Resolved(message));
      } else {
        pending := pending + [message];
      }
    }

    /** `next()`: the number of the call, and its message when one was queued. */
    method Next() returns (call: nat)
      requires Valid()
      modifies this
      ensures Valid() && model == Handle(old(model), Event.Next)
      ensures call == |old(outcomes)| == Mailbox.Calls(old(model).mail)
    {
      Mailbox.EveryCallHasAnOutcome(model.mail);
      GrowMail(Mailbox.Next);
      call := |outcomes|;
      if pending != [] {
        outcomes := outcomes + [Mailbox.Resolved(pending[0])];
        pending := pending[1..];
      } else {
        waiters := waiters + [call];
        outcomes := outcomes + [Mailbox.Waiting];
      }
    }

    /** The timer of a waiting call runs out. */
    method OnTimeout(call: nat)
      requires Valid()
      modifies this
      ensures Valid() && model == Handle(old(model), Event.Timeout(call))
    {
      GrowMail(Mailbox.Timeout(call));
      outcomes := Mailbox.Settle(outcomes, call, Mailbox.Rejected);
    }

    /** `_frame`: false when the length does not fit and writeUInt16BE throws. */
    method WriteFrame(payload: seq<Byte>, opcode: Byte) returns (written: bool)
      requires Queues()
      modifies `transcript, `model
      ensures Queues()
      ensures written <==> |payload| < 0x1_0000
      ensures written ==>
        model == old(model).(effects := old(model).effects + [Wrote(ClientFrame(payload, opcode))])
      ensures !written ==> model == old(model)
    {
      var bytes := BuildFrame(payload, opcode);
      written := bytes.Some?;
      if written {
        transcript := transcript + [Wrote(bytes.value)];
        model := model.(effects := model.effects + [Wrote(bytes.value)]);
      }
    }

    /** `send`: one text frame, or an exception when it is too long. */
    method Send(json: seq<Byte>) returns (written: bool)
      requires Valid()
      modifies `transcript, `model
      ensures Valid()
      ensures written <==> |json| < 0x1_0000
      ensures model == if written then
                         old(model).(effects := old(model).effects + [Wrote(ClientFrame(json, TEXT))])
                       else old(model)
    {
      written := WriteFrame(json, TEXT);
    }

    ghost method GrowMail(e: Mailbox.Event<Message>)
      modifies `model
      ensures model == old(model).(mail := old(model).mail + [e])
      ensures Mailbox.After(model.mail) == Mailbox.Step(Mailbox.After(old(model).mail), e)
    {
      model := model.(mail := model.mail + [e]);
      assert model.mail[..|model.mail| - 1] == old(model).mail;
    }
  }
}
