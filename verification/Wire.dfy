/** The framing half of the device client in e2e/device.js: how it cuts a byte
    buffer into frames, how it writes a masked frame, and the RFC 6455 peer it
    talks to, written out as a reference encoder and decoder. */
module Wire {
  import opened Octets
  import opened Prelude

  // ----- what the client reads ------------------------------------------------

  /** What one pass of the drain loop takes off the front of the buffer. */
  datatype Cut = Short | Taken(frame: Received, rest: seq<Byte>)

  /** A frame as the client sees it: FIN and the mask bit are never looked at. */
  datatype Received = Received(opcode: Byte, payload: seq<Byte>)

  function ReadU16(hi: Byte, lo: Byte): (n: nat)
    ensures n < 0x1_0000
  {
    hi * 256 + lo
  }

  function CutAt(buffer: seq<Byte>, opcode: Byte, offset: nat, length: nat): Cut {
    if |buffer| < offset + length then Short
    else Taken(Received(opcode, buffer[offset..offset + length]), buffer[offset + length..])
  }

  function TakeFrame(buffer: seq<Byte>): (cut: Cut)
    ensures cut.Taken? ==> |cut.rest| + 2 + |cut.frame.payload| <= |buffer|
    ensures cut.Taken? ==> |cut.frame.payload| < 0x1_0000 && cut.frame.opcode < 16
  {
    if |buffer| < 2 then Short
    else
      var opcode := Low4(buffer[0]);
      var length := Low7(buffer[1]);
      if length == 126 then
        if |buffer| < 4 then Short
        else CutAt(buffer, opcode, 4, ReadU16(buffer[2], buffer[3]))
      else CutAt(buffer, opcode, 2, length)
  }

  /** Everything a full drain takes, and what it leaves behind. */
  datatype Drained = Drained(frames: seq<Received>, leftover: seq<Byte>)

  function Drain(buffer: seq<Byte>): Drained
    decreases |buffer|
  {
    match TakeFrame(buffer)
    case Short => Drained([], buffer)
    case Taken(frame, rest) =>
      var d := Drain(rest);
      Drained([frame] + d.frames, d.leftover)
  }

  /** Bytes that arrive later never change a cut that could already be made. */
  lemma TakeFrameIgnoresWhatFollows(buffer: seq<Byte>, more: seq<Byte>)
    requires TakeFrame(buffer).Taken?
    ensures TakeFrame(buffer + more) ==
            Taken(TakeFrame(buffer).frame, TakeFrame(buffer).rest + more)
  {
    var length := Low7(buffer[1]);
    var offset := if length == 126 then 4 else 2;
    var n := if length == 126 then ReadU16(buffer[2], buffer[3]) else length;
    var whole := buffer + more;
    assert whole[offset..offset + n] == buffer[offset..offset + n];
    assert whole[offset + n..] == buffer[offset + n..] + more;
  }

  lemma {:induction false} LeftoverIsIncomplete(buffer: seq<Byte>)
    ensures TakeFrame(Drain(buffer).leftover).Short?
    decreases |buffer|
  {
    match TakeFrame(buffer)
    case Short =>
    case Taken(_, rest) => LeftoverIsIncomplete(rest);
  }

  /** Draining early and draining the rest later is draining once. */
  lemma {:induction false} DrainInTwoSteps(first: seq<Byte>, second: seq<Byte>)
    ensures var early := Drain(first); var late := Drain(early.leftover + second);
            Drain(first + second) == Drained(early.frames + late.frames, late.leftover)
    decreases |first|
  {
    match TakeFrame(first)
    case Short =>
      assert Drain(first).frames + Drain(first + second).frames == Drain(first + second).frames;
    case Taken(frame, rest) =>
      TakeFrameIgnoresWhatFollows(first, second);
      DrainInTwoSteps(rest, second);
      var early := Drain(rest);
      var late := Drain(early.leftover + second);
      assert [frame] + (early.frames + late.frames) == ([frame] + early.frames) + late.frames;
  }

  // ----- the peer: section 5.2 and 5.3 of RFC 6455 ----------------------------

  /** A frame as section 5.2 of RFC 6455 describes it. The reserved bits are
      zero: no extension is negotiated. */
  datatype Frame = Frame(fin: bool, opcode: Byte, key: Option<seq<Byte>>, payload: seq<Byte>)

  const TWO_TO_THE_63: int := 0x8000_0000_0000_0000

  predicate WellFormed(f: Frame) {
    && f.opcode < 16
    && (f.key.Some? ==> |f.key.value| == 4)
    && |f.payload| < TWO_TO_THE_63
  }

  /** Section 5.3: octet i of the result is octet i XOR octet (i MOD 4) of the key. */
  function Masked(payload: seq<Byte>, key: seq<Byte>): (r: seq<Byte>)
    requires |key| == 4
    ensures |r| == |payload|
    ensures forall i :: 0 <= i < |r| ==> r[i] == Xor(payload[i], key[i % 4])
  {
    seq(|payload|, i requires 0 <= i < |payload| => Xor(payload[i], key[i % 4]))
  }

  lemma MaskingTwiceIsTheIdentity(payload: seq<Byte>, key: seq<Byte>)
    requires |key| == 4
    ensures Masked(Masked(payload, key), key) == payload
  {
    var twice := Masked(Masked(payload, key), key);
    forall i | 0 <= i < |payload|
      ensures twice[i] == payload[i]
    {
      XorTwice(payload[i], key[i % 4]);
    }
  }

  function BigEndian(n: nat, width: nat): (r: seq<Byte>)
    ensures |r| == width
  {
    if width == 0 then [] else BigEndian(n / 256, width - 1) + [n % 256]
  }

  function FromBigEndian(bytes: seq<Byte>): nat {
    if bytes == [] then 0
    else FromBigEndian(bytes[..|bytes| - 1]) * 256 + bytes[|bytes| - 1]
  }

  function Power256(width: nat): (p: nat)
    ensures p > 0
  {
    if width == 0 then 1 else 256 * Power256(width - 1)
  }

  lemma {:induction false} BigEndianInverts(n: nat, width: nat)
    requires n < Power256(width)
    ensures FromBigEndian(BigEndian(n, width)) == n
  {
    if width > 0 {
      BigEndianInverts(n / 256, width - 1);
      var bytes := BigEndian(n, width);
      assert bytes[..|bytes| - 1] == BigEndian(n / 256, width - 1);
    }
  }

  /** The length in its minimal form, behind the mask bit. */
  function LengthField(masked: bool, n: nat): seq<Byte>
    requires n < TWO_TO_THE_63
  {
    if n < 126 then [TopBit(masked) + n]
    else if n < 0x1_0000 then [TopBit(masked) + 126] + BigEndian(n, 2)
    else [TopBit(masked) + 127] + BigEndian(n, 8)
  }

  function TopBit(on: bool): Byte {
    if on then 128 else 0
  }

  function Head(f: Frame): seq<Byte>
    requires WellFormed(f)
  {
    [TopBit(f.fin) + f.opcode] + LengthField(f.key.Some?, |f.payload|)
  }

  function Body(f: Frame): seq<Byte>
    requires WellFormed(f)
  {
    if f.key.Some? then f.key.value + Masked(f.payload, f.key.value) else f.payload
  }

  function Encode(f: Frame): seq<Byte>
    requires WellFormed(f)
  {
    Head(f) + Body(f)
  }

  function EncodeAll(frames: seq<Frame>): seq<Byte>
    requires forall f :: f in frames ==> WellFormed(f)
  {
    if frames == [] then [] else Encode(frames[0]) + EncodeAll(frames[1..])
  }

  /** How far the length field reaches and what it says; None when it is cut off,
      not minimal, or has its top bit set, all of which section 5.2 forbids. */
  function ReadLength(bytes: seq<Byte>): (r: Option<(nat, nat)>)
    ensures r.Some? ==> 2 <= r.value.0 <= |bytes|
  {
    if |bytes| < 2 then None
    else
      var short := Low7(bytes[1]);
      if short < 126 then Some((2, short))
      else if short == 126 then
        if |bytes| < 4 then None
        else
          var n := FromBigEndian(bytes[2..4]);
          if n < 126 then None else Some((4, n))
      else if |bytes| < 10 then None
      else
        var n := FromBigEndian(bytes[2..10]);
        if n < 0x1_0000 || n >= TWO_TO_THE_63 then None else Some((10, n))
  }

  /** One frame off the front of a stream, for either direction. */
  function Decode(bytes: seq<Byte>): (r: Option<(Frame, seq<Byte>)>)
    ensures r.Some? ==> |r.value.1| < |bytes|
  {
    var length := ReadLength(bytes);
    if length.None? || Low7(bytes[0]) >= 16 then None
    else
      var (offset, n) := length.value;
      var fin := bytes[0] >= 128;
      var opcode := Low4(bytes[0]);
      if bytes[1] >= 128 then
        if |bytes| < offset + 4 + n then None
        else
          var key := bytes[offset..offset + 4];
          Some((Frame(fin, opcode, Some(key), Masked(bytes[offset + 4..offset + 4 + n], key)),
                bytes[offset + 4 + n..]))
      else if |bytes| < offset + n then None
      else Some((Frame(fin, opcode, None, bytes[offset..offset + n]), bytes[offset + n..]))
  }

  /** A whole stream of frames; None when anything is malformed or left over. */
  function DecodeAll(bytes: seq<Byte>): Option<seq<Frame>>
    decreases |bytes|
  {
    if bytes == [] then Some([])
    else match Decode(bytes)
      case None => None
      case Some((f, rest)) =>
        match DecodeAll(rest)
        case None => None
        case Some(fs) => Some([f] + fs)
  }

  lemma LengthFieldReads(first: Byte, masked: bool, n: nat, tail: seq<Byte>)
    requires n < TWO_TO_THE_63
    ensures var bytes := [first] + LengthField(masked, n) + tail;
            && ReadLength(bytes) == Some((|bytes| - |tail|, n))
            && (bytes[1] >= 128 <==> masked)
  {
    var field := LengthField(masked, n);
    var bytes := [first] + field + tail;
    if n < 126 {
    } else if n < 0x1_0000 {
      assert bytes[2..4] == BigEndian(n, 2);
      assert Power256(2) == 0x1_0000;
      BigEndianInverts(n, 2);
    } else {
      assert bytes[2..10] == BigEndian(n, 8);
      BigEndianInverts(n, 8);
    }
  }

  lemma SplitOff(bytes: seq<Byte>, offset: nat, front: seq<Byte>, back: seq<Byte>)
    requires offset <= |bytes| && bytes[offset..] == front + back
    ensures offset + |front| <= |bytes|
    ensures bytes[offset..offset + |front|] == front && bytes[offset + |front|..] == back
  {
    assert bytes[offset..offset + |front|] == bytes[offset..][..|front|];
    assert bytes[offset + |front|..] == bytes[offset..][|front|..];
  }

  lemma BodyReads(f: Frame, bytes: seq<Byte>, offset: nat, tail: seq<Byte>)
    requires WellFormed(f) && 2 <= offset <= |bytes| && bytes[offset..] == Body(f) + tail
    requires ReadLength(bytes) == Some((offset, |f.payload|))
    requires bytes[0] == TopBit(f.fin) + f.opcode && (bytes[1] >= 128 <==> f.key.Some?)
    ensures Decode(bytes) == Some((f, tail))
  {
    if f.key.Some? {
      var key, masked := f.key.value, Masked(f.payload, f.key.value);
      Regroup(key, masked, tail);
      SplitOff(bytes, offset, key, masked + tail);
      SplitOff(bytes, offset + 4, masked, tail);
      MaskingTwiceIsTheIdentity(f.payload, key);
    } else {
      SplitOff(bytes, offset, f.payload, tail);
    }
  }

  /** The reference decoder inverts the reference encoder on every frame: masked
      or not, in all three length forms, whatever follows. */
  lemma DecodeInvertsEncode(f: Frame, tail: seq<Byte>)
    requires WellFormed(f)
    ensures Decode(Encode(f) + tail) == Some((f, tail))
  {
    var bytes, body := Encode(f) + tail, Body(f) + tail;
    Regroup(Head(f), Body(f), tail);
    LengthFieldReads(TopBit(f.fin) + f.opcode, f.key.Some?, |f.payload|, body);
    BodyReads(f, bytes, |Head(f)|, tail);
  }

  lemma {:induction false} DecodeAllInvertsEncodeAll(frames: seq<Frame>)
    requires forall f :: f in frames ==> WellFormed(f)
    ensures DecodeAll(EncodeAll(frames)) == Some(frames)
  {
    if frames != [] {
      DecodeInvertsEncode(frames[0], EncodeAll(frames[1..]));
      DecodeAllInvertsEncodeAll(frames[1..]);
      assert [frames[0]] + frames[1..] == frames;
    }
  }

  // ----- client decoder against the peer's encoder ----------------------------

  /** What the client supports: unmasked, and short enough for a 16-bit length. */
  ghost predicate Supported(f: Frame) {
    f.key.None? && |f.payload| < 0x1_0000
  }

  lemma TwoOctets(n: nat)
    requires n < 0x1_0000
    ensures BigEndian(n, 2) == [n / 256, n % 256]
  {
    assert BigEndian(n, 2) == BigEndian(n / 256, 1) + [n % 256];
    assert BigEndian(n / 256, 1) == [n / 256 % 256];
  }

  lemma TopBitIsSkipped(on: bool, opcode: Byte, code: Byte)
    requires opcode < 16 && code < 128
    ensures Low4(TopBit(on) + opcode) == opcode && Low7(TopBit(on) + code) == code
  {}

  lemma ShortHeadAsRead(bytes: seq<Byte>, fin: bool, opcode: Byte, masked: bool, code: Byte)
    requires |bytes| >= 2 && opcode < 16 && code < 128 && code != 126
    requires bytes[0] == TopBit(fin) + opcode && bytes[1] == TopBit(masked) + code
    ensures TakeFrame(bytes) == CutAt(bytes, opcode, 2, code)
  {
    TopBitIsSkipped(fin, opcode, 0);
    TopBitIsSkipped(masked, 0, code);
  }

  lemma MediumHeadAsRead(bytes: seq<Byte>, fin: bool, opcode: Byte, masked: bool, n: nat)
    requires |bytes| >= 4 && opcode < 16 && n < 0x1_0000
    requires bytes[0] == TopBit(fin) + opcode && bytes[1] == TopBit(masked) + 126
    requires bytes[2] == n / 256 && bytes[3] == n % 256
    ensures TakeFrame(bytes) == CutAt(bytes, opcode, 4, n)
  {
    TopBitIsSkipped(fin, opcode, 0);
    TopBitIsSkipped(masked, 0, 126);
    assert ReadU16(bytes[2], bytes[3]) == n;
  }

  lemma MediumHead(f: Frame)
    requires WellFormed(f) && 126 <= |f.payload| < 0x1_0000
    ensures Head(f) == [TopBit(f.fin) + f.opcode, TopBit(f.key.Some?) + 126, |f.payload| / 256, |f.payload| % 256]
  {
    TwoOctets(|f.payload|);
  }

  /** The header the client reads off any encoded frame: it skips the mask bit, and
      knows no 64-bit length. */
  lemma HeadAsRead(f: Frame, tail: seq<Byte>)
    requires WellFormed(f)
    ensures var bytes := Encode(f) + tail; var n := |f.payload|;
            TakeFrame(bytes) ==
            if n < 126 then CutAt(bytes, f.opcode, 2, n)
            else if n < 0x1_0000 then CutAt(bytes, f.opcode, 4, n)
            else CutAt(bytes, f.opcode, 2, 127)
  {
    var bytes, n := Encode(f) + tail, |f.payload|;
    if 126 <= n < 0x1_0000 {
      MediumHead(f);
      MediumHeadAsRead(bytes, f.fin, f.opcode, f.key.Some?, n);
    } else {
      ShortHeadAsRead(bytes, f.fin, f.opcode, f.key.Some?, if n < 126 then n else 127);
    }
  }

  lemma HeadLength(f: Frame)
    requires WellFormed(f) && |f.payload| < 0x1_0000
    ensures |Head(f)| == if |f.payload| < 126 then 2 else 4
  {}

  lemma TakesSupportedFrame(f: Frame, tail: seq<Byte>)
    requires WellFormed(f) && Supported(f)
    ensures TakeFrame(Encode(f) + tail) == Taken(Received(f.opcode, f.payload), tail)
  {
    var bytes := Encode(f) + tail;
    HeadAsRead(f, tail);
    HeadLength(f);
    Regroup(Head(f), f.payload, tail);
    assert bytes[|Head(f)|..] == f.payload + tail;
    SplitOff(bytes, |Head(f)|, f.payload, tail);
  }

  /** Exactly which legal frames the client reads back as they were sent. A masked
      frame or a 64-bit length is misread, never refused. */
  lemma ReadsBackExactlySupportedFrames(f: Frame)
    requires WellFormed(f)
    ensures TakeFrame(Encode(f)) == Taken(Received(f.opcode, f.payload), []) <==> Supported(f)
  {
    var bytes := Encode(f);
    assert bytes + [] == bytes;
    if Supported(f) {
      TakesSupportedFrame(f, []);
    } else {
      HeadAsRead(f, []);
    }
  }

  /** An unfinished frame: some bytes of an encoding, but not all of them. */
  ghost predicate PartOf(part: seq<Byte>, f: Frame)
    requires WellFormed(f)
  {
    part < Encode(f)
  }

  lemma UnfinishedFrameStays(part: seq<Byte>, f: Frame)
    requires WellFormed(f) && Supported(f) && PartOf(part, f)
    ensures TakeFrame(part).Short?
  {
    var whole := Encode(f);
    assert whole + [] == whole;
    TakesSupportedFrame(f, []);
    var missing := whole[|part|..];
    assert part + missing == whole;
    if TakeFrame(part).Taken? {
      TakeFrameIgnoresWhatFollows(part, missing);
    }
  }

  function Sights(frames: seq<Frame>): (r: seq<Received>)
    ensures |r| == |frames|
    ensures forall i :: 0 <= i < |frames| ==> r[i] == Received(frames[i].opcode, frames[i].payload)
  {
    seq(|frames|, i requires 0 <= i < |frames| => Received(frames[i].opcode, frames[i].payload))
  }

  lemma FirstSight(frames: seq<Frame>)
    requires frames != []
    ensures Sights(frames) == [Received(frames[0].opcode, frames[0].payload)] + Sights(frames[1..])
  {}

  /** Draining a concatenation of encoded frames yields those frames in order, and
      leaves exactly what follows them. */
  lemma {:induction false} DrainInvertsEncodeAll(frames: seq<Frame>, tail: seq<Byte>)
    requires forall f :: f in frames ==> WellFormed(f) && Supported(f)
    requires TakeFrame(tail).Short?
    ensures Drain(EncodeAll(frames) + tail) == Drained(Sights(frames), tail)
  {
    if frames == [] {
      assert EncodeAll(frames) + tail == tail;
    } else {
      var rest := EncodeAll(frames[1..]) + tail;
      Regroup(Encode(frames[0]), EncodeAll(frames[1..]), tail);
      TakesSupportedFrame(frames[0], rest);
      DrainInvertsEncodeAll(frames[1..], tail);
      FirstSight(frames);
    }
  }

  // ----- what the client writes -----------------------------------------------

  const CLIENT_KEY: seq<Byte> := [1, 2, 3, 4]

  /** The bytes `_frame` puts on the socket. */
  function ClientFrame(payload: seq<Byte>, opcode: Byte): seq<Byte>
    requires |payload| < 0x1_0000
  {
    var header :=
      if |payload| < 126 then [WithTopBit(opcode), WithTopBit(|payload|)]
      else [WithTopBit(opcode), WithTopBit(126), |payload| / 256, |payload| % 256];
    header + CLIENT_KEY + Masked(payload, CLIENT_KEY)
  }

  ghost function Sent(payload: seq<Byte>, opcode: Byte): Frame {
    Frame(true, opcode, Some(CLIENT_KEY), payload)
  }

  /** `_frame` writes the section 5.2 encoding of a final, masked frame. */
  lemma ClientFrameIsAnEncoding(payload: seq<Byte>, opcode: Byte)
    requires |payload| < 0x1_0000 && opcode < 16
    ensures ClientFrame(payload, opcode) == Encode(Sent(payload, opcode))
  {
    var n := |payload|;
    if n >= 126 {
      assert BigEndian(n, 2) == BigEndian(n / 256, 1) + [n % 256];
      assert BigEndian(n / 256, 1) == [n / 256 % 256];
    }
    assert ClientFrame(payload, opcode) == Encode(Sent(payload, opcode));
  }

  /** So a section 5.2 and 5.3 server reads back the opcode and the payload, with
      FIN set, the mask present and the length in minimal form. */
  lemma ServerReadsClientFrame(payload: seq<Byte>, opcode: Byte, tail: seq<Byte>)
    requires |payload| < 0x1_0000 && opcode < 16
    ensures Decode(ClientFrame(payload, opcode) + tail) == Some((Sent(payload, opcode), tail))
  {
    ClientFrameIsAnEncoding(payload, opcode);
    DecodeInvertsEncode(Sent(payload, opcode), tail);
  }

  /** The in-place loop of `_frame`. */
  method MaskInPlace(masked: array<Byte>, mask: seq<Byte>)
    requires |mask| == 4
    modifies masked
    ensures masked[..] == Masked(old(masked[..]), mask)
  {
    for i := 0 to masked.Length
      invariant forall k :: 0 <= k < i ==> masked[k] == Xor(old(masked[k]), mask[k % 4])
      invariant forall k :: i <= k < masked.Length ==> masked[k] == old(masked[k])
    {
      masked[i] := Xor(masked[i], mask[i % 4]);
    }
  }

  /** `_frame` up to the socket write. A payload the 16-bit field cannot carry makes
      writeUInt16BE throw, so nothing is written. */
  method BuildFrame(payload: seq<Byte>, opcode: Byte) returns (bytes: Option<seq<Byte>>)
    ensures bytes.Some? <==> |payload| < 0x1_0000
    ensures bytes.Some? ==> bytes.value == ClientFrame(payload, opcode)
  {
    var mask := [1, 2, 3, 4];
    var masked := new Byte[|payload|](i requires 0 <= i < |payload| => payload[i]);
    assert masked[..] == payload;
    MaskInPlace(masked, mask);
    var header;
    if |payload| < 126 {
      header := [WithTopBit(opcode), WithTopBit(|payload|)];
    } else if |payload| < 0x1_0000 {
      header := [WithTopBit(opcode), WithTopBit(126), |payload| / 256, |payload| % 256];
    } else {
      return None;
    }
    bytes := Some(header + mask + masked[..]);
  }
}
