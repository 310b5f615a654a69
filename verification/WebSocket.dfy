/** WebSocket frames (section 5.2 of RFC 6455), and the buffer that reads them from a stream. */
module WebSockets {
  import opened Bytes
  import opened Storage
  import opened Values

  // ----- Exclusive or

  function Xor(a: nat, b: nat): nat
    decreases a + b
  {
    if a == 0 then b else if b == 0 then a else (a % 2 + b % 2) % 2 + 2 * Xor(a / 2, b / 2)
  }

  lemma {:induction false} XorParts(a: nat, b: nat)
    ensures Xor(a, b) % 2 == (a % 2 + b % 2) % 2 && Xor(a, b) / 2 == Xor(a / 2, b / 2)
  {
  }

  lemma {:induction false} XorTwice(a: nat, b: nat)
    ensures Xor(Xor(a, b), b) == a
    decreases a + b
  {
    if a > 0 || b > 0 {
      XorParts(a, b);
      XorParts(Xor(a, b), b);
      XorTwice(a / 2, b / 2);
    }
  }

  lemma {:induction false} XorBound(a: nat, b: nat, bits: nat)
    requires a < Power2(bits) && b < Power2(bits)
    ensures Xor(a, b) < Power2(bits)
  {
    if bits > 0 {
      XorBound(a / 2, b / 2, bits - 1);
      XorParts(a, b);
    }
  }

  function Power2(n: nat): nat {
    if n == 0 then 1 else 2 * Power2(n - 1)
  }

  function XorByte(a: byte, b: byte): byte {
    assert Power2(8) == 256;
    XorBound(a, b, 8);
    Xor(a, b)
  }

  /** The payload with the four bytes of the mask laid over it again and again. */
  function Masked(payload: seq<byte>, mask: seq<byte>): (r: seq<byte>)
    requires |mask| == 4
    ensures |r| == |payload|
  {
    seq(|payload|, i requires 0 <= i < |payload| => XorByte(payload[i], mask[i % 4]))
  }

  predicate Bit(n: nat, k: nat) {
    if k == 0 then n % 2 == 1 else Bit(n / 2, k - 1)
  }

  lemma {:induction false} XorBits(a: nat, b: nat, k: nat)
    ensures Bit(Xor(a, b), k) <==> Bit(a, k) != Bit(b, k)
  {
    XorParts(a, b);
    if k > 0 {
      XorBits(a / 2, b / 2, k - 1);
    }
  }

  /** Bit by bit, every byte is the exclusive or with the byte of the mask whose turn it is. */
  lemma MaskBits(payload: seq<byte>, mask: seq<byte>, i: nat, k: nat)
    requires |mask| == 4 && i < |payload|
    ensures Bit(Masked(payload, mask)[i], k) <==> Bit(payload[i], k) != Bit(mask[i % 4], k)
  {
    XorBits(payload[i], mask[i % 4], k);
  }

  /** The same mask takes itself off. */
  lemma MaskedTwice(payload: seq<byte>, mask: seq<byte>)
    requires |mask| == 4
    ensures Masked(Masked(payload, mask), mask) == payload
  {
    forall i | 0 <= i < |payload| ensures Masked(Masked(payload, mask), mask)[i] == payload[i] {
      XorTwice(payload[i], mask[i % 4]);
    }
  }

  // ----- Frames

  /** How the length is written.  A sender uses the shortest form; a reader takes any. */
  datatype LengthForm = OneByte | TwoBytes | EightBytes

  /** The bits before the opcode (FIN and three reserved ones), the opcode, the mask if there is one. */
  datatype Frame = Frame(flags: nat, opcode: nat, form: LengthForm, mask: Option<seq<byte>>, payload: seq<byte>)

  predicate FrameOk(f: Frame) {
    && f.flags < 16 && f.opcode < 16
    && (f.mask.Some? ==> |f.mask.value| == 4)
    && match f.form
       case OneByte => |f.payload| < 126
       case TwoBytes => |f.payload| < 0x1_0000
       case EightBytes => |f.payload| < 0x8000_0000_0000_0000
  }

  function LengthCode(f: Frame): nat
    requires FrameOk(f)
  {
    match f.form
    case OneByte => |f.payload|
    case TwoBytes => 126
    case EightBytes => 127
  }

  lemma Powers()
    ensures Pow256(2) == 0x1_0000 && Pow256(8) == 0x1_0000_0000_0000_0000
  {
    assert Pow256(4) == 0x1_0000_0000;
  }

  function LengthBytes(f: Frame): seq<byte>
    requires FrameOk(f)
  {
    Powers();
    match f.form
    case OneByte => []
    case TwoBytes => BigEndian(|f.payload|, 2)
    case EightBytes => BigEndian(|f.payload|, 8)
  }

  function Header(f: Frame): seq<byte>
    requires FrameOk(f)
  {
    [f.flags * 16 + f.opcode, (if f.mask.Some? then 128 else 0) + LengthCode(f)] + LengthBytes(f)
    + (if f.mask.Some? then f.mask.value else [])
  }

  /** The bytes of a frame. */
  function Encoded(f: Frame): seq<byte>
    requires FrameOk(f)
  {
    Header(f) + (if f.mask.Some? then Masked(f.payload, f.mask.value) else f.payload)
  }

  // ----- Decoding

  lemma {:induction false} BigEndianRoundTrip(v: nat, n: nat)
    requires v < Pow256(n)
    ensures FromBigEndian(BigEndian(v, n)) == v
  {
    if n > 0 {
      DigitBound(v, n);
      BigEndianRoundTrip(v % Pow256(n - 1), n - 1);
      assert BigEndian(v, n)[1..] == BigEndian(v % Pow256(n - 1), n - 1);
    }
  }

  datatype Decoding = Decoding(opcode: nat, payload: seq<byte>, consumed: nat)

  /** Bytes of the length after the first two of a frame. */
  function LengthSize(code: nat): nat {
    if code == 126 then 2 else if code == 127 then 8 else 0
  }

  /** One frame from the front of the buffer, if it is all there. */
  function Decoded(buf: seq<byte>): Option<Decoding> {
    if |buf| < 2 then None else
      var code, masked := buf[1] % 128, buf[1] >= 128;
      var n := LengthSize(code);
      if |buf| < 2 + n then None else
        var length := if n == 0 then code else FromBigEndian(buf[2..2 + n]);
        var start := 2 + n + if masked then 4 else 0;
        if |buf| < start + length then None else
          var payload := buf[start..start + length];
          var shown := if masked then Masked(payload, buf[2 + n..2 + n + 4]) else payload;
          Some(Decoding(buf[0] % 16, shown, start + length))
  }

  method Unmask(payload: array<byte>, mask: seq<byte>)
    requires |mask| == 4
    modifies payload
    ensures payload[..] == Masked(old(payload[..]), mask)
  {
    hide XorByte;
    ghost var raw := payload[..];
    var i := 0;
    while i < payload.Length
      invariant 0 <= i <= payload.Length
      invariant forall j :: 0 <= j < i ==> payload[j] == Masked(raw, mask)[j]
      invariant forall j :: i <= j < payload.Length ==> payload[j] == raw[j]
    {
      payload[i] := XorByte(payload[i], mask[i % 4]);
      i := i + 1;
    }
  }

  /** With the moving cursor, and the mask taken off in place. */
  method DecodeFrame(buf: seq<byte>) returns (r: Option<Decoding>)
    ensures r == Decoded(buf)
  {
    hide FromBigEndian, Masked;
    if |buf| < 2 {
      return None;
    }
    var opcode := buf[0] % 16;
    var masked := buf[1] >= 128;
    var payloadLen: nat := buf[1] % 128;
    var cursor := 2;
    if payloadLen == 126 {
      if |buf| < cursor + 2 {
        return None;
      }
      payloadLen := FromBigEndian(buf[cursor..cursor + 2]);
      cursor := cursor + 2;
    } else if payloadLen == 127 {
      if |buf| < cursor + 8 {
        return None;
      }
      payloadLen := FromBigEndian(buf[cursor..cursor + 8]);
      cursor := cursor + 8;
    }
    var mask := [];
    if masked {
      if |buf| < cursor + 4 {
        return None;
      }
      mask := buf[cursor..cursor + 4];
      cursor := cursor + 4;
    }
    if |buf| < cursor + payloadLen {
      return None;
    }
    var payload := new byte[payloadLen](i requires 0 <= i < payloadLen => buf[cursor + i]);
    ghost var raw := buf[cursor..cursor + payloadLen];
    assert payload[..] == raw;
    if masked {
      Unmask(payload, mask);
    }
    return Some(Decoding(opcode, payload[..], cursor + payloadLen));
  }

  /** A server's text frame. */
  function TextFrame(text: seq<byte>): Frame {
    Frame(8, 1, if |text| < 126 then OneByte else if |text| <= 65535 then TwoBytes else EightBytes, None, text)
  }

  method EncodeTextFrame(text: seq<byte>) returns (frame: seq<byte>)
    requires |text| < 0x8000_0000_0000_0000
    ensures frame == Encoded(TextFrame(text))
  {
    Powers();
    var len := |text|;
    frame := [0x81];
    if len < 126 {
      frame := frame + [len];
    } else if len <= 65535 {
      frame := frame + [126];
      frame := frame + BigEndian(len, 2);
    } else {
      frame := frame + [127];
      frame := frame + BigEndian(len, 8);
    }
    frame := frame + text;
  }

  // ----- Round trip

  lemma HeaderRead(f: Frame, buf: seq<byte>)
    requires FrameOk(f) && Header(f) <= buf
    ensures |buf| >= 2 && buf[0] % 16 == f.opcode && (buf[1] >= 128 <==> f.mask.Some?)
    ensures var n := LengthSize(buf[1] % 128);
            && |Header(f)| == 2 + n + (if f.mask.Some? then 4 else 0)
            && (if n == 0 then buf[1] % 128 else FromBigEndian(buf[2..2 + n])) == |f.payload|
            && (f.mask.Some? ==> buf[2 + n..2 + n + 4] == f.mask.value)
  {
    hide FromBigEndian, BigEndian, LengthBytes;
    var h, n := Header(f), |LengthBytes(f)|;
    LengthRead(f);
    assert h[0] == f.flags * 16 + f.opcode && h[1] == (if f.mask.Some? then 128 else 0) + LengthCode(f);
    assert buf[0] == h[0] && buf[1] == h[1];
    assert h[2..2 + n] == LengthBytes(f);
    assert buf[2..2 + n] == h[2..2 + n];
    if f.mask.Some? {
      assert h[2 + n..2 + n + 4] == f.mask.value;
      assert buf[2 + n..2 + n + 4] == h[2 + n..2 + n + 4];
    }
  }

  lemma LengthRead(f: Frame)
    requires FrameOk(f)
    ensures |LengthBytes(f)| == LengthSize(LengthCode(f)) && LengthCode(f) < 128
    ensures (if LengthBytes(f) == [] then LengthCode(f) else FromBigEndian(LengthBytes(f))) == |f.payload|
  {
    hide FromBigEndian, BigEndian;
    Powers();
    match f.form {
      case OneByte =>
      case TwoBytes => BigEndianRoundTrip(|f.payload|, 2);
      case EightBytes => BigEndianRoundTrip(|f.payload|, 8);
    }
  }

  /** A frame is read back as it was written, whatever follows it. */
  lemma DecodeEncoded(f: Frame, rest: seq<byte>)
    requires FrameOk(f)
    ensures Decoded(Encoded(f) + rest) == Some(Decoding(f.opcode, f.payload, |Encoded(f)|))
  {
    hide FromBigEndian, LengthSize, Header, Masked;
    var buf, h := Encoded(f) + rest, Header(f);
    var body := if f.mask.Some? then Masked(f.payload, f.mask.value) else f.payload;
    assert Encoded(f) == h + body && buf == h + (body + rest);
    HeaderRead(f, buf);
    assert buf[|h|..|h| + |body|] == body;
    if f.mask.Some? {
      MaskedTwice(f.payload, f.mask.value);
    }
  }

  /** No frame is read from a part of one. */
  lemma DecodePart(f: Frame, part: seq<byte>)
    requires FrameOk(f) && part <= Encoded(f) && part != Encoded(f)
    ensures Decoded(part) == None
  {
    hide FromBigEndian, Masked;
    var h := Header(f);
    var body := if f.mask.Some? then Masked(f.payload, f.mask.value) else f.payload;
    assert Encoded(f) == h + body;
    if |part| >= |h| {
      assert h <= part by { assert part[..|h|] == Encoded(f)[..|h|] == h; }
      HeaderRead(f, part);
    } else if |part| >= 2 {
      HeaderRead(f, Encoded(f));
      assert part[0] == Encoded(f)[0] && part[1] == Encoded(f)[1];
    }
  }

  /** What is decoded does not depend on what follows. */
  lemma DecodedExtends(a: seq<byte>, b: seq<byte>)
    requires Decoded(a).Some?
    ensures Decoded(a + b) == Decoded(a) && 2 <= Decoded(a).value.consumed <= |a|
  {
    hide FromBigEndian, Masked;
    var n := LengthSize(a[1] % 128);
    var length := if n == 0 then a[1] % 128 else FromBigEndian(a[2..2 + n]);
    var start := 2 + n + if a[1] >= 128 then 4 else 0;
    FrontSlice(a, b, 2, 2 + n);
    FrontSlice(a, b, start, start + length);
    if a[1] >= 128 {
      FrontSlice(a, b, 2 + n, start);
    }
  }

  lemma FrontSlice(a: seq<byte>, b: seq<byte>, i: nat, j: nat)
    requires i <= j <= |a|
    ensures (a + b)[i..j] == a[i..j]
  {
  }

  // ----- The stream

  const CLOSE := 8

  datatype Message = Message(opcode: nat, payload: seq<byte>)

  /** The frames at the front of the buffer, the bytes that are left, and whether a close frame ended it. */
  datatype Reading = Reading(messages: seq<Message>, rest: seq<byte>, closed: bool)

  /** Messages, and then what a reading has. */
  function Then(messages: seq<Message>, after: Reading): Reading {
    Reading(messages + after.messages, after.rest, after.closed)
  }

  function ReadAll(buf: seq<byte>): Reading
    decreases |buf|
  {
    var d := Decoded(buf);
    if d.None? then Reading([], buf, false)
    else
      var m := Message(d.value.opcode, d.value.payload);
      if m.opcode == CLOSE then Reading([m], buf[d.value.consumed..], true)
      else
        Then([m], ReadAll(buf[d.value.consumed..]))
  }

  /** Reading what has come so far, and then the rest, is reading it all at once. */
  lemma {:induction false} ReadInParts(a: seq<byte>, b: seq<byte>)
    ensures var first := ReadAll(a);
            ReadAll(a + b)
            == if first.closed then Reading(first.messages, first.rest + b, true)
               else Then(first.messages, ReadAll(first.rest + b))
    decreases |a|
  {
    hide Decoded;
    var d := Decoded(a);
    if d.Some? {
      DecodedExtends(a, b);
      var n := d.value.consumed;
      assert (a + b)[n..] == a[n..] + b;
      if d.value.opcode != CLOSE {
        ReadInParts(a[n..], b);
      }
    }
  }

  lemma NothingMore(buf: seq<byte>)
    requires Decoded(buf).None?
    ensures ReadAll(buf) == Reading([], buf, false)
  {
  }

  lemma OneMore(buf: seq<byte>)
    requires Decoded(buf).Some?
    ensures var d := Decoded(buf).value;
            && 2 <= d.consumed <= |buf|
            && var m, rest := Message(d.opcode, d.payload), buf[d.consumed..];
               ReadAll(buf) == if m.opcode == CLOSE then Reading([m], rest, true) else Then([m], ReadAll(rest))
  {
    hide Decoded;
    DecodedExtends(buf, []);
  }

  lemma ThenThen(a: seq<Message>, b: seq<Message>, after: Reading)
    ensures Then(a, Then(b, after)) == Then(a + b, after)
  {
    assert a + (b + after.messages) == a + b + after.messages;
  }

  function EncodedAll(fs: seq<Frame>): seq<byte>
    requires forall i :: 0 <= i < |fs| ==> FrameOk(fs[i])
  {
    if fs == [] then [] else Encoded(fs[0]) + EncodedAll(fs[1..])
  }

  /** The messages of some frames, up to the first close frame. */
  function Messages(fs: seq<Frame>): seq<Message> {
    if fs == [] then [] else
      [Message(fs[0].opcode, fs[0].payload)] + if fs[0].opcode == CLOSE then [] else Messages(fs[1..])
  }

  /** Frames, masked or not, in any form, are read as they were sent. */
  lemma {:induction false} ReadEncoded(fs: seq<Frame>)
    requires forall i :: 0 <= i < |fs| ==> FrameOk(fs[i])
    ensures ReadAll(EncodedAll(fs)).messages == Messages(fs)
    ensures (forall i :: 0 <= i < |fs| ==> fs[i].opcode != CLOSE) ==>
            ReadAll(EncodedAll(fs)) == Reading(Messages(fs), [], false)
  {
    hide Decoded, Encoded, FrameOk;
    if fs == [] {
      NothingToRead();
    } else {
      DecodeEncoded(fs[0], EncodedAll(fs[1..]));
      assert EncodedAll(fs)[|Encoded(fs[0])|..] == EncodedAll(fs[1..]);
      SomeBytes(fs[0]);
      ReadEncoded(fs[1..]);
    }
  }

  lemma NothingToRead()
    ensures Decoded([]) == None
  {
  }

  lemma SomeBytes(f: Frame)
    requires FrameOk(f)
    ensures |Encoded(f)| > 0
  {
  }

  class FrameReader {
    var rawBuf: seq<byte>
    var closed: bool
    ghost var received: seq<byte>      // every byte that came
    ghost var handled: seq<Message>    // every message that was handled

    /** What was handled is what one read of the whole stream would give. */
    ghost predicate Valid()
      reads this
    {
      var all := ReadAll(received);
      handled == all.messages && closed == all.closed && rawBuf == all.rest
    }

    constructor ()
      ensures Valid() && received == [] && handled == [] && !closed
    {
      NothingToRead();
      rawBuf, closed, received, handled := [], false, [], [];
    }

    /** One read from the socket. */
    method Receive(chunk: seq<byte>) returns (messages: seq<Message>)
      requires Valid() && !closed
      modifies this
      ensures Valid() && received == old(received) + chunk && handled == old(handled) + messages
    {
      hide Decoded, ReadAll;
      ReadInParts(received, chunk);
      received := received + chunk;
      rawBuf := rawBuf + chunk;
      ghost var whole := ReadAll(rawBuf);
      messages := [];
      while true
        invariant received == old(received) + chunk && handled == old(handled)
        invariant !closed && whole == Then(messages, ReadAll(rawBuf))
        decreases |rawBuf|
      {
        var d := DecodeFrame(rawBuf);
        if d.None? {
          NothingMore(rawBuf);
          break;
        }
        OneMore(rawBuf);
        var m := Message(d.value.opcode, d.value.payload);
        ThenThen(messages, [m], ReadAll(rawBuf[d.value.consumed..]));
        rawBuf := rawBuf[d.value.consumed..];
        messages := messages + [m];
        if m.opcode == CLOSE {
          closed := true;
          break;
        }
      }
      handled := handled + messages;
    }
  }

  function Joined(chunks: seq<seq<byte>>): seq<byte> {
    if chunks == [] then [] else Joined(chunks[..|chunks| - 1]) + chunks[|chunks| - 1]
  }

  /** Frames cut into chunks anywhere are handled as they were sent, in order, up to the first close frame. */
  method ReadSession(chunks: seq<seq<byte>>, ghost fs: seq<Frame>) returns (messages: seq<Message>)
    requires (forall i :: 0 <= i < |fs| ==> FrameOk(fs[i])) && Joined(chunks) == EncodedAll(fs)
    ensures messages == Messages(fs)
  {
    hide ReadAll, Joined, EncodedAll, Messages, FrameOk;
    var reader := new FrameReader();
    messages := [];
    var i := 0;
    JoinedNext(chunks);
    while i < |chunks| && !reader.closed
      invariant 0 <= i <= |chunks| && reader.Valid() && fresh(reader)
      invariant reader.handled == messages && reader.received == Joined(chunks[..i])
    {
      var more := reader.Receive(chunks[i]);
      messages := messages + more;
      i := i + 1;
    }
    SessionEnds(chunks, i, fs);
  }

  lemma JoinedNext(chunks: seq<seq<byte>>)
    ensures Joined(chunks[..0]) == []
    ensures forall i :: 0 <= i < |chunks| ==> Joined(chunks[..i + 1]) == Joined(chunks[..i]) + chunks[i]
  {
    forall i | 0 <= i < |chunks| ensures chunks[..i + 1][..i] == chunks[..i] {
    }
  }

  lemma SessionEnds(chunks: seq<seq<byte>>, i: nat, fs: seq<Frame>)
    requires (forall i :: 0 <= i < |fs| ==> FrameOk(fs[i])) && Joined(chunks) == EncodedAll(fs)
    requires i <= |chunks| && (i == |chunks| || ReadAll(Joined(chunks[..i])).closed)
    ensures ReadAll(Joined(chunks[..i])).messages == Messages(fs)
  {
    hide ReadAll, Joined, EncodedAll, Messages, FrameOk;
    ReadEncoded(fs);
    JoinedPrefix(chunks, i);
    var a := Joined(chunks[..i]);
    assert a + Joined(chunks)[|a|..] == Joined(chunks);
    ReadInParts(a, Joined(chunks)[|a|..]);
    if i == |chunks| {
      assert chunks[..i] == chunks;
    }
  }

  lemma {:induction false} JoinedPrefix(chunks: seq<seq<byte>>, i: nat)
    requires i <= |chunks|
    ensures Joined(chunks[..i]) <= Joined(chunks)
    decreases |chunks| - i
  {
    if i < |chunks| {
      assert chunks[..i + 1][..i] == chunks[..i];
      JoinedPrefix(chunks, i + 1);
    } else {
      assert chunks[..i] == chunks;
    }
  }

  // ----- Replies

  /** The answer to a ping. */
  function Pong(payload: seq<byte>): seq<byte> {
    [0x8A, |payload| % 256] + payload
  }

  /** A pong carries the payload of its ping exactly when that is short enough for a control frame. */
  lemma PongReads(payload: seq<byte>)
    ensures Decoded(Pong(payload)) == Some(Decoding(10, payload, |Pong(payload)|)) <==> |payload| < 126
  {
    hide FromBigEndian, Masked;
    var buf := Pong(payload);
    if |payload| < 126 {
      assert buf[2..2 + |payload|] == payload;
    }
  }
}
