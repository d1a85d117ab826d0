/** WebSocket frames (RFC 6455 sections 5.2 and 5.3): what the server writes, what the client
    writes, and what the client reads. */
module Framing {
  import opened Crypto

  const OP_TEXT: bv8 := 0x1
  const OP_CLOSE: bv8 := 0x8
  const OP_PING: bv8 := 0x9
  const OP_PONG: bv8 := 0xA

  const MAX_PAYLOAD: nat := 0x7FFF_FFFF

  datatype Frame = Frame(opcode: bv8, payload: Bytes)

  datatype WsError = EndOfStream | FrameTooLarge | Fragmented | Closed

  // Bytes

  function Byte(n: nat): bv8
    requires n < 256
  {
    n as bv8
  }

  function Number(b: bv8): nat {
    b as nat
  }

  lemma ByteWraps(n: nat)
    requires n < 256
    ensures Number(Byte(n)) == n % 256
  {
  }

  lemma ByteRoundTrip(n: nat)
    requires n < 256
    ensures Number(Byte(n)) == n
  {
    hide Number, Byte;
    ByteWraps(n);
  }

  lemma NumberBound(b: bv8)
    ensures Number(b) < 256
    ensures b < 126 <==> Number(b) < 126
  {
  }

  function HighBit(b: bv8): bool {
    b & 0x80 != 0
  }

  function LowBits(b: bv8): bv8 {
    b & 0x7F
  }

  function Opcode(b: bv8): bv8 {
    b & 0x0F
  }

  /** A byte with its high bit set, or left as it is. */
  function WithHigh(high: bool, b: bv8): bv8 {
    (if high then 0x80 else 0) | b
  }

  lemma FirstByte(b: bv8)
    ensures HighBit(b) == (b >= 0x80) && Opcode(b) == b & 0x0F
  {
  }

  lemma HeaderBits(high: bool, b: bv8)
    requires b < 128
    ensures HighBit(WithHigh(high, b)) == high && LowBits(WithHigh(high, b)) == b
    ensures b < 16 ==> WithHigh(high, b) & 0x0F == b
    ensures high == (WithHigh(high, b) >= 0x80)
  {
  }

  // Big-endian numbers

  function Pow256(k: nat): nat {
    if k == 0 then 1 else 256 * Pow256(k - 1)
  }

  /** The low k bytes of n, most significant first. */
  function BigEndian(n: nat, k: nat): (s: Bytes)
    ensures |s| == k
  {
    if k == 0 then [] else BigEndian(n / 256, k - 1) + [Byte(n % 256)]
  }

  function FromBigEndian(s: Bytes): nat {
    if s == [] then 0 else FromBigEndian(s[..|s| - 1]) * 256 + Number(s[|s| - 1])
  }

  lemma {:induction false} BigEndianRoundTrip(n: nat, k: nat)
    requires n < Pow256(k)
    ensures FromBigEndian(BigEndian(n, k)) == n
  {
    if k > 0 {
      BigEndianRoundTrip(n / 256, k - 1);
      ByteRoundTrip(n % 256);
      assert BigEndian(n, k)[..k - 1] == BigEndian(n / 256, k - 1);
    }
  }

  lemma Widths()
    ensures Pow256(2) == 0x1_0000 && Pow256(8) == 0x1_0000_0000_0000_0000
  {
  }

  // Masks

  type Mask = m: Bytes | |m| == 4 witness [0, 0, 0, 0]

  function Masked(payload: Bytes, mask: Mask): (r: Bytes)
    ensures |r| == |payload|
  {
    seq(|payload|, i requires 0 <= i < |payload| => payload[i] ^ mask[i % 4])
  }

  lemma UnmaskingInverts(payload: Bytes, mask: Mask)
    ensures Masked(Masked(payload, mask), mask) == payload
  {
  }

  // Printing

  /** The second byte and the extended length. */
  function LengthForm(masked: bool, length: nat): Bytes {
    if length <= 125 then [WithHigh(masked, Byte(length))]
    else if length < 65536 then [WithHigh(masked, 126)] + BigEndian(length, 2)
    else [WithHigh(masked, 127)] + BigEndian(length, 8)
  }

  function ServerFrame(f: Frame): Bytes {
    [WithHigh(true, f.opcode)] + LengthForm(false, |f.payload|) + f.payload
  }

  function ClientFrame(f: Frame, mask: Mask): Bytes {
    [WithHigh(true, f.opcode)] + LengthForm(true, |f.payload|) + mask + Masked(f.payload, mask)
  }

  // Parsing

  datatype Parsed<+T> = Parsed(value: T, rest: Bytes)

  datatype Meta = Meta(opcode: bv8, fin: bool, masked: bool, length: nat)

  function ReadFull(input: Bytes, n: nat): Result<Parsed<Bytes>, WsError> {
    if n <= |input| then Ok(Parsed(input[..n], input[n..])) else Err(EndOfStream)
  }

  function ReadMeta(input: Bytes): Result<Parsed<Meta>, WsError> {
    if |input| < 2 then Err(EndOfStream)
    else
      var fin, opcode := HighBit(input[0]), Opcode(input[0]);
      var masked, low := HighBit(input[1]), LowBits(input[1]);
      if low == 126 then
        match ReadFull(input[2..], 2)
        case Err(e) => Err(e)
        case Ok(ext) => Ok(Parsed(Meta(opcode, fin, masked, FromBigEndian(ext.value)), ext.rest))
      else if low == 127 then
        match ReadFull(input[2..], 8)
        case Err(e) => Err(e)
        case Ok(ext) =>
          if FromBigEndian(ext.value) > MAX_PAYLOAD then Err(FrameTooLarge)
          else Ok(Parsed(Meta(opcode, fin, masked, FromBigEndian(ext.value)), ext.rest))
      else
        Ok(Parsed(Meta(opcode, fin, masked, Number(low)), input[2..]))
  }

  /** An unmasked frame has the zero mask. */
  function ReadMask(input: Bytes, masked: bool): Result<Parsed<Mask>, WsError> {
    if !masked then Ok(Parsed([0, 0, 0, 0], input))
    else
      match ReadFull(input, 4)
      case Err(e) => Err(e)
      case Ok(m) => Ok(Parsed(m.value, m.rest))
  }

  function ReadFrame(input: Bytes): (r: Result<Parsed<Frame>, WsError>)
    ensures r.Ok? ==> |r.value.rest| < |input|
  {
    var meta := ReadMeta(input);
    if meta.Err? then Err(meta.error) else
    var mask := ReadMask(meta.value.rest, meta.value.value.masked);
    if mask.Err? then Err(mask.error) else
    var payload := ReadFull(mask.value.rest, meta.value.value.length);
    if payload.Err? then Err(payload.error) else
    if !meta.value.value.fin then Err(Fragmented) else
    var plain := if meta.value.value.masked then Masked(payload.value.value, mask.value.value) else payload.value.value;
    Ok(Parsed(Frame(meta.value.value.opcode, plain), payload.value.rest))
  }

  lemma ExtendedMeta(input: Bytes, ext: Bytes, rest: Bytes)
    requires |input| >= 2 && input[2..] == ext + rest
    requires var low := LowBits(input[1]); (low == 126 && |ext| == 2) || (low == 127 && |ext| == 8)
    ensures ReadMeta(input) ==
        if LowBits(input[1]) == 127 && FromBigEndian(ext) > MAX_PAYLOAD then Err(FrameTooLarge)
        else Ok(Parsed(Meta(Opcode(input[0]), HighBit(input[0]), HighBit(input[1]), FromBigEndian(ext)), rest))
  {
  }

  /** Reading back the header of a frame, whatever its first byte: the low four bits as the opcode, the
      high bit as the final mark, the mask bit and the length, or the refusal of a length above 2^31 - 1. */
  lemma MetaRoundTrip(first: bv8, masked: bool, length: nat, rest: Bytes)
    requires length < Pow256(8)
    ensures ReadMeta([first] + LengthForm(masked, length) + rest) ==
        if length <= 0x7FFF_FFFF then Ok(Parsed(Meta(first & 0x0F, first >= 0x80, masked, length), rest))
        else Err(FrameTooLarge)
  {
    FirstByte(first);
    hide WithHigh, HighBit, LowBits, Opcode, Byte, Number, FromBigEndian, BigEndian, Pow256;
    var input := [first] + LengthForm(masked, length) + rest;
    if length <= 125 {
      ByteRoundTrip(length);
      NumberBound(Byte(length));
      HeaderBits(masked, Byte(length));
      assert input[2..] == rest;
    } else {
      Widths();
      var k, code: bv8 := if length < 65536 then 2 else 8, if length < 65536 then 126 else 127;
      HeaderBits(masked, code);
      BigEndianRoundTrip(length, k);
      assert input[1] == WithHigh(masked, code) && input[2..] == BigEndian(length, k) + rest;
      ExtendedMeta(input, BigEndian(length, k), rest);
    }
  }

  lemma ServerFrameRoundTrip(f: Frame, rest: Bytes)
    requires f.opcode < 16 && |f.payload| < Pow256(8)
    ensures ReadFrame(ServerFrame(f) + rest) ==
            if |f.payload| <= 0x7FFF_FFFF then Ok(Parsed(f, rest)) else Err(FrameTooLarge)
  {
    hide ReadMeta, LengthForm, Pow256, WithHigh;
    var head := [WithHigh(true, f.opcode)] + LengthForm(false, |f.payload|);
    HeaderBits(true, f.opcode);
    MetaRoundTrip(WithHigh(true, f.opcode), false, |f.payload|, f.payload + rest);
    assert ServerFrame(f) + rest == head + (f.payload + rest);
    assert (f.payload + rest)[..|f.payload|] == f.payload && (f.payload + rest)[|f.payload|..] == rest;
  }

  lemma ClientFrameRoundTrip(f: Frame, mask: Mask, rest: Bytes)
    requires f.opcode < 16 && |f.payload| < Pow256(8)
    ensures ReadFrame(ClientFrame(f, mask) + rest) ==
            if |f.payload| <= 0x7FFF_FFFF then Ok(Parsed(f, rest)) else Err(FrameTooLarge)
  {
    hide ReadMeta, LengthForm, Pow256, Masked, WithHigh;
    var head, body := [WithHigh(true, f.opcode)] + LengthForm(true, |f.payload|), Masked(f.payload, mask);
    HeaderBits(true, f.opcode);
    MetaRoundTrip(WithHigh(true, f.opcode), true, |f.payload|, mask + body + rest);
    assert ClientFrame(f, mask) + rest == head + (mask + body + rest);
    assert (mask + body + rest)[..4] == mask && (mask + body + rest)[4..] == body + rest;
    assert (body + rest)[..|body|] == body && (body + rest)[|body|..] == rest;
    UnmaskingInverts(f.payload, mask);
  }

  /** A frame whose first byte has the final mark clear is refused once it is complete, masked or not. */
  lemma FragmentsAreRefused(first: bv8, mask: Option<Mask>, payload: Bytes, rest: Bytes)
    requires first < 0x80 && |payload| <= 0x7FFF_FFFF
    ensures ReadFrame([first] + LengthForm(mask.Some?, |payload|) + MaskBytes(mask) + payload + rest) == Err(Fragmented)
  {
    Widths();
    hide ReadMeta, LengthForm, Pow256, Masked;
    var head, body := [first] + LengthForm(mask.Some?, |payload|), MaskBytes(mask) + payload;
    MetaRoundTrip(first, mask.Some?, |payload|, body + rest);
    assert head + MaskBytes(mask) + payload + rest == head + (body + rest);
    assert (body + rest)[..|MaskBytes(mask)|] == MaskBytes(mask);
  }

  function MaskBytes(mask: Option<Mask>): Bytes {
    if mask.Some? then mask.value else []
  }

  lemma ShortHead(first: bv8, masked: bool, length: nat, k: nat)
    requires length < Pow256(8) && k < 1 + |LengthForm(masked, length)|
    ensures ReadMeta(([first] + LengthForm(masked, length))[..k]) == Err(EndOfStream)
  {
    hide WithHigh, HighBit, LowBits, Opcode, Byte, Number, FromBigEndian, BigEndian, Pow256;
    if length > 125 {
      HeaderBits(masked, if length < 65536 then 126 else 127);
    }
  }

  lemma PartialBody(first: bv8, mask: Option<Mask>, payload: Bytes, k: nat)
    requires |payload| < Pow256(8) && |payload| <= 0x7FFF_FFFF && k < |MaskBytes(mask) + payload|
    ensures var body := MaskBytes(mask) + payload;
      ReadFrame([first] + LengthForm(mask.Some?, |payload|) + body[..k]) == Err(EndOfStream)
  {
    hide ReadMeta, LengthForm, Pow256, Masked;
    var body := (MaskBytes(mask) + payload)[..k];
    MetaRoundTrip(first, mask.Some?, |payload|, body);
  }

  lemma PrefixOfThree(a: Bytes, b: Bytes, c: Bytes, k: nat)
    requires k <= |a + b + c|
    ensures (a + b + c)[..k] == if k < |a| then a[..k] else a + (b + c)[..k - |a|]
  {
    assert a + b + c == a + (b + c);
  }

  /** Nothing is read of a frame, final or not, before its last byte is there. */
  lemma PartialFrameWaits(first: bv8, mask: Option<Mask>, payload: Bytes, k: nat)
    requires |payload| <= 0x7FFF_FFFF
    requires k < |[first] + LengthForm(mask.Some?, |payload|) + MaskBytes(mask) + payload|
    ensures var frame := [first] + LengthForm(mask.Some?, |payload|) + MaskBytes(mask) + payload;
      ReadFrame(frame[..k]) == Err(EndOfStream)
  {
    Widths();
    var head := [first] + LengthForm(mask.Some?, |payload|);
    PrefixOfThree(head, MaskBytes(mask), payload, k);
    hide ReadMeta, ReadFull, ReadMask, LengthForm, Pow256, Masked, MaskBytes;
    if k < |head| {
      ShortHead(first, mask.Some?, |payload|, k);
    } else {
      PartialBody(first, mask, payload, k - |head|);
    }
  }

  // The bytes on the wire

  /** Two or eight bytes as a number, most significant first. */
  function WrittenOut(s: Bytes): nat
    requires |s| == 2 || |s| == 8
  {
    if |s| == 2 then Number(s[0]) * 0x100 + Number(s[1])
    else
      Number(s[0]) * 0x100_0000_0000_0000 + Number(s[1]) * 0x1_0000_0000_0000 + Number(s[2]) * 0x100_0000_0000
      + Number(s[3]) * 0x1_0000_0000 + Number(s[4]) * 0x100_0000 + Number(s[5]) * 0x1_0000
      + Number(s[6]) * 0x100 + Number(s[7])
  }

  /** The first bytes of a frame, written out: the final mark and the opcode; the mask bit and the
      short length or the code of the long one; and the length, most significant byte first. */
  ghost predicate HeadOnWire(s: Bytes, opcode: bv8, maskBit: bv8, length: nat, body: nat) {
    && 2 <= body <= |s| && s[0] == 0x80 | opcode
    && if length <= 125 then
         body == 2 && s[1] == maskBit | (length as bv8)
       else if length <= 0xFFFF then
         body == 4 && s[1] == maskBit | 126 && WrittenOut(s[2..4]) == length
       else
         body == 10 && s[1] == maskBit | 127 && WrittenOut(s[2..10]) == length
  }

  lemma TwoBytes(s: Bytes)
    requires |s| == 2
    ensures FromBigEndian(s) == WrittenOut(s)
  {
    hide Number;
    assert s[..1] == [s[0]] && [s[0]][..0] == [];
    assert FromBigEndian([s[0]]) == Number(s[0]);
  }

  lemma EightBytes(s: Bytes)
    requires |s| == 8
    ensures FromBigEndian(s) == WrittenOut(s)
  {
    hide Number;
    var a2, a3, a4, a5, a6, a7 := s[..2], s[..3], s[..4], s[..5], s[..6], s[..7];
    TwoBytes(a2);
    assert a3[..2] == a2 && a4[..3] == a3 && a5[..4] == a4 && a6[..5] == a5 && a7[..6] == a6 && s[..7] == a7;
    assert FromBigEndian(a3) == FromBigEndian(a2) * 256 + Number(s[2]);
    assert FromBigEndian(a4) == FromBigEndian(a3) * 256 + Number(s[3]);
    assert FromBigEndian(a5) == FromBigEndian(a4) * 256 + Number(s[4]);
    assert FromBigEndian(a6) == FromBigEndian(a5) * 256 + Number(s[5]);
    assert FromBigEndian(a7) == FromBigEndian(a6) * 256 + Number(s[6]);
    assert FromBigEndian(s) == FromBigEndian(a7) * 256 + Number(s[7]);
  }

  lemma HeadIsOnWire(opcode: bv8, masked: bool, length: nat, rest: Bytes)
    requires length < Pow256(8)
    ensures var form := LengthForm(masked, length);
      HeadOnWire([WithHigh(true, opcode)] + form + rest, opcode, if masked then 0x80 else 0, length, 1 + |form|)
  {
    hide Number, FromBigEndian, BigEndian, Pow256;
    var s := [WithHigh(true, opcode)] + LengthForm(masked, length) + rest;
    if length > 125 {
      var k := if length < 65536 then 2 else 8;
      LengthBytes(length, k);
      assert s[2..2 + k] == BigEndian(length, k);
    }
  }

  lemma LengthBytes(length: nat, k: nat)
    requires length < Pow256(8) && (k == 8 || (k == 2 && length < 65536))
    ensures var s := BigEndian(length, k); WrittenOut(s) == length
  {
    Widths();
    BigEndianRoundTrip(length, k);
    if k == 2 {
      TwoBytes(BigEndian(length, 2));
    } else {
      EightBytes(BigEndian(length, 8));
    }
  }

  /** What the server puts on the wire, byte by byte as section 5.2 of RFC 6455 draws it. */
  lemma ServerFrameOnWire(f: Frame)
    requires |f.payload| < Pow256(8)
    ensures var s, n := ServerFrame(f), |f.payload|;
      |s| >= n && HeadOnWire(s, f.opcode, 0, n, |s| - n) && s[|s| - n..] == f.payload
  {
    HeadIsOnWire(f.opcode, false, |f.payload|, f.payload);
    hide HeadOnWire, WithHigh, LengthForm, Pow256;
  }

  /** What the client puts on the wire: the mask bit, the mask, and each byte under its mask byte. */
  lemma ClientFrameOnWire(f: Frame, mask: Mask)
    requires |f.payload| < Pow256(8)
    ensures var s, n := ClientFrame(f, mask), |f.payload|;
      && |s| >= n + 4 && HeadOnWire(s, f.opcode, 0x80, n, |s| - n - 4)
      && s[|s| - n - 4..|s| - n] == mask
      && forall i :: 0 <= i < n ==> s[|s| - n + i] == f.payload[i] ^ mask[i % 4]
  {
    var body := Masked(f.payload, mask);
    HeadIsOnWire(f.opcode, true, |f.payload|, mask + body);
    hide HeadOnWire, WithHigh, LengthForm, Pow256;
    var head := [WithHigh(true, f.opcode)] + LengthForm(true, |f.payload|);
    assert ClientFrame(f, mask) == head + (mask + body);
  }

  // The shortest length form

  /** The encodings of a length that section 5.2 defines, whether minimal or not. */
  predicate Encodes(form: Bytes, length: nat) {
    form != [] &&
    var low := LowBits(form[0]);
    || (low < 126 && |form| == 1 && Number(low) == length)
    || (low == 126 && |form| == 3 && FromBigEndian(form[1..]) == length)
    || (low == 127 && |form| == 9 && FromBigEndian(form[1..]) == length)
  }

  lemma {:induction false} FromBigEndianBound(s: Bytes)
    ensures FromBigEndian(s) < Pow256(|s|)
  {
    hide Number;
    if s != [] {
      FromBigEndianBound(s[..|s| - 1]);
      NumberBound(s[|s| - 1]);
    }
  }

  lemma FormEncodes(masked: bool, length: nat)
    requires length < Pow256(8)
    ensures Encodes(LengthForm(masked, length), length)
  {
    hide WithHigh, LowBits, Byte, Number, FromBigEndian;
    Widths();
    if length <= 125 {
      ByteRoundTrip(length);
      NumberBound(Byte(length));
      HeaderBits(masked, Byte(length));
    } else {
      var k := if length < 65536 then 2 else 8;
      HeaderBits(masked, if k == 2 then 126 else 127);
      BigEndianRoundTrip(length, k);
      assert LengthForm(masked, length)[1..] == BigEndian(length, k);
    }
  }

  /** The form written is an encoding of the length, and no encoding is shorter. */
  lemma LengthFormIsShortest(masked: bool, length: nat, form: Bytes)
    requires length < Pow256(8)
    ensures Encodes(LengthForm(masked, length), length)
    ensures Encodes(form, length) ==> |LengthForm(masked, length)| <= |form|
  {
    hide WithHigh, LowBits, Byte, Number, FromBigEndian;
    FormEncodes(masked, length);
    Widths();
    if Encodes(form, length) {
      NumberBound(LowBits(form[0]));
      FromBigEndianBound(form[1..]);
    }
  }

  // Streams

  function Stream(frames: seq<Frame>): Bytes {
    if frames == [] then [] else ServerFrame(frames[0]) + Stream(frames[1..])
  }

  /** Everything that can be read frame by frame, and what is left when that stops. */
  function ReadAll(input: Bytes): (seq<Frame>, Bytes)
    decreases |input|
  {
    match ReadFrame(input)
    case Err(_) => ([], input)
    case Ok(p) => var (frames, rest) := ReadAll(p.rest); ([p.value] + frames, rest)
  }

  predicate Sendable(f: Frame) {
    f.opcode < 16 && |f.payload| <= MAX_PAYLOAD
  }

  lemma {:induction false} StreamRoundTrip(frames: seq<Frame>)
    requires forall i :: 0 <= i < |frames| ==> Sendable(frames[i])
    ensures ReadAll(Stream(frames)) == (frames, [])
  {
    if frames != [] {
      Widths();
      assert Sendable(frames[0]);
      ServerFrameRoundTrip(frames[0], Stream(frames[1..]));
      StreamRoundTrip(frames[1..]);
      assert [frames[0]] + frames[1..] == frames;
    }
  }

  // ReadText: frames up to the next text frame, answering pings

  /** The outcome of one ReadText call: the text or the error, the unread input, and the payloads
      of the pings answered. */
  datatype TextRead = TextRead(text: Result<Bytes, WsError>, rest: Bytes, pings: seq<Bytes>)

  function ReadText(input: Bytes): TextRead
    decreases |input|
  {
    match ReadFrame(input)
    case Err(e) => TextRead(Err(e), input, [])
    case Ok(p) =>
      if p.value.opcode == OP_TEXT then TextRead(Ok(p.value.payload), p.rest, [])
      else if p.value.opcode == OP_CLOSE then TextRead(Err(Closed), p.rest, [])
      else
        var later := ReadText(p.rest);
        if p.value.opcode == OP_PING then later.(pings := [p.value.payload] + later.pings) else later
  }

  lemma {:induction false} ReadTextShrinks(input: Bytes)
    ensures ReadText(input).text.Ok? ==> |ReadText(input).rest| < |input|
    decreases |input|
  {
    if ReadFrame(input).Ok? {
      ReadTextShrinks(ReadFrame(input).value.rest);
    }
  }

  /** Repeated calls until one fails: the texts in order, the pings answered, the final error. */
  function ReadTexts(input: Bytes): (seq<Bytes>, seq<Bytes>, WsError)
    decreases |input|
  {
    var r := ReadText(input);
    ReadTextShrinks(input);
    match r.text
    case Err(e) => ([], r.pings, e)
    case Ok(text) => var (texts, pings, e) := ReadTexts(r.rest); ([text] + texts, r.pings + pings, e)
  }

  function Payloads(frames: seq<Frame>, opcode: bv8): seq<Bytes> {
    if frames == [] then []
    else (if frames[0].opcode == opcode then [frames[0].payload] else []) + Payloads(frames[1..], opcode)
  }

  lemma ReadTextsSkips(f: Frame, rest: Bytes)
    requires Sendable(f) && f.opcode != OP_CLOSE
    ensures var (texts, pings, e) := ReadTexts(rest);
      ReadTexts(ServerFrame(f) + rest) ==
        ((if f.opcode == OP_TEXT then [f.payload] else []) + texts,
         (if f.opcode == OP_PING then [f.payload] else []) + pings, e)
  {
    hide ReadFrame;
    Widths();
    ServerFrameRoundTrip(f, rest);
    var input, later := ServerFrame(f) + rest, ReadText(rest);
    if f.opcode == OP_TEXT {
      assert ReadText(input) == TextRead(Ok(f.payload), rest, []);
    } else {
      var answered := if f.opcode == OP_PING then [f.payload] else [];
      assert ReadText(input) == later.(pings := answered + later.pings);
      if later.text.Ok? {
        var more := ReadTexts(later.rest).1;
        assert (answered + later.pings) + more == answered + (later.pings + more);
      }
      assert [] + ReadTexts(rest).0 == ReadTexts(rest).0;
    }
  }

  /** Where reading ends: at a close frame, or at a frame too large for the client. */
  function StopAt(f: Frame): Option<WsError> {
    if |f.payload| > 0x7FFF_FFFF then Some(FrameTooLarge)
    else if f.opcode == 0x8 then Some(Closed)
    else None
  }

  /** The frames up to the first at which reading ends, and the error there. */
  function UpToStop(frames: seq<Frame>): (seq<Frame>, WsError) {
    if frames == [] then ([], EndOfStream)
    else if StopAt(frames[0]).Some? then ([], StopAt(frames[0]).value)
    else var (read, e) := UpToStop(frames[1..]); ([frames[0]] + read, e)
  }

  lemma ReadTextsStops(f: Frame, rest: Bytes)
    requires f.opcode < 16 && |f.payload| < Pow256(8) && StopAt(f).Some?
    ensures ReadTexts(ServerFrame(f) + rest) == ([], [], StopAt(f).value)
  {
    hide ReadFrame, ServerFrame, Pow256;
    ServerFrameRoundTrip(f, rest);
  }

  /** Reading texts off any stream of frames returns exactly the payloads of the text frames in order
      and answers each ping once, in order, up to the first close frame or frame too large, or to the
      end of the stream; and the error says which. */
  lemma {:induction false} ReadTextsOfStream(frames: seq<Frame>)
    requires forall i :: 0 <= i < |frames| ==> frames[i].opcode < 16 && |frames[i].payload| < Pow256(8)
    ensures var (read, e) := UpToStop(frames);
      ReadTexts(Stream(frames)) == (Payloads(read, 0x1), Payloads(read, 0x9), e)
  {
    hide ServerFrame, ReadTexts, Pow256;
    if frames == [] {
      assert ReadTexts([]) == ([], [], EndOfStream) by { NothingToRead(); }
    } else if StopAt(frames[0]).Some? {
      ReadTextsStops(frames[0], Stream(frames[1..]));
    } else {
      ReadTextsSkips(frames[0], Stream(frames[1..]));
      ReadTextsOfStream(frames[1..]);
      var read := UpToStop(frames[1..]).0;
      assert ([frames[0]] + read)[1..] == read;
    }
  }

  lemma NothingToRead()
    ensures ReadTexts([]) == ([], [], EndOfStream)
  {
  }
}
