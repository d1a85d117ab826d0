/** UTF-8 (RFC 3629), by its byte sequences and by code points. */
module Unicode {
  import opened Crypto
  import Framing

  // The well-formed sequences, as section 4 lists them

  function SequenceLength(first: bv8): (n: nat)
    ensures n <= 4
  {
    if first < 0x80 then 1
    else if 0xC2 <= first <= 0xDF then 2
    else if 0xE0 <= first <= 0xEF then 3
    else if 0xF0 <= first <= 0xF4 then 4
    else 0
  }

  predicate IsSecond(first: bv8, b: bv8) {
    && (if first == 0xE0 then 0xA0 else if first == 0xF0 then 0x90 else 0x80) <= b
    && b <= (if first == 0xED then 0x9F else if first == 0xF4 then 0x8F else 0xBF)
  }

  predicate IsTail(b: bv8) {
    0x80 <= b <= 0xBF
  }

  /** The length of the well-formed sequence at the front; 0 if there is none. */
  function RuneSize(b: Bytes): (n: nat)
    ensures n <= |b|
    ensures n >= 2 ==> forall i :: 0 <= i < n ==> b[i] >= 0x80
  {
    if b == [] then 0
    else
      var n := SequenceLength(b[0]);
      if && |b| >= n
         && (n >= 2 ==> IsSecond(b[0], b[1]))
         && (n >= 3 ==> IsTail(b[2]))
         && (n >= 4 ==> IsTail(b[3]))
      then n else 0
  }

  predicate Utf8(b: Bytes)
    decreases |b|
  {
    b == [] || (RuneSize(b) > 0 && Utf8(b[RuneSize(b)..]))
  }

  // The same by code points, as section 3 encodes them

  predicate IsScalar(c: int) {
    0 <= c <= 0x10FFFF && !(0xD800 <= c <= 0xDFFF)
  }

  /** All but the low six bits, and the low six bits as a tail byte. */
  function Front(c: int): int {
    c / 0x40
  }

  function Tail(c: int): int {
    0x80 + c % 0x40
  }

  function EncodeRune(c: int): (b: seq<int>)
    requires IsScalar(c)
  {
    if c < 0x80 then [c]
    else if c < 0x800 then [0xC0 + Front(c), Tail(c)]
    else if c < 0x1_0000 then [0xE0 + Front(Front(c)), Tail(Front(c)), Tail(c)]
    else [0xF0 + Front(Front(Front(c))), Tail(Front(Front(c))), Tail(Front(c)), Tail(c)]
  }

  /** Bytes as numbers. */
  function Numbers(b: Bytes): (s: seq<int>)
    ensures |s| == |b|
  {
    seq(|b|, i requires 0 <= i < |b| => Framing.Number(b[i]))
  }

  function EncodeAll(text: seq<int>): seq<int>
    requires forall c <- text :: IsScalar(c)
  {
    if text == [] then [] else EncodeRune(text[0]) + EncodeAll(text[1..])
  }

  lemma FirstBounds(b: bv8)
    ensures var x := Framing.Number(b);
      && x < 256 && (b < 0x80 <==> x < 0x80)
      && (0xC2 <= b <= 0xDF <==> 0xC2 <= x <= 0xDF)
      && (0xE0 <= b <= 0xEF <==> 0xE0 <= x <= 0xEF)
      && (0xF0 <= b <= 0xF4 <==> 0xF0 <= x <= 0xF4)
      && (b == 0xE0 <==> x == 0xE0) && (b == 0xED <==> x == 0xED)
      && (b == 0xF0 <==> x == 0xF0) && (b == 0xF4 <==> x == 0xF4)
  {
  }

  lemma TailBounds(b: bv8)
    ensures var x := Framing.Number(b);
      && (0x80 <= b <==> 0x80 <= x) && (0x90 <= b <==> 0x90 <= x) && (0xA0 <= b <==> 0xA0 <= x)
      && (b <= 0x8F <==> x <= 0x8F) && (b <= 0x9F <==> x <= 0x9F) && (b <= 0xBF <==> x <= 0xBF)
  {
  }

  function Appended(c: int, tail: int): int {
    c * 0x40 + (tail - 0x80)
  }

  /** The code point that a sequence of this length stands for. */
  function CodePoint(x: seq<int>, n: nat): int
    requires 1 <= n <= 4 && n <= |x|
  {
    if n == 1 then x[0]
    else if n == 2 then Appended(x[0] - 0xC0, x[1])
    else if n == 3 then Appended(Appended(x[0] - 0xE0, x[1]), x[2])
    else Appended(Appended(Appended(x[0] - 0xF0, x[1]), x[2]), x[3])
  }

  lemma SplitsOff(c: int, tail: int)
    requires c >= 0 && 0x80 <= tail <= 0xBF
    ensures Front(Appended(c, tail)) == c && Tail(Appended(c, tail)) == tail
  {
  }

  lemma Between(c: int, tail: int, low: int, high: int)
    requires low <= c <= high && 0x80 <= tail <= 0xBF
    ensures low * 0x40 <= Appended(c, tail) <= high * 0x40 + 0x3F
  {
  }

  /** SequenceLength, IsSecond and IsTail on numbers. */
  predicate WellFormed(x: seq<int>, n: nat) {
    && 1 <= n <= 4 && n <= |x|
    && (n == 1 ==> 0 <= x[0] < 0x80)
    && (n == 2 ==> 0xC2 <= x[0] <= 0xDF && 0x80 <= x[1] <= 0xBF)
    && (n == 3 ==> 0xE0 <= x[0] <= 0xEF && 0x80 <= x[1] <= 0xBF && (x[0] == 0xE0 ==> 0xA0 <= x[1])
                   && (x[0] == 0xED ==> x[1] <= 0x9F))
    && (n == 4 ==> 0xF0 <= x[0] <= 0xF4 && 0x80 <= x[1] <= 0xBF && (x[0] == 0xF0 ==> 0x90 <= x[1])
                   && (x[0] == 0xF4 ==> x[1] <= 0x8F))
    && (n >= 3 ==> 0x80 <= x[2] <= 0xBF)
    && (n == 4 ==> 0x80 <= x[3] <= 0xBF)
  }

  lemma RuneSizeOnNumbers(b: Bytes, n: nat)
    requires n > 0
    ensures RuneSize(b) == n <==> WellFormed(Numbers(b), n)
  {
    if b != [] {
      var x := Numbers(b);
      assert forall i :: 0 <= i < |b| ==> x[i] == Framing.Number(b[i]);
      FirstBounds(b[0]);
      if |b| > 1 { TailBounds(b[1]); }
      if |b| > 2 { TailBounds(b[2]); }
      if |b| > 3 { TailBounds(b[3]); }
      hide Framing.Number, Numbers;
    }
  }

  lemma DecodesTwo(first: int, second: int)
    requires 0xC2 <= first <= 0xDF && 0x80 <= second <= 0xBF
    ensures var c := Appended(first - 0xC0, second);
      0x80 <= c <= 0x7FF && 0xC0 + Front(c) == first && Tail(c) == second
  {
    hide Appended, Front, Tail;
    SplitsOff(first - 0xC0, second);
    Between(first - 0xC0, second, 0x2, 0x1F);
  }

  lemma DecodesThree(first: int, second: int, third: int)
    requires 0xE0 <= first <= 0xEF && 0x80 <= second <= 0xBF && 0x80 <= third <= 0xBF
    requires (first == 0xE0 ==> 0xA0 <= second) && (first == 0xED ==> second <= 0x9F)
    ensures var c := Appended(Appended(first - 0xE0, second), third);
      && 0x800 <= c <= 0xFFFF && !(0xD800 <= c <= 0xDFFF)
      && 0xE0 + Front(Front(c)) == first && Tail(Front(c)) == second && Tail(c) == third
  {
    var top := Appended(first - 0xE0, second);
    AboveTwo(first, second);
    RangeThree(top, third);
    hide Appended, Front, Tail;
    SplitsOff(first - 0xE0, second);
    SplitsOff(top, third);
  }

  lemma RangeThree(top: int, third: int)
    requires 0x20 <= top <= 0x3FF && !(0x360 <= top <= 0x37F) && 0x80 <= third <= 0xBF
    ensures var c := Appended(top, third); 0x800 <= c <= 0xFFFF && !(0xD800 <= c <= 0xDFFF)
  {
    hide Appended;
    if top <= 0x35F {
      Between(top, third, 0x20, 0x35F);
    } else {
      Between(top, third, 0x380, 0x3FF);
    }
  }

  lemma AboveTwo(first: int, second: int)
    requires 0xE0 <= first <= 0xEF && 0x80 <= second <= 0xBF
    requires (first == 0xE0 ==> 0xA0 <= second) && (first == 0xED ==> second <= 0x9F)
    ensures var top := Appended(first - 0xE0, second); 0x20 <= top <= 0x3FF && !(0x360 <= top <= 0x37F)
  {
  }

  lemma DecodesFour(first: int, second: int, third: int, fourth: int)
    requires 0xF0 <= first <= 0xF4 && 0x80 <= second <= 0xBF && 0x80 <= third <= 0xBF && 0x80 <= fourth <= 0xBF
    requires (first == 0xF0 ==> 0x90 <= second) && (first == 0xF4 ==> second <= 0x8F)
    ensures var c := Appended(Appended(Appended(first - 0xF0, second), third), fourth);
      && 0x1_0000 <= c <= 0x10FFFF && 0xF0 + Front(Front(Front(c))) == first
      && Tail(Front(Front(c))) == second && Tail(Front(c)) == third && Tail(c) == fourth
  {
    var top := Appended(first - 0xF0, second);
    AboveThree(first, second);
    RangeFour(top, third, fourth);
    hide Appended, Front, Tail;
    SplitsOff(first - 0xF0, second);
    SplitsOff(top, third);
    SplitsOff(Appended(top, third), fourth);
  }

  lemma RangeFour(top: int, third: int, fourth: int)
    requires 0x10 <= top <= 0x10F && 0x80 <= third <= 0xBF && 0x80 <= fourth <= 0xBF
    ensures 0x1_0000 <= Appended(Appended(top, third), fourth) <= 0x10FFFF
  {
    hide Appended;
    Between(top, third, 0x10, 0x10F);
    Between(Appended(top, third), fourth, 0x400, 0x43FF);
  }

  lemma AboveThree(first: int, second: int)
    requires 0xF0 <= first <= 0xF4 && 0x80 <= second <= 0xBF
    requires (first == 0xF0 ==> 0x90 <= second) && (first == 0xF4 ==> second <= 0x8F)
    ensures 0x10 <= Appended(first - 0xF0, second) <= 0x10F
  {
  }

  lemma Decodes(x: seq<int>, n: nat)
    requires WellFormed(x, n)
    ensures IsScalar(CodePoint(x, n)) && EncodeRune(CodePoint(x, n)) == x[..n]
  {
    hide Appended, Front, Tail;
    if n == 2 {
      DecodesTwo(x[0], x[1]);
    } else if n == 3 {
      DecodesThree(x[0], x[1], x[2]);
    } else if n == 4 {
      DecodesFour(x[0], x[1], x[2], x[3]);
    }
  }

  lemma Encodes(c: int, rest: seq<int>)
    requires IsScalar(c)
    ensures WellFormed(EncodeRune(c) + rest, |EncodeRune(c)|)
  {
  }

  lemma FormLength(x: seq<int>, n: nat)
    requires WellFormed(x, n)
    ensures 1 <= n <= 4 && n <= |x|
  {
  }

  /** A byte string is UTF-8 exactly if it is the encoding of some sequence of Unicode scalar values. */
  lemma {:induction false} Utf8Exactly(b: Bytes)
    ensures Utf8(b) <==> exists text: seq<int> :: (forall c <- text :: IsScalar(c)) && EncodeAll(text) == Numbers(b)
    decreases |b|
  {
    hide RuneSize, WellFormed, CodePoint, EncodeRune;
    if Utf8(b) {
      var text := Decoding(b);
    }
    if text: seq<int> :| (forall c <- text :: IsScalar(c)) && EncodeAll(text) == Numbers(b) {
      EncodedIsUtf8(b, text);
    }
  }

  lemma {:induction false} Decoding(b: Bytes) returns (text: seq<int>)
    requires Utf8(b)
    ensures (forall c <- text :: IsScalar(c)) && EncodeAll(text) == Numbers(b)
    decreases |b|
  {
    hide RuneSize, WellFormed, CodePoint, EncodeRune;
    text := [];
    if b != [] {
      var n := RuneSize(b);
      RuneSizeOnNumbers(b, n);
      FormLength(Numbers(b), n);
      Decodes(Numbers(b), n);
      var c := CodePoint(Numbers(b), n);
      var later := Decoding(b[n..]);
      text := [c] + later;
      assert text[1..] == later;
      assert Numbers(b) == Numbers(b)[..n] + Numbers(b[n..]);
    }
  }

  lemma {:induction false} EncodedIsUtf8(b: Bytes, text: seq<int>)
    requires (forall c <- text :: IsScalar(c)) && EncodeAll(text) == Numbers(b)
    ensures Utf8(b)
    decreases |text|
  {
    hide RuneSize, WellFormed, CodePoint, EncodeRune;
    if text != [] {
      var n := |EncodeRune(text[0])|;
      Encodes(text[0], EncodeAll(text[1..]));
      assert n > 0 by { EncodingNotEmpty(text[0]); }
      RuneSizeOnNumbers(b, n);
      assert Numbers(b) == EncodeRune(text[0]) + EncodeAll(text[1..]);
      assert Numbers(b[n..]) == Numbers(b)[n..];
      EncodedIsUtf8(b[n..], text[1..]);
    }
  }

  lemma EncodingNotEmpty(c: int)
    requires IsScalar(c)
    ensures |EncodeRune(c)| > 0
  {
  }
}
