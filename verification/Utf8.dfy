/**
 Decoding bytes to text the way Buffer.toString does: well-formed UTF-8 becomes its code points, and
 every ill-formed piece becomes one replacement character.
 */
module Utf8 {
  newtype Byte = x: int | 0 <= x < 256

  type CodePoint = n: nat | n < 0x11_0000

  const REPLACEMENT: CodePoint := 0xFFFD

  /** How many bytes UTF-8 takes for a code point. */
  function Width(c: CodePoint): nat {
    if c < 0x80 then 1 else if c < 0x800 then 2 else if c < 0x1_0000 then 3 else 4
  }

  /** `Buffer.byteLength` of a text. */
  function ByteLength(text: seq<CodePoint>): nat {
    if text == [] then 0 else Width(text[0]) + ByteLength(text[1..])
  }

  lemma {:induction false} ByteLengthConcat(a: seq<CodePoint>, b: seq<CodePoint>)
    ensures ByteLength(a + b) == ByteLength(a) + ByteLength(b)
  {
    if a == [] {
      assert a + b == b;
    } else {
      assert (a + b)[1..] == a[1..] + b;
      ByteLengthConcat(a[1..], b);
    }
  }

  predicate Tail(b: Byte) { 0x80 <= b <= 0xBF }

  /** The range of the second byte narrows after E0, ED, F0 and F4. */
  predicate Second(lead: Byte, b: Byte) {
    if lead == 0xE0 then 0xA0 <= b <= 0xBF
    else if lead == 0xED then 0x80 <= b <= 0x9F
    else if lead == 0xF0 then 0x90 <= b <= 0xBF
    else if lead == 0xF4 then 0x80 <= b <= 0x8F
    else Tail(b)
  }

  function SequenceLength(lead: Byte): nat {
    if lead < 0x80 then 1
    else if 0xC2 <= lead <= 0xDF then 2
    else if 0xE0 <= lead <= 0xEF then 3
    else if 0xF0 <= lead <= 0xF4 then 4
    else 0
  }

  /** How many bytes from the start belong to one well-formed sequence or to its longest beginning. */
  function Span(bytes: seq<Byte>): (n: nat)
    requires bytes != []
    ensures 1 <= n <= |bytes|
  {
    var want := SequenceLength(bytes[0]);
    if want <= 1 || |bytes| < 2 || !Second(bytes[0], bytes[1]) then 1
    else if want == 2 || |bytes| < 3 || !Tail(bytes[2]) then 2
    else if want == 3 || |bytes| < 4 || !Tail(bytes[3]) then 3
    else 4
  }

  /** What a continuation byte contributes. */
  function Bits(b: Byte): int { b as int - 0x80 }

  /** The code point of a complete sequence; a piece of one decodes to the replacement character. */
  function First(bytes: seq<Byte>): (c: CodePoint)
    requires bytes != []
    ensures Width(c) <= 3 * Span(bytes)
    ensures SequenceLength(bytes[0]) == Span(bytes) ==> Width(c) == Span(bytes)
  {
    var n := Span(bytes);
    if SequenceLength(bytes[0]) != n then REPLACEMENT
    else if n == 1 then bytes[0] as int
    else if n == 2 then (bytes[0] as int - 0xC0) * 0x40 + Bits(bytes[1])
    else if n == 3 then (bytes[0] as int - 0xE0) * 0x1000 + Bits(bytes[1]) * 0x40 + Bits(bytes[2])
    else (bytes[0] as int - 0xF0) * 0x4_0000 + Bits(bytes[1]) * 0x1000 + Bits(bytes[2]) * 0x40 + Bits(bytes[3])
  }

  function Decode(bytes: seq<Byte>): seq<CodePoint> {
    if bytes == [] then [] else [First(bytes)] + Decode(bytes[Span(bytes)..])
  }

  /** Every byte accounts for at most three bytes of decoded text. */
  lemma {:induction false} DecodeExpandsAtMostThreefold(bytes: seq<Byte>)
    ensures ByteLength(Decode(bytes)) <= 3 * |bytes|
  {
    if bytes != [] {
      var rest := bytes[Span(bytes)..];
      DecodeExpandsAtMostThreefold(rest);
      assert Decode(bytes)[1..] == Decode(rest);
    }
  }

  predicate Ascii(bytes: seq<Byte>) { forall i :: 0 <= i < |bytes| ==> bytes[i] < 0x80 }

  function AsCodePoints(bytes: seq<Byte>): seq<CodePoint>
    requires Ascii(bytes)
  {
    seq(|bytes|, (i: nat) requires i < |bytes| && bytes[i] < 0x80 => bytes[i] as int as CodePoint)
  }

  lemma {:induction false} AsciiDecodesToItself(bytes: seq<Byte>)
    requires Ascii(bytes)
    ensures Decode(bytes) == AsCodePoints(bytes) && ByteLength(Decode(bytes)) == |bytes|
  {
    if bytes != [] {
      AsciiDecodesToItself(bytes[1..]);
      assert AsCodePoints(bytes) == [First(bytes)] + AsCodePoints(bytes[1..]);
      assert Decode(bytes)[1..] == Decode(bytes[1..]);
    }
  }

  // ------------------------------------------------------------ decoding in parts

  /** Byte position n lies between two pieces of the decoding, not inside one. */
  predicate Boundary(bytes: seq<Byte>, n: nat)
    decreases |bytes|
  {
    n == 0 || (bytes != [] && n >= Span(bytes) && Boundary(bytes[Span(bytes)..], n - Span(bytes)))
  }

  /** A piece that ends within a is the same piece when more bytes follow. */
  lemma SpanStays(a: seq<Byte>, b: seq<Byte>)
    requires a != [] && Span(a + b) <= |a|
    ensures Span(a) == Span(a + b) && First(a) == First(a + b)
    ensures (a + b)[Span(a)..] == a[Span(a)..] + b
  {
  }

  /** A piece that runs over the end of a is all of a, cut short, and continuation bytes. */
  lemma SpanRunsOver(a: seq<Byte>, b: seq<Byte>)
    requires a != [] && Span(a + b) > |a|
    ensures Span(a) == |a| && forall i :: 0 <= i < Span(a + b) - |a| ==> Tail(b[i])
  {
    assert forall i :: 0 <= i < |b| ==> (a + b)[|a| + i] == b[i];
  }

  /** Continuation bytes on their own decode one by one. */
  lemma {:induction false} TailsDecodeAlone(b: seq<Byte>, m: nat)
    requires m <= |b| && forall i :: 0 <= i < m ==> Tail(b[i])
    ensures |Decode(b)| == m + |Decode(b[m..])|
  {
    if m > 0 {
      assert Span(b) == 1;
      TailsDecodeAlone(b[1..], m - 1);
      assert b[1..][m - 1..] == b[m..];
    }
  }

  /** A cut inside a piece: its beginning and its rest together give more code points than the piece. */
  lemma CutInside(a: seq<Byte>, b: seq<Byte>)
    requires a != [] && Span(a + b) > |a|
    ensures !Boundary(a + b, |a|) && |Decode(a)| + |Decode(b)| > |Decode(a + b)|
  {
    SpanRunsOver(a, b);
    hide First, Span;
    var m := Span(a + b) - |a|;
    TailsDecodeAlone(b, m);
    assert (a + b)[Span(a + b)..] == b[m..] && a[Span(a)..] == [];
  }

  /** A cut after the first piece is a cut in the rest. */
  lemma CutLater(a: seq<Byte>, b: seq<Byte>)
    requires a != [] && Span(a + b) <= |a|
    ensures var rest := a[Span(a)..];
            && Boundary(a + b, |a|) == Boundary(rest + b, |rest|)
            && Decode(a) == [First(a)] + Decode(rest) && Decode(a + b) == [First(a)] + Decode(rest + b)
  {
    SpanStays(a, b);
    hide First, Span;
  }

  /** A cut before the first byte cuts nothing. */
  lemma CutAtStart(b: seq<Byte>)
    ensures Boundary([] + b, 0) && Decode([]) + Decode(b) == Decode([] + b)
  {
    assert [] + b == b;
  }

  /**
   Decoding two parts on their own never gives less than decoding the whole; it gives the same exactly
   if the cut lies between two pieces, and otherwise more code points.
   */
  lemma {:induction false} DecodeInTwo(a: seq<Byte>, b: seq<Byte>)
    ensures |Decode(a)| + |Decode(b)| >= |Decode(a + b)|
    ensures Boundary(a + b, |a|) ==> Decode(a) + Decode(b) == Decode(a + b)
    ensures !Boundary(a + b, |a|) ==> |Decode(a)| + |Decode(b)| > |Decode(a + b)|
    decreases |a|
  {
    hide First, Span, Decode, Boundary;
    if a == [] {
      CutAtStart(b);
    } else if Span(a + b) <= |a| {
      CutLater(a, b);
      DecodeInTwo(a[Span(a)..], b);
    } else {
      CutInside(a, b);
    }
  }

  lemma {:induction false} BoundaryAtEnd(s: seq<Byte>)
    ensures Boundary(s, |s|)
    decreases |s|
  {
    if s != [] { BoundaryAtEnd(s[Span(s)..]); }
  }

  /** What follows a boundary does not move the boundaries before it. */
  lemma {:induction false} BoundaryStays(a: seq<Byte>, b: seq<Byte>, n: nat)
    requires n <= |a| && Boundary(a + b, |a|)
    ensures Boundary(a + b, n) <==> Boundary(a, n)
    decreases |a|
  {
    if n > 0 {
      SpanStays(a, b);
      if n >= Span(a) { BoundaryStays(a[Span(a)..], b, n - Span(a)); }
    }
  }

  /** Well-formed UTF-8: every piece is a complete sequence. */
  predicate WellFormed(s: seq<Byte>)
    decreases |s|
  {
    s == [] || (SequenceLength(s[0]) == Span(s) && WellFormed(s[Span(s)..]))
  }

  /** Well-formed text keeps its length, and whatever follows it starts a new piece. */
  lemma {:induction false} WellFormedKeepsLength(a: seq<Byte>, b: seq<Byte>)
    requires WellFormed(a)
    ensures ByteLength(Decode(a)) == |a| && Boundary(a + b, |a|)
    decreases |a|
  {
    if a != [] {
      CompleteStays(a, b);
      SpanStays(a, b);
      WellFormedKeepsLength(a[Span(a)..], b);
      assert Decode(a)[1..] == Decode(a[Span(a)..]);
    }
  }

  lemma CompleteStays(a: seq<Byte>, b: seq<Byte>)
    requires a != [] && SequenceLength(a[0]) == Span(a)
    ensures Span(a + b) == Span(a)
  {
    assert forall i :: 0 <= i < |a| ==> (a + b)[i] == a[i];
  }

  /** Decoding never makes a text shorter. */
  lemma {:induction false} DecodeNeverShrinks(bytes: seq<Byte>)
    ensures ByteLength(Decode(bytes)) >= |bytes|
    decreases |bytes|
  {
    if bytes != [] {
      DecodeNeverShrinks(bytes[Span(bytes)..]);
      assert Decode(bytes)[1..] == Decode(bytes[Span(bytes)..]);
    }
  }

  lemma {:induction false} AsciiIsWellFormed(bytes: seq<Byte>)
    requires Ascii(bytes)
    ensures WellFormed(bytes)
  {
    if bytes != [] { AsciiIsWellFormed(bytes[1..]); }
  }
}
