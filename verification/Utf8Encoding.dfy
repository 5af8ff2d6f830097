/**
 An encoder for UTF-8, and what it says about the decoder: well-formed bytes are exactly the encodings of texts,
 decoding and encoding undo each other, and in other bytes each replacement character stands for the longest
 beginning of an encoding (the maximal subparts of section 3.9 of the Unicode Standard).
 */
module Utf8Encoding {
  import opened Utf8

  /** A code point that UTF-8 can carry: no surrogate. */
  predicate Scalar(c: CodePoint) { !(0xD800 <= c < 0xE000) }

  predicate AllScalar(text: seq<CodePoint>) { forall i :: 0 <= i < |text| ==> Scalar(text[i]) }

  /** A continuation byte with six bits. */
  function Six(n: nat): (b: Byte)
    ensures Tail(b) && Bits(b) == n % 0x40
  {
    (0x80 + n % 0x40) as Byte
  }

  function Encode1(c: CodePoint): (r: seq<Byte>)
    ensures |r| == Width(c)
  {
    if c < 0x80 then [c as Byte]
    else if c < 0x800 then [(0xC0 + c / 0x40) as Byte, Six(c)]
    else if c < 0x1_0000 then [(0xE0 + c / 0x1000) as Byte, Six(c / 0x40), Six(c)]
    else [(0xF0 + c / 0x4_0000) as Byte, Six(c / 0x1000), Six(c / 0x40), Six(c)]
  }

  function Encode(text: seq<CodePoint>): seq<Byte> {
    if text == [] then [] else Encode1(text[0]) + Encode(text[1..])
  }

  // ------------------------------------------------------------ one character

  /** An encoded character is read as itself, whatever follows it. */
  lemma EncodedIsRead(c: CodePoint, rest: seq<Byte>)
    requires Scalar(c)
    ensures var b := Encode1(c) + rest;
            SequenceLength(b[0]) == Span(b) == |Encode1(c)| && First(b) == c && b[Span(b)..] == rest
  {
    var b, one := Encode1(c) + rest, Encode1(c);
    assert forall i :: 0 <= i < |one| ==> b[i] == one[i];
    assert b[|one|..] == rest;
    if c < 0x80 {
    } else if c < 0x800 {
      TwoBytes(c);
    } else if c < 0x1_0000 {
      ThreeBytes(c);
    } else {
      FourBytes(c);
    }
  }

  lemma TwoBytes(c: CodePoint)
    requires 0x80 <= c < 0x800
    ensures 0xC2 <= (0xC0 + c / 0x40) as Byte <= 0xDF && c / 0x40 * 0x40 + c % 0x40 == c
  {
  }

  lemma ThreeBytes(c: CodePoint)
    requires 0x800 <= c < 0x1_0000 && Scalar(c)
    ensures var lead := (0xE0 + c / 0x1000) as Byte;
            0xE0 <= lead <= 0xEF && Second(lead, Six(c / 0x40))
    ensures c / 0x1000 * 0x1000 + c / 0x40 % 0x40 * 0x40 + c % 0x40 == c
  {
  }

  lemma FourBytes(c: CodePoint)
    requires 0x1_0000 <= c
    ensures var lead := (0xF0 + c / 0x4_0000) as Byte;
            0xF0 <= lead <= 0xF4 && Second(lead, Six(c / 0x1000))
    ensures c / 0x4_0000 * 0x4_0000 + c / 0x1000 % 0x40 * 0x1000 + c / 0x40 % 0x40 * 0x40 + c % 0x40 == c
  {
  }

  lemma TwoIsEncoded(b: seq<Byte>)
    requires b != [] && SequenceLength(b[0]) == Span(b) == 2
    ensures Scalar(First(b)) && Encode1(First(b)) == b[..2]
  {
    var c := First(b);
    assert c / 0x40 == b[0] as int - 0xC0 && c % 0x40 == Bits(b[1]);
  }

  lemma Digits3(x: nat, y: nat, z: nat)
    requires y < 0x40 && z < 0x40
    ensures var c := x * 0x1000 + y * 0x40 + z;
            c / 0x1000 == x && c / 0x40 % 0x40 == y && c % 0x40 == z
  {
    var c := x * 0x1000 + y * 0x40 + z;
    assert c / 0x40 == x * 0x40 + y;
  }

  lemma ThreeIsEncoded(b: seq<Byte>)
    requires b != [] && SequenceLength(b[0]) == Span(b) == 3
    ensures Scalar(First(b)) && Encode1(First(b)) == b[..3]
  {
    var x, y, z := b[0] as int - 0xE0, Bits(b[1]), Bits(b[2]);
    Digits3(x, y, z);
    assert First(b) == x * 0x1000 + y * 0x40 + z;
    assert 0x800 <= First(b) < 0x1_0000 && Scalar(First(b));
    assert Encode1(First(b)) == [b[0], b[1], b[2]];
  }

  lemma Digits4(w: nat, x: nat, y: nat, z: nat)
    requires x < 0x40 && y < 0x40 && z < 0x40
    ensures var c := w * 0x4_0000 + x * 0x1000 + y * 0x40 + z;
            c / 0x4_0000 == w && c / 0x1000 % 0x40 == x && c / 0x40 % 0x40 == y && c % 0x40 == z
  {
    Digits3(w * 0x40 + x, y, z);
    var c := w * 0x4_0000 + x * 0x1000 + y * 0x40 + z;
    assert c / 0x1000 == w * 0x40 + x;
  }

  lemma FourIsEncoded(b: seq<Byte>)
    requires b != [] && SequenceLength(b[0]) == Span(b) == 4
    ensures Scalar(First(b)) && Encode1(First(b)) == b[..4]
  {
    var w, x, y, z := b[0] as int - 0xF0, Bits(b[1]), Bits(b[2]), Bits(b[3]);
    Digits4(w, x, y, z);
    assert First(b) == w * 0x4_0000 + x * 0x1000 + y * 0x40 + z;
    assert 0x1_0000 <= First(b);
    assert Encode1(First(b)) == [b[0], b[1], b[2], b[3]];
  }

  /** A complete sequence is the encoding of what it is read as. */
  lemma CompleteIsEncoded(b: seq<Byte>)
    requires b != [] && SequenceLength(b[0]) == Span(b)
    ensures Scalar(First(b)) && Encode1(First(b)) == b[..Span(b)]
  {
    hide Encode1, First;
    match Span(b)
    case 1 => OneIsEncoded(b);
    case 2 => TwoIsEncoded(b);
    case 3 => ThreeIsEncoded(b);
    case _ => FourIsEncoded(b);
  }

  lemma OneIsEncoded(b: seq<Byte>)
    requires b != [] && SequenceLength(b[0]) == Span(b) == 1
    ensures Scalar(First(b)) && Encode1(First(b)) == b[..1]
  {
  }

  // ------------------------------------------------------------ round trips

  /** Encoded text is well-formed and decodes to itself. */
  lemma {:induction false} EncodedDecodesToItself(text: seq<CodePoint>)
    requires AllScalar(text)
    ensures Decode(Encode(text)) == text && WellFormed(Encode(text))
  {
    if text != [] {
      EncodedDecodesToItself(text[1..]);
      EncodedIsRead(text[0], Encode(text[1..]));
    }
  }

  lemma {:induction false} DecodedIsScalar(b: seq<Byte>)
    ensures AllScalar(Decode(b))
    decreases |b|
  {
    if b != [] {
      DecodedIsScalar(b[Span(b)..]);
      if SequenceLength(b[0]) == Span(b) { CompleteIsEncoded(b); }
    }
  }

  lemma DecodeStep(b: seq<Byte>)
    requires b != []
    ensures Decode(b) == [First(b)] + Decode(b[Span(b)..])
    ensures WellFormed(b) <==> SequenceLength(b[0]) == Span(b) && WellFormed(b[Span(b)..])
  {
    hide First, Span, SequenceLength;
  }

  lemma EncodeStep(c: CodePoint, rest: seq<CodePoint>)
    ensures Encode([c] + rest) == Encode1(c) + Encode(rest)
  {
    hide Encode1;
    assert ([c] + rest)[1..] == rest;
  }

  lemma {:induction false} WellFormedIsEncoded(b: seq<Byte>)
    requires WellFormed(b)
    ensures Encode(Decode(b)) == b
    decreases |b|
  {
    hide First, Span, SequenceLength, Encode1, Decode, Encode, WellFormed;
    if b == [] {
      NothingDecoded();
    } else {
      DecodeStep(b);
      CompleteIsEncoded(b);
      WellFormedIsEncoded(b[Span(b)..]);
      EncodeStep(First(b), Decode(b[Span(b)..]));
    }
  }

  lemma NothingDecoded()
    ensures Decode([]) == [] && Encode([]) == []
  {
  }

  /** Bytes are the encoding of their decoding exactly if they are well-formed. */
  lemma DecodedEncodesToItselfIff(b: seq<Byte>)
    ensures Encode(Decode(b)) == b <==> WellFormed(b)
  {
    hide First, Span, SequenceLength, Encode1, Decode, Encode, WellFormed;
    if WellFormed(b) { WellFormedIsEncoded(b); }
    DecodedIsScalar(b);
    EncodedDecodesToItself(Decode(b));
  }

  lemma {:induction false} EncodeConcat(a: seq<CodePoint>, b: seq<CodePoint>)
    ensures Encode(a + b) == Encode(a) + Encode(b)
  {
    if a == [] {
      assert a + b == b;
    } else {
      assert (a + b)[1..] == a[1..] + b;
      EncodeConcat(a[1..], b);
    }
  }

  // ------------------------------------------------------------ ill-formed bytes

  /** The bytes begin the encoding of some character. */
  ghost predicate Begins(bytes: seq<Byte>) { exists c: CodePoint :: Scalar(c) && bytes <= Encode1(c) }

  /** The beginning of a sequence, filled up with the least continuation bytes. */
  function FilledUp(b: seq<Byte>, n: nat): (r: seq<Byte>)
    requires 2 <= n <= |b| && n <= SequenceLength(b[0])
    ensures |r| == SequenceLength(b[0]) && b[..n] <= r
  {
    b[..n] + seq(SequenceLength(b[0]) - n, (i: nat) => 0x80 as Byte)
  }

  /** As far as a span reaches, the bytes begin an encoding. */
  lemma SpanBegins(b: seq<Byte>, n: nat)
    requires b != [] && 2 <= n <= Span(b)
    ensures Begins(b[..n])
  {
    var r := FilledUp(b, n);
    assert forall i :: 0 <= i < n ==> r[i] == b[i];
    assert Span(r) == SequenceLength(r[0]);
    CompleteIsEncoded(r);
    assert b[..n] <= Encode1(First(r));
  }

  /** And no further: what begins an encoding lies within the span. */
  lemma BeginningIsInSpan(b: seq<Byte>, n: nat, c: CodePoint)
    requires 1 <= n <= |b| && Scalar(c) && b[..n] <= Encode1(c)
    ensures n <= Span(b)
  {
    var one := Encode1(c);
    EncodedIsRead(c, []);
    assert one + [] == one;
    assert forall i :: 0 <= i < n ==> b[..n][i] == b[i] == one[i];
  }

  /**
   Reading one piece, said by encodings alone: a piece is the longest beginning of an encoding, or one byte. A
   character whose encoding comes first is read as itself; where none does, the piece gives one replacement
   character.
   */
  lemma PieceMeans(b: seq<Byte>)
    requires b != []
    ensures forall c: CodePoint :: Scalar(c) && Encode1(c) <= b ==> First(b) == c && Span(b) == |Encode1(c)|
    ensures (forall c: CodePoint :: Scalar(c) ==> !(Encode1(c) <= b)) ==> First(b) == REPLACEMENT
    ensures forall n :: 1 < n <= |b| ==> (n <= Span(b) <==> Begins(b[..n]))
  {
    hide Encode1, Span, First, SequenceLength;
    forall c: CodePoint | Scalar(c) && Encode1(c) <= b ensures First(b) == c && Span(b) == |Encode1(c)| {
      assert b == Encode1(c) + b[|Encode1(c)|..];
      EncodedIsRead(c, b[|Encode1(c)|..]);
    }
    forall n | 1 < n <= |b| ensures n <= Span(b) <==> Begins(b[..n]) {
      if n <= Span(b) { SpanBegins(b, n); }
      if c: CodePoint :| Scalar(c) && b[..n] <= Encode1(c) { BeginningIsInSpan(b, n, c); }
    }
    if SequenceLength(b[0]) == Span(b) { CompleteIsEncoded(b); } else { IncompleteIsReplaced(b); }
  }

  lemma IncompleteIsReplaced(b: seq<Byte>)
    requires b != [] && SequenceLength(b[0]) != Span(b)
    ensures First(b) == REPLACEMENT
  {
  }
}
