/** Texts on the CLI's output: what is encoded, chunk by chunk, and fits, is kept exactly. */
module PublisherText {
  import opened Utf8
  import opened Utf8Encoding
  import opened Publisher

  function Encodings(texts: seq<seq<CodePoint>>): (r: seq<seq<Byte>>)
    ensures |r| == |texts| && forall i :: 0 <= i < |texts| ==> r[i] == Encode(texts[i])
  {
    seq(|texts|, (i: nat) requires i < |texts| => Encode(texts[i]))
  }

  function Joined(texts: seq<seq<CodePoint>>): seq<CodePoint> {
    if texts == [] then [] else Joined(texts[..|texts| - 1]) + texts[|texts| - 1]
  }

  lemma {:induction false} JoinedIsEncoded(texts: seq<seq<CodePoint>>)
    ensures Concat(Encodings(texts)) == Encode(Joined(texts))
  {
    hide Encode;
    if texts == [] {
      NothingEncoded();
    } else {
      var n := |texts| - 1;
      JoinedIsEncoded(texts[..n]);
      assert Encodings(texts)[..n] == Encodings(texts[..n]);
      EncodeConcat(Joined(texts[..n]), texts[n]);
    }
  }

  lemma NothingEncoded()
    ensures Encode([]) == []
  {
  }

  lemma {:induction false} JoinedIsScalar(texts: seq<seq<CodePoint>>)
    requires forall i :: 0 <= i < |texts| ==> AllScalar(texts[i])
    ensures AllScalar(Joined(texts))
  {
    if texts != [] { JoinedIsScalar(texts[..|texts| - 1]); }
  }

  /** Chunks that encode texts, together within the limit, leave exactly those texts, and nothing overflows. */
  lemma EncodedOutputIsKept(texts: seq<seq<CodePoint>>)
    requires forall i :: 0 <= i < |texts| ==> AllScalar(texts[i])
    requires |Encode(Joined(texts))| <= 65536
    ensures Gather(Encodings(texts)) == Capture(Joined(texts), false)
  {
    hide Decode, Encode, Gather;
    var chunks := Encodings(texts);
    forall i | 0 <= i < |chunks| ensures WellFormed(chunks[i]) {
      EncodedDecodesToItself(texts[i]);
    }
    JoinedIsEncoded(texts);
    JoinedIsScalar(texts);
    WellFormedCaptureIsPrefix(chunks);
    EncodedDecodesToItself(Joined(texts));
  }
}
