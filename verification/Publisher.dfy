/**
 The publisher of one reply: the buzz CLI as a source of events, and the handlers that settle the
 outcome once. The handlers update an object in place, as the source's closures do.
 */
module Publisher {
  import opened Wrappers
  import opened BuzzContext
  import opened Utf8

  const OUTPUT_LIMIT: nat := 65536

  // ------------------------------------------------------------ the CLI's answer

  /** A parsed JSON value, as far as parsePublicationResponse looks at it. */
  datatype Json =
    | JsonBool(value: bool)
    | JsonString(text: string)
    | JsonObject(members: map<string, Json>)
    | OtherJson(source: string)

  datatype Response = Accepted(eventId: string) | Refused

  /** publisher.ts:128-143, after JSON.parse; none stands for text that is no JSON. */
  function ParseResponse(value: Option<Json>): Option<Response> {
    if value.None? || !value.value.JsonObject? then None
    else
      var members := value.value.members;
      if "accepted" !in members then None
      else if members["accepted"] == JsonBool(false) then Some(Refused)
      else if members["accepted"] != JsonBool(true) then None
      else if "event_id" !in members || !members["event_id"].JsonString? then None
      else if IsEventId(members["event_id"].text) then Some(Accepted(members["event_id"].text))
      else None
  }

  predicate HasMember(v: Option<Json>, name: string, value: Json) {
    v.Some? && v.value.JsonObject? && name in v.value.members && v.value.members[name] == value
  }

  /** An accepting answer, said member by member. */
  predicate Accepts(v: Option<Json>, id: string) {
    HasMember(v, "accepted", JsonBool(true)) && HasMember(v, "event_id", JsonString(id)) && IsEventId(id)
  }

  lemma ResponseMeans(v: Option<Json>)
    ensures forall id: string :: ParseResponse(v) == Some(Accepted(id)) <==> Accepts(v, id)
    ensures ParseResponse(v) == Some(Refused) <==> HasMember(v, "accepted", JsonBool(false))
  {
  }

  // ------------------------------------------------------------ events and state

  datatype Event =
    | Spawned
    | Stdout(chunk: seq<Byte>)
    | Stderr(chunk: seq<Byte>)
    | Errored(message: string)
    | Closed
    | TimedOut

  datatype Outcome = Delivered(eventId: string) | NotDelivered | Unknown

  /** The output kept so far; once a chunk does not fit, the flag stays set. */
  datatype Capture = Capture(text: seq<CodePoint>, overflow: bool)

  /** The part of a chunk that fits into the room left after `text`. */
  function Fitting(text: seq<CodePoint>, chunk: seq<Byte>): seq<Byte> {
    var room := OUTPUT_LIMIT - ByteLength(text);
    if room <= 0 then [] else if room < |chunk| then chunk[..room] else chunk
  }

  /** Lines 87-91: a chunk is cut to the room that is left before it is decoded. */
  function Append(c: Capture, chunk: seq<Byte>): Capture {
    Capture(c.text + Decode(Fitting(c.text, chunk)), c.overflow || |chunk| > OUTPUT_LIMIT - ByteLength(c.text))
  }

  function Gather(chunks: seq<seq<Byte>>): Capture {
    if chunks == [] then Capture([], false) else Append(Gather(chunks[..|chunks| - 1]), chunks[|chunks| - 1])
  }

  /** `parse` stands for JSON.parse of the trimmed text. */
  datatype State = State(spawned: bool, stdout: Capture, stderr: seq<CodePoint>, outcome: Option<Outcome>)

  type Parser = seq<CodePoint> -> Option<Json>

  function Settle(s: State, o: Outcome): State { if s.outcome.Some? then s else s.(outcome := Some(o)) }

  /** Lines 104-120. */
  function ClosedOutcome(parse: Parser, c: Capture): Outcome {
    var response := if c.overflow then None else ParseResponse(parse(c.text));
    if response.None? then Unknown
    else if response.value.Accepted? then Delivered(response.value.eventId)
    else NotDelivered
  }

  function Handle(parse: Parser, s: State, e: Event): State {
    match e
    case Spawned => s.(spawned := true)
    case Stdout(chunk) => s.(stdout := Append(s.stdout, chunk))
    case Stderr(chunk) => s.(stderr := s.stderr + Decode(Fitting(s.stderr, chunk)))
    case Errored(_) => Settle(s, if s.spawned then Unknown else NotDelivered)
    case Closed => Settle(s, ClosedOutcome(parse, s.stdout))
    case TimedOut => Settle(s, Unknown)
  }

  const FRESH := State(false, Capture([], false), [], None)

  function Run(parse: Parser, es: seq<Event>): State {
    if es == [] then FRESH else Handle(parse, Run(parse, es[..|es| - 1]), es[|es| - 1])
  }

  // ------------------------------------------------------------ the object

  /** publishBuzzReply between spawning the CLI and resolving its promise. */
  class PublicationRun {
    const parse: Parser
    var spawned: bool
    var stdout: seq<CodePoint>
    var stderr: seq<CodePoint>
    var stdoutOverflow: bool
    var settled: bool
    var outcome: Option<Outcome>

    ghost predicate Valid()
      reads this
    {
      settled == outcome.Some?
    }

    ghost function Abs(): State
      reads this
    {
      State(spawned, Capture(stdout, stdoutOverflow), stderr, outcome)
    }

    constructor (parse: Parser)
      ensures Valid() && Abs() == FRESH && this.parse == parse
    {
      this.parse := parse;
      spawned, stdout, stderr, stdoutOverflow, settled, outcome := false, [], [], false, false, None;
    }

    /** Lines 70-75: only the first outcome counts. */
    method Finish(o: Outcome)
      requires Valid()
      modifies this`settled, this`outcome
      ensures Valid() && Abs() == Settle(old(Abs()), o)
    {
      if settled {
        return;
      }
      settled := true;
      outcome := Some(o);
    }

    method OnStdout(chunk: seq<Byte>)
      requires Valid()
      modifies this`stdout, this`stdoutOverflow
      ensures Valid() && Abs() == Handle(parse, old(Abs()), Stdout(chunk))
    {
      var remaining := OUTPUT_LIMIT - ByteLength(stdout);
      if |chunk| > remaining {
        stdoutOverflow := true;
      }
      if remaining > 0 {
        stdout := stdout + Decode(if remaining < |chunk| then chunk[..remaining] else chunk);
      } else {
        assert stdout + Decode([]) == stdout;
      }
    }

    method OnStderr(chunk: seq<Byte>)
      requires Valid()
      modifies this`stderr
      ensures Valid() && Abs() == Handle(parse, old(Abs()), Stderr(chunk))
    {
      var remaining := OUTPUT_LIMIT - ByteLength(stderr);
      if remaining > 0 {
        stderr := stderr + Decode(if remaining < |chunk| then chunk[..remaining] else chunk);
      } else {
        assert stderr + Decode([]) == stderr;
      }
    }

    method OnEvent(e: Event)
      requires Valid()
      modifies this
      ensures Valid() && Abs() == Handle(parse, old(Abs()), e)
    {
      match e
      case Spawned => spawned := true;
      case Stdout(chunk) => OnStdout(chunk);
      case Stderr(chunk) => OnStderr(chunk);
      case Errored(_) => Finish(if spawned then Unknown else NotDelivered);
      case TimedOut => Finish(Unknown);
      case Closed =>
        var response := if stdoutOverflow then None else ParseResponse(parse(stdout));
        if response.Some? && response.value.Accepted? {
          Finish(Delivered(response.value.eventId));
          return;
        }
        if response.Some? && response.value.Refused? {
          Finish(NotDelivered);
          return;
        }
        Finish(Unknown);
    }
  }

  // ------------------------------------------------------------ settling, for every order of events

  predicate Settles(e: Event) { e.Errored? || e.Closed? || e.TimedOut? }

  predicate FirstSettles(es: seq<Event>, i: nat) {
    i < |es| && Settles(es[i]) && forall j :: 0 <= j < i ==> !Settles(es[j])
  }

  function StdoutOf(es: seq<Event>): seq<seq<Byte>> {
    if es == [] then []
    else StdoutOf(es[..|es| - 1]) + (if es[|es| - 1].Stdout? then [es[|es| - 1].chunk] else [])
  }

  lemma GatherSnoc(chunks: seq<seq<Byte>>, chunk: seq<Byte>)
    ensures Gather(chunks + [chunk]) == Append(Gather(chunks), chunk)
  {
    assert (chunks + [chunk])[..|chunks|] == chunks;
  }

  /** What an event that settles nothing does. */
  lemma Unsettling(parse: Parser, s: State, e: Event)
    requires !Settles(e)
    ensures var t := Handle(parse, s, e);
            && t.outcome == s.outcome
            && (t.spawned <==> s.spawned || e == Spawned)
            && t.stdout == if e.Stdout? then Append(s.stdout, e.chunk) else s.stdout
  {
    hide Append, ClosedOutcome;
  }

  lemma StdoutSnoc(es: seq<Event>, e: Event)
    ensures Gather(StdoutOf(es + [e]))
         == if e.Stdout? then Append(Gather(StdoutOf(es)), e.chunk) else Gather(StdoutOf(es))
  {
    hide Append;
    assert (es + [e])[..|es|] == es;
    if e.Stdout? {
      GatherSnoc(StdoutOf(es), e.chunk);
    } else {
      assert StdoutOf(es) + [] == StdoutOf(es);
    }
  }

  lemma {:induction false} BeforeSettling(parse: Parser, es: seq<Event>)
    requires forall j :: 0 <= j < |es| ==> !Settles(es[j])
    ensures var s := Run(parse, es);
            && s.outcome.None?
            && (s.spawned <==> Spawned in es)
            && s.stdout == Gather(StdoutOf(es))
  {
    hide Handle, Append, Gather, StdoutOf, Settles;
    if es == [] {
      NothingArrived();
    } else {
      var n := |es| - 1;
      BeforeSettling(parse, es[..n]);
      assert es == es[..n] + [es[n]];
      Unsettling(parse, Run(parse, es[..n]), es[n]);
      StdoutSnoc(es[..n], es[n]);
    }
  }

  lemma NothingArrived()
    ensures Gather(StdoutOf([])) == Capture([], false)
  {
  }

  lemma {:induction false} OutcomeNeverChanges(parse: Parser, es: seq<Event>, later: seq<Event>)
    requires Run(parse, es).outcome.Some?
    ensures Run(parse, es + later).outcome == Run(parse, es).outcome
    decreases |later|
  {
    if later == [] {
      assert es + later == es;
    } else {
      var n := |later| - 1;
      assert (es + later)[..|es + later| - 1] == es + later[..n];
      OutcomeNeverChanges(parse, es, later[..n]);
    }
  }

  /** The outcome a settling event at index i gives, read off the events before it. */
  function OutcomeAt(parse: Parser, es: seq<Event>, i: nat): Outcome
    requires i < |es|
  {
    match es[i]
    case Errored(_) => if Spawned in es[..i] then Unknown else NotDelivered
    case Closed => ClosedOutcome(parse, Gather(StdoutOf(es[..i])))
    case _ => Unknown
  }

  /** The first error, close or timeout alone decides, and what comes later changes nothing. */
  lemma SettledByTheFirst(parse: Parser, es: seq<Event>, i: nat)
    requires FirstSettles(es, i)
    ensures Run(parse, es).outcome == Some(OutcomeAt(parse, es, i))
  {
    hide ClosedOutcome, Append, StdoutOf;
    assert es == es[..i] + [es[i]] + es[i + 1..];
    BeforeSettling(parse, es[..i]);
    assert (es[..i] + [es[i]])[..i] == es[..i];
    OutcomeNeverChanges(parse, es[..i] + [es[i]], es[i + 1..]);
  }

  /**
   A run is settled exactly when an error, a close or the timeout has happened, so the timer settles it
   at the latest.
   */
  lemma SettledIff(parse: Parser, es: seq<Event>)
    ensures Run(parse, es).outcome.Some? <==> exists i :: 0 <= i < |es| && Settles(es[i])
    ensures TimedOut in es ==> Run(parse, es).outcome.Some?
  {
    if exists i :: 0 <= i < |es| && Settles(es[i]) {
      var i :| 0 <= i < |es| && Settles(es[i]);
      var first := FirstSettling(es, i);
      SettledByTheFirst(parse, es, first);
    } else {
      BeforeSettling(parse, es);
    }
  }

  lemma {:induction false} FirstSettling(es: seq<Event>, i: nat) returns (first: nat)
    requires i < |es| && Settles(es[i])
    ensures FirstSettles(es, first)
  {
    if j :| 0 <= j < i && Settles(es[j]) {
      first := FirstSettling(es, j);
    } else {
      first := i;
    }
  }

  /**
   What an outcome claims, whatever the order of events. Delivered: the CLI closed first, its output
   was not cut, and it is an object that accepts with that 64-digit id. Not delivered: it closed first
   with an uncut refusal, or it failed before it ever started. In every other case: unknown.
   */
  lemma OutcomeIsSound(parse: Parser, es: seq<Event>, i: nat)
    requires FirstSettles(es, i)
    ensures var output := Gather(StdoutOf(es[..i]));
            var v, o := parse(output.text), Run(parse, es).outcome;
            var answered := es[i].Closed? && !output.overflow;
            var refused := (answered && HasMember(v, "accepted", JsonBool(false)))
                || (es[i].Errored? && Spawned !in es[..i]);
            && o.Some?
            && (forall id: string :: o == Some(Delivered(id)) <==> answered && Accepts(v, id))
            && (o == Some(NotDelivered) <==> refused)
            && (o == Some(Unknown) <==> !refused && forall id: string :: !(answered && Accepts(v, id)))
  {
    hide Gather, StdoutOf, ParseResponse, HasMember, Accepts;
    var output := Gather(StdoutOf(es[..i]));
    SettledByTheFirst(parse, es, i);
    ResponseMeans(parse(output.text));
    if Run(parse, es).outcome == Some(Unknown) && es[i].Closed? && !output.overflow {
      assert ParseResponse(parse(output.text)).None?;
    }
  }

  // ------------------------------------------------------------ the capped buffer

  function Concat(chunks: seq<seq<Byte>>): seq<Byte> {
    if chunks == [] then [] else Concat(chunks[..|chunks| - 1]) + chunks[|chunks| - 1]
  }

  /** Whatever arrives and however it is cut, the kept text stays within three times the limit. */
  lemma {:induction false} KeptTextIsBounded(chunks: seq<seq<Byte>>)
    ensures ByteLength(Gather(chunks).text) <= 3 * 65536
  {
    if chunks != [] {
      var c, chunk := Gather(chunks[..|chunks| - 1]), chunks[|chunks| - 1];
      KeptTextIsBounded(chunks[..|chunks| - 1]);
      var kept := Fitting(c.text, chunk);
      ByteLengthConcat(c.text, Decode(kept));
      DecodeExpandsAtMostThreefold(kept);
    }
  }

  /** The first 65536 bytes. */
  function Prefix(bytes: seq<Byte>): seq<Byte> { if |bytes| <= 65536 then bytes else bytes[..65536] }

  /** The part of each chunk that is kept. */
  function Pieces(chunks: seq<seq<Byte>>): (r: seq<seq<Byte>>)
    ensures |r| == |chunks|
  {
    if chunks == [] then []
    else
      var before := chunks[..|chunks| - 1];
      Pieces(before) + [Fitting(Gather(before).text, chunks[|chunks| - 1])]
  }

  function DecodeEach(pieces: seq<seq<Byte>>): seq<CodePoint> {
    if pieces == [] then [] else DecodeEach(pieces[..|pieces| - 1]) + Decode(pieces[|pieces| - 1])
  }

  lemma {:induction false} TextOfPieces(chunks: seq<seq<Byte>>)
    ensures Gather(chunks).text == DecodeEach(Pieces(chunks))
  {
    if chunks != [] {
      TextOfPieces(chunks[..|chunks| - 1]);
      assert Pieces(chunks)[..|chunks| - 1] == Pieces(chunks[..|chunks| - 1]);
    }
  }

  /** Every piece ends at a boundary of the whole. */
  predicate Aligned(pieces: seq<seq<Byte>>) {
    forall i :: 0 <= i <= |pieces| ==> Boundary(Concat(pieces), |Concat(pieces[..i])|)
  }

  lemma AlignedSnoc(pieces: seq<seq<Byte>>)
    requires pieces != []
    ensures var before := pieces[..|pieces| - 1];
            Aligned(pieces) <==> Boundary(Concat(pieces), |Concat(before)|) && Aligned(before)
  {
    hide Boundary;
    var n := |pieces| - 1;
    var before, last := pieces[..n], pieces[n];
    var a := Concat(before);
    assert pieces[..n + 1] == pieces;
    BoundaryAtEnd(a + last);
    if Boundary(a + last, |a|) {
      forall i | 0 <= i <= n ensures Boundary(a + last, |Concat(pieces[..i])|) <==> Boundary(a, |Concat(before[..i])|) {
        assert before[..i] == pieces[..i];
        ConcatGrows(before, i);
        BoundaryStays(a, last, |Concat(before[..i])|);
      }
    } else {
      assert !Boundary(Concat(pieces), |Concat(pieces[..n])|);
    }
  }

  lemma {:induction false} ConcatGrows(pieces: seq<seq<Byte>>, i: nat)
    requires i <= |pieces|
    ensures |Concat(pieces[..i])| <= |Concat(pieces)|
  {
    if i == |pieces| {
      assert pieces[..i] == pieces;
    } else {
      ConcatGrows(pieces[..|pieces| - 1], i);
      assert pieces[..|pieces| - 1][..i] == pieces[..i];
    }
  }

  /**
   Decoding piece by piece is decoding the whole exactly if the pieces are aligned; otherwise it gives
   more code points.
   */
  lemma {:induction false} DecodeEachIff(pieces: seq<seq<Byte>>)
    ensures |DecodeEach(pieces)| >= |Decode(Concat(pieces))|
    ensures |DecodeEach(pieces)| == |Decode(Concat(pieces))| <==> Aligned(pieces)
    ensures Aligned(pieces) ==> DecodeEach(pieces) == Decode(Concat(pieces))
  {
    hide Decode, Aligned;
    if pieces == [] {
      NothingIsAligned();
    } else {
      var n := |pieces| - 1;
      DecodeEachIff(pieces[..n]);
      DecodeInTwo(Concat(pieces[..n]), pieces[n]);
      AlignedSnoc(pieces);
    }
  }

  lemma NothingIsAligned()
    ensures Aligned([]) && Decode(Concat([])) == DecodeEach([])
  {
  }

  /**
   What the cap keeps is a prefix of the output: everything, or, with the flag set, never less text than
   the limit. The flag means that something was lost, if no chunk is empty: bad bytes can blow the text up
   beyond the limit, and then an empty chunk sets the flag too.
   */
  lemma {:induction false} KeptIsPrefix(chunks: seq<seq<Byte>>)
    ensures Concat(Pieces(chunks)) <= Concat(chunks)
    ensures |Concat(Pieces(chunks))| < |Concat(chunks)| ==> Gather(chunks).overflow
    ensures Gather(chunks).overflow && [] !in chunks ==> |Concat(Pieces(chunks))| < |Concat(chunks)|
    ensures if Gather(chunks).overflow then ByteLength(Gather(chunks).text) >= 65536
        else Pieces(chunks) == chunks
    ensures |Concat(chunks)| > 65536 ==> Gather(chunks).overflow
    ensures ByteLength(Gather(chunks).text) >= |Concat(Pieces(chunks))|
  {
    hide Decode, ByteLength;
    if chunks == [] {
      NothingCaptured();
    } else {
      var n := |chunks| - 1;
      KeptIsPrefix(chunks[..n]);
      var c, chunk := Gather(chunks[..n]), chunks[n];
      var kept := Fitting(c.text, chunk);
      assert Pieces(chunks)[..n] == Pieces(chunks[..n]);
      assert kept <= chunk;
      ByteLengthConcat(c.text, Decode(kept));
      DecodeNeverShrinks(kept);
      assert c.overflow ==> kept == [];
      assert chunks == chunks[..n] + [chunk];
    }
  }

  /**
   Exactly when the text kept is the decoding of the bytes kept, whatever was cut: if every kept part ends
   between two sequences. Uncut output is decoded as a whole exactly if no chunk ends inside a sequence.
   */
  lemma CaptureIsDecodingIff(chunks: seq<seq<Byte>>)
    ensures Gather(chunks).text == Decode(Concat(Pieces(chunks))) <==> Aligned(Pieces(chunks))
    ensures !Gather(chunks).overflow ==> (Gather(chunks).text == Decode(Concat(chunks)) <==> Aligned(chunks))
  {
    hide Decode, Aligned, Pieces, Gather;
    TextOfPieces(chunks);
    DecodeEachIff(Pieces(chunks));
    KeptIsPrefix(chunks);
  }

  /**
   For chunks of well-formed UTF-8 the buffer is the simple one: concatenate everything, keep and decode the
   first 65536 bytes; the overflow flag is set exactly when more than that arrived.
   */
  lemma {:induction false} WellFormedCaptureIsPrefix(chunks: seq<seq<Byte>>)
    requires forall i :: 0 <= i < |chunks| ==> WellFormed(chunks[i])
    ensures var all := Concat(chunks);
            && Gather(chunks).text == Decode(Prefix(all))
            && (Gather(chunks).overflow <==> |all| > 65536)
            && (!Gather(chunks).overflow ==> ByteLength(Gather(chunks).text) == |all|)
  {
    hide Decode, ByteLength, WellFormed, Pieces;
    if chunks == [] {
      NothingCaptured();
      NothingIsAligned();
    } else {
      var n := |chunks| - 1;
      var before, chunk := Concat(chunks[..n]), chunks[n];
      WellFormedCaptureIsPrefix(chunks[..n]);
      KeptIsPrefix(chunks[..n]);
      AppendWellFormed(Gather(chunks[..n]), chunks[..n], chunk);
    }
  }

  lemma AppendWellFormed(c: Capture, earlier: seq<seq<Byte>>, chunk: seq<Byte>)
    requires (forall i :: 0 <= i < |earlier| ==> WellFormed(earlier[i])) && WellFormed(chunk)
    requires var before := Concat(earlier);
             && c.text == Decode(Prefix(before)) && (c.overflow <==> |before| > OUTPUT_LIMIT)
             && (if c.overflow then ByteLength(c.text) >= OUTPUT_LIMIT else ByteLength(c.text) == |before|)
    ensures var all := Concat(earlier) + chunk;
            && Append(c, chunk).text == Decode(Prefix(all))
            && (Append(c, chunk).overflow <==> |all| > 65536)
            && (!Append(c, chunk).overflow ==> ByteLength(Append(c, chunk).text) == |all|)
  {
    hide Decode, ByteLength, WellFormed;
    var before := Concat(earlier);
    var all := before + chunk;
    if c.overflow {
      assert Prefix(all) == Prefix(before) && Fitting(c.text, chunk) == [];
      assert Decode([]) == [] by { NothingIsAligned(); }
    } else {
      var kept := Fitting(c.text, chunk);
      assert Prefix(all) == before + kept;
      ConcatWellFormed(earlier);
      WellFormedKeepsLength(before, kept);
      DecodeInTwo(before, kept);
      ByteLengthConcat(c.text, Decode(kept));
      if kept == chunk { WellFormedKeepsLength(chunk, []); }
    }
  }

  lemma {:induction false} ConcatWellFormed(pieces: seq<seq<Byte>>)
    requires forall i :: 0 <= i < |pieces| ==> WellFormed(pieces[i])
    ensures WellFormed(Concat(pieces))
  {
    if pieces != [] {
      var n := |pieces| - 1;
      ConcatWellFormed(pieces[..n]);
      WellFormedConcat(Concat(pieces[..n]), pieces[n]);
    }
  }

  lemma {:induction false} WellFormedConcat(a: seq<Byte>, b: seq<Byte>)
    requires WellFormed(a) && WellFormed(b)
    ensures WellFormed(a + b)
    decreases |a|
  {
    if a == [] {
      assert a + b == b;
    } else {
      CompleteStays(a, b);
      SpanStays(a, b);
      WellFormedConcat(a[Span(a)..], b);
    }
  }

  lemma NothingCaptured()
    ensures Decode([]) == [] && ByteLength([]) == 0
  {
  }

  // ------------------------------------------------------------ both buffers, for every order of events

  function StderrOf(es: seq<Event>): seq<seq<Byte>> {
    if es == [] then []
    else StderrOf(es[..|es| - 1]) + (if es[|es| - 1].Stderr? then [es[|es| - 1].chunk] else [])
  }

  lemma StderrSnoc(es: seq<Event>, e: Event)
    ensures Gather(StderrOf(es + [e]))
         == if e.Stderr? then Append(Gather(StderrOf(es)), e.chunk) else Gather(StderrOf(es))
  {
    hide Append;
    assert (es + [e])[..|es|] == es;
    if e.Stderr? {
      GatherSnoc(StderrOf(es), e.chunk);
    } else {
      assert StderrOf(es) + [] == StderrOf(es);
    }
  }

  lemma HandleKeepsBuffers(parse: Parser, s: State, e: Event)
    ensures var t := Handle(parse, s, e);
            && t.stdout == (if e.Stdout? then Append(s.stdout, e.chunk) else s.stdout)
            && t.stderr == if e.Stderr? then s.stderr + Decode(Fitting(s.stderr, e.chunk)) else s.stderr
  {
    hide Append, ClosedOutcome, Decode, Fitting;
  }

  /** Both streams are captured in the same way, before and after an outcome, whatever comes in between. */
  lemma {:induction false} BuffersAreCaptures(parse: Parser, es: seq<Event>)
    ensures Run(parse, es).stdout == Gather(StdoutOf(es)) && Run(parse, es).stderr == Gather(StderrOf(es)).text
  {
    hide Handle, Gather, StdoutOf, StderrOf, Decode, Fitting;
    if es == [] {
      NothingArrived();
      NothingOnStderr();
    } else {
      var n := |es| - 1;
      BuffersAreCaptures(parse, es[..n]);
      assert es == es[..n] + [es[n]];
      HandleKeepsBuffers(parse, Run(parse, es[..n]), es[n]);
      StdoutSnoc(es[..n], es[n]);
      StderrSnoc(es[..n], es[n]);
    }
  }

  lemma NothingOnStderr()
    ensures Gather(StderrOf([])).text == []
  {
  }

  /** For ASCII output, chunked in any way, the kept text is the first 65536 bytes themselves. */
  lemma AsciiCaptureIsPrefix(chunks: seq<seq<Byte>>)
    requires Ascii(Concat(chunks))
    ensures var all := Concat(chunks);
            && Ascii(Prefix(all)) && Gather(chunks).text == AsCodePoints(Prefix(all))
            && ByteLength(Gather(chunks).text) == |Prefix(all)|
            && (Gather(chunks).overflow <==> |all| > 65536)
  {
    hide Decode, Gather, AsCodePoints;
    forall i | 0 <= i < |chunks| ensures WellFormed(chunks[i]) {
      AsciiInside(chunks, i);
      AsciiIsWellFormed(chunks[i]);
    }
    WellFormedCaptureIsPrefix(chunks);
    AsciiDecodesToItself(Prefix(Concat(chunks)));
  }

  lemma {:induction false} AsciiInside(chunks: seq<seq<Byte>>, i: nat)
    requires i < |chunks| && Ascii(Concat(chunks))
    ensures Ascii(chunks[i])
  {
    var n := |chunks| - 1;
    var before := Concat(chunks[..n]);
    if i < n {
      assert Ascii(before) by {
        assert forall j :: 0 <= j < |before| ==> Concat(chunks)[j] == before[j];
      }
      AsciiInside(chunks[..n], i);
    } else {
      assert forall j :: 0 <= j < |chunks[n]| ==> Concat(chunks)[|before| + j] == chunks[n][j];
    }
  }

  /** For other output the cutting does matter: a two-byte character cut between chunks is lost. */
  lemma CuttingMattersBeyondAscii()
    ensures Concat([[0xC3, 0xA9]]) == Concat([[0xC3], [0xA9]])
    ensures Gather([[0xC3, 0xA9]]).text == [0xE9] && Gather([[0xC3], [0xA9]]).text == [REPLACEMENT, REPLACEMENT]
  {
    var whole: seq<Byte>, head: seq<Byte>, tail: seq<Byte> := [0xC3, 0xA9], [0xC3], [0xA9];
    var none: seq<seq<Byte>> := [];
    assert [whole][..0] == none && [head][..0] == none && [head, tail][..1] == [head];
    assert Decode(whole) == [0xE9] by { assert whole[2..] == []; }
    assert Decode(head) == [REPLACEMENT] by { assert head[1..] == []; }
    assert Decode(tail) == [REPLACEMENT] by { assert tail[1..] == []; }
    GatherSnoc([], whole);
    assert [] + [whole] == [whole] && [] + [head] == [head] && [head] + [tail] == [head, tail];
    GatherSnoc([], head);
    assert Gather([head]).text == [REPLACEMENT];
    assert ByteLength([REPLACEMENT]) == 3 by { assert [REPLACEMENT][1..] == []; }
    GatherSnoc([head], tail);
    assert Fitting([REPLACEMENT], tail) == tail;
  }
}
