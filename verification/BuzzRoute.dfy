/**
 Which prompts have a route, and which one, said by the shapes of their lines alone: one block with a context
 title, a line in it that carries a channel, and one block that carries an event.
 */
module BuzzRoute {
  import opened Wrappers
  import opened Text
  import opened Sequences
  import opened BuzzContext
  import opened BuzzBatch
  import opened BuzzPrompt

  // ------------------------------------------------------------ shapes

  /** "[Context]" and nothing but white space. */
  predicate ContextTitle(line: string) {
    |line| >= 9 && line[..9] == "[Context]" && forall i :: 9 <= i < |line| ==> IsSpace(line[i])
  }

  predicate ContextShape(b: Block) { b.TextBlock? && ContextTitle(b.lines[0]) }

  /** Line m of the lines from j on, without the first n characters of line j. */
  function Cut(lines: seq<Line>, j: nat, n: nat, m: nat): string
    requires j <= m < |lines| && n <= |lines[j]|
  {
    if m == j then lines[j][n..] else lines[m]
  }

  /** Between the first n characters of line j and line m there is only white space. */
  predicate BlankUpTo(lines: seq<Line>, j: nat, n: nat, m: nat) {
    j <= m < |lines| && n <= |lines[j]| && forall i :: j <= i < m ==> Blank(Cut(lines, j, n, i))
  }

  /** From line j on: "Event ID:", white space, 64 hexadecimal digits that end line m, and then a "Channel:" line. */
  ghost predicate IdOn(lines: seq<Line>, j: nat, m: nat, id: string) {
    && BlankUpTo(lines, j, 9, m) && StartsWith(lines[j], "Event ID:")
    && (exists before: string :: Blank(before) && Cut(lines, j, 9, m) == before + id)
    && |id| == 64 && IsHex(id)
    && m + 1 < |lines| && StartsWith(lines[m + 1], "Channel:")
  }

  ghost predicate IdAt(lines: seq<Line>, j: nat, id: string) { exists m: nat :: IdOn(lines, j, m, id) }

  /** "--- Event <digits> (<about>) ---", the mark in any case. */
  predicate HeaderWith(line: string, mark: string, digits: string, about: string) {
    SameIgnoringCase(mark, "--- Event ") && IsDigits(digits) && line == mark + digits + " (" + about + ") ---"
  }

  ghost predicate ShowsHeader(line: string, digits: string) {
    exists mark: string, about: string :: HeaderWith(line, mark, digits, about)
  }

  /** "[Buzz event:<about>]" and the event's id. */
  ghost predicate SingleShape(lines: Lines, id: string) {
    && (exists mark: string, about: string ::
          SameIgnoringCase(mark, "[Buzz event:") && lines[0] == mark + about + "]")
    && IdAt(lines, 1, id)
  }

  /** One of the two titles of an interruption, an empty line, the header of event 1, and the event's id. */
  ghost predicate InterruptionShape(lines: Lines, id: string) {
    && (SameIgnoringCase(lines[0], NEW_MESSAGE) || SameIgnoringCase(lines[0], NEW_REQUEST))
    && |lines| >= 3 && lines[1] == "" && ShowsHeader(lines[2], "1") && IdAt(lines, 3, id)
  }

  /** White space, digits and " events]", whatever follows. */
  predicate CountText(text: string, before: string, digits: string) {
    && |before| + |digits| <= |text| && text[..|before| + |digits|] == before + digits && Blank(before)
    && IsDigits(digits) && StartsWith(text[|before| + |digits|..], " events]")
  }

  /** The digits are a decimal numeral of n, leading zeros or not. */
  predicate Spells(digits: string, n: nat) { IsDigits(digits) && ParseNat(digits) == n }

  ghost predicate ShowsCount(text: string, n: nat) {
    exists before: string, digits: string :: CountText(text, before, digits) && Spells(digits, n)
  }

  /** A batch's title: one of the three prefixes, white space, and the number of events, two or more. */
  ghost predicate CountOn(lines: Lines, kind: BatchKind, m: nat, n: nat) {
    && StartsWith(lines[0], BatchPrefix(kind)) && BlankUpTo(lines, 0, |BatchPrefix(kind)|, m)
    && ShowsCount(Cut(lines, 0, |BatchPrefix(kind)|, m), n) && 1 < n <= 9007199254740991
  }

  ghost predicate TitleShape(lines: Lines, n: nat) { exists kind: BatchKind, m: nat :: CountOn(lines, kind, m, n) }

  /** A complete event header stands at line i. */
  ghost predicate HeaderStands(lines: seq<Line>, i: nat, digits: string, id: string) {
    i < |lines| && ShowsHeader(lines[i], digits) && IdAt(lines, i + 1, id)
  }

  ghost predicate CarriesId(lines: seq<Line>, i: nat, id: string) {
    exists digits: string :: HeaderStands(lines, i, digits, id)
  }

  ghost predicate StandsNumbered(lines: seq<Line>, i: nat, n: nat) {
    exists digits: string, id: string :: HeaderStands(lines, i, digits, id) && Spells(digits, n)
  }

  /** The lines `at`, in order, are those at which a complete header stands, and they are numbered from one. */
  ghost predicate Numbered(lines: seq<Line>, at: seq<nat>) {
    && (forall j, k :: 0 <= j < k < |at| ==> at[j] < at[k])
    && (forall j :: 0 <= j < |at| ==> StandsNumbered(lines, at[j], j + 1))
    && (forall i: nat, digits: string, id: string :: HeaderStands(lines, i, digits, id) ==> i in at)
  }

  ghost predicate BatchOn(lines: Lines, at: seq<nat>, id: string) {
    && TitleShape(lines, |at|) && Numbered(lines, at)
    && at != [] && CarriesId(lines, at[|at| - 1], id)
  }

  ghost predicate BatchShape(lines: Lines, id: string) { exists at: seq<nat> :: BatchOn(lines, at, id) }

  /** A block carries the event with this id. */
  ghost predicate EventShape(b: Block, id: string) {
    b.TextBlock? && (SingleShape(b.lines, id) || InterruptionShape(b.lines, id) || BatchShape(b.lines, id))
  }

  // ------------------------------------------------------------ the constants, written out

  /** The titles of an interruption, in one piece each. */
  lemma NewMessageIsWritten()
    ensures NEW_MESSAGE == "[New message \U{2014} arrived while you were working]"
  {
  }

  lemma NewRequestIsWritten()
    ensures NEW_REQUEST == "[New request \U{2014} supersedes previous]"
  {
  }

  lemma ArrivedIsWritten()
    ensures BatchPrefix(Arrived) == "[New messages \U{2014} arrived while you were working \U{2014}"
  {
  }

  lemma SupersedingIsWritten()
    ensures BatchPrefix(Superseding) == "[New request \U{2014} supersedes previous \U{2014}"
  {
  }

  predicate HexGroup(s: string, n: nat) { |s| == n && IsHex(s) }

  predicate ChannelGroups(s: string, a: string, b: string, c: string, d: string, e: string) {
    && HexGroup(a, 8) && HexGroup(b, 4) && HexGroup(c, 4) && HexGroup(d, 4) && HexGroup(e, 12)
    && s == a + "-" + b + "-" + c + "-" + d + "-" + e
  }

  /** A channel id is five groups of 8, 4, 4, 4 and 12 hexadecimal digits, joined by dashes. */
  lemma ChannelIdMeans(s: string)
    ensures IsChannelId(s) <==> exists a: string, b: string, c: string, d: string, e: string ::
          ChannelGroups(s, a, b, c, d, e)
  {
    if IsChannelId(s) {
      var a, b, c, d, e := s[..8], s[9..13], s[14..18], s[19..23], s[24..];
      assert s == a + "-" + b + "-" + c + "-" + d + "-" + e;
      assert ChannelGroups(s, a, b, c, d, e);
    }
  }

  // ------------------------------------------------------------ titles and ids

  lemma ContextTitleMeans(b: Block)
    ensures IsContext(b) <==> ContextShape(b)
  {
    if b.TextBlock? {
      var line := b.lines[0];
      if "[Context]" <= line {
        assert forall i :: 9 <= i < |line| ==> line[i] == line[9..][i - 9];
      }
    }
  }

  lemma StartsWithMark(line: string, mark: string, rest: string, prefix: string)
    requires line == mark + rest && SameIgnoringCase(mark, prefix)
    ensures StartsWith(line, prefix) && line[|prefix|..] == rest && line[..|prefix|] == mark
  {
    assert line[..|prefix|] == mark;
  }

  /** The first line from j on that is not blank once the first n characters of line j are off. */
  lemma FirstFilled(lines: seq<Line>, j: nat, n: nat) returns (m: nat)
    requires j < |lines| && n <= |lines[j]|
    ensures j <= m <= |lines| && (m < |lines| ==> BlankUpTo(lines, j, n, m) && !Blank(Cut(lines, j, n, m)))
    ensures Blank(lines[j][n..]) ==> SkipBlank(lines[j + 1..]) == lines[m..] && m > j
    ensures !Blank(lines[j][n..]) ==> m == j
    ensures forall k: nat :: BlankUpTo(lines, j, n, k) && !Blank(Cut(lines, j, n, k)) ==> k == m
  {
    hide Blank;
    m := j;
    if Blank(lines[j][n..]) {
      var skipped := SkipBlankStops(lines[j + 1..]);
      m := j + 1 + skipped;
      forall i | j <= i < m ensures Blank(Cut(lines, j, n, i)) {
        assert i > j ==> lines[i] == lines[j + 1..][i - j - 1];
      }
      assert lines[j + 1..][skipped..] == lines[m..];
    }
    forall k: nat | BlankUpTo(lines, j, n, k) && !Blank(Cut(lines, j, n, k)) ensures k == m {
      assert m < k ==> Blank(Cut(lines, j, n, m));
    }
  }

  lemma HexIsFilled(before: string, id: string)
    requires Blank(before) && |id| == 64 && IsHex(id)
    ensures TrimLeft(before + id) == id && !Blank(before + id)
  {
    assert IsHexDigit(id[0]) && !IsSpace((before + id)[|before|]);
    TrimLeftBlankPrefix(before, id);
  }

  lemma IdOnFirstFilled(lines: seq<Line>, j: nat, k: nat, id: string)
    requires IdOn(lines, j, k, id)
    ensures !Blank(Cut(lines, j, 9, k)) && TrimLeft(Cut(lines, j, 9, k)) == id
  {
    hide Blank, TrimLeft, IsHex;
    var before: string :| Blank(before) && Cut(lines, j, 9, k) == before + id;
    HexIsFilled(before, id);
  }

  lemma FilledGivesId(text: string)
    requires IsEventId(TrimLeft(text))
    ensures exists before: string :: Blank(before) && text == before + TrimLeft(text)
  {
    TrimLeftTakesBlank(text);
    var before := text[..|text| - |TrimLeft(text)|];
    assert text == before + TrimLeft(text);
  }

  /** What EventId looks at once it has found the line that the id must stand on. */
  lemma EventIdOnLine(lines: seq<Line>, j: nat, m: nat)
    requires j < |lines| && StartsWith(lines[j], "Event ID:") && 9 <= |lines[j]| && j <= m <= |lines|
    requires Blank(lines[j][9..]) ==> SkipBlank(lines[j + 1..]) == lines[m..] && m > j
    requires !Blank(lines[j][9..]) ==> m == j
    ensures EventId(lines[j..])
        == if m + 1 < |lines| && StartsWith(lines[m + 1], "Channel:") && IsEventId(TrimLeft(Cut(lines, j, 9, m)))
           then Some(TrimLeft(Cut(lines, j, 9, m))) else None
  {
    hide Blank, StartsWith, TrimLeft, IsEventId, SkipBlank;
    assert lines[j..][1..] == lines[j + 1..];
  }

  lemma IdLabelFits(line: string)
    requires StartsWith(line, "Event ID:")
    ensures |line| >= 9
  {
  }

  /** The parser finds exactly the id that stands there. */
  lemma IdMeans(lines: seq<Line>, j: nat, id: string)
    ensures IdAt(lines, j, id) <==> j <= |lines| && EventId(lines[j..]) == Some(id)
  {
    hide Blank, StartsWith, TrimLeft, IsEventId, SkipBlank, EventId, IsHex;
    if j < |lines| && StartsWith(lines[j], "Event ID:") {
      IdLabelFits(lines[j]);
      var m := FirstFilled(lines, j, 9);
      EventIdOnLine(lines, j, m);
      if IdAt(lines, j, id) {
        var k: nat :| IdOn(lines, j, k, id);
        IdOnFirstFilled(lines, j, k, id);
        assert k == m;
        assert IsEventId(id) by { EventIdIs(id); }
      }
      if EventId(lines[j..]) == Some(id) {
        assert m < |lines|;
        EventIdIs(id);
        FilledGivesId(Cut(lines, j, 9, m));
        assert IdOn(lines, j, m, id);
      }
    } else if j <= |lines| {
      NoIdHere(lines[j..]);
      assert j < |lines| ==> lines[j..][0] == lines[j];
    }
  }

  lemma NoIdHere(lines: seq<Line>)
    requires lines == [] || !StartsWith(lines[0], "Event ID:")
    ensures EventId(lines).None?
  {
  }

  lemma EventIdIs(id: string)
    ensures IsEventId(id) <==> |id| == 64 && IsHex(id)
  {
  }

  // ------------------------------------------------------------ headers

  lemma {:induction false} DigitsReadFrom(digits: string, rest: string)
    requires forall i :: 0 <= i < |digits| ==> IsDigit(digits[i])
    requires rest != "" && !IsDigit(rest[0])
    ensures LeadingDigits(digits + rest) == digits
  {
    LeadingDigitsOf(digits, rest);
  }

  lemma TailShape(about: string)
    ensures var tail := " (" + about + ") ---";
            |tail| >= 7 && tail[0] == ' ' && tail[..2] == " (" && EndsWith(tail, ") ---")
  {
    var tail := " (" + about + ") ---";
    assert tail[..2] == " (";
    assert tail[|tail| - 5..] == ") ---";
  }

  lemma HeaderIsRead(line: string, mark: string, digits: string, about: string)
    requires HeaderWith(line, mark, digits, about)
    ensures HeaderDigits(line) == Some(digits)
  {
    hide SameIgnoringCase, StartsWith, EndsWith, LeadingDigits;
    var tail := " (" + about + ") ---";
    TailShape(about);
    assert line == mark + (digits + tail);
    MarkLength(mark);
    StartsWithMark(line, mark, digits + tail, "--- Event ");
    DigitsReadFrom(digits, tail);
    assert line[10 + |digits|..] == tail;
  }

  lemma MarkLength(mark: string)
    requires SameIgnoringCase(mark, "--- Event ")
    ensures |mark| == |"--- Event "| == 10
  {
  }

  lemma TailParts(rest: string)
    requires |rest| >= 7 && rest[..2] == " (" && EndsWith(rest, ") ---")
    ensures rest == " (" + rest[2..|rest| - 5] + ") ---"
  {
    assert rest == rest[..2] + rest[2..|rest| - 5] + rest[|rest| - 5..];
  }

  lemma ReadIsHeaderWith(line: string, digits: string) returns (mark: string, about: string)
    requires HeaderDigits(line) == Some(digits)
    ensures HeaderWith(line, mark, digits, about)
  {
    hide EndsWith, SameIgnoringCase;
    assert digits == LeadingDigits(line[10..]);
    var rest := line[10 + |digits|..];
    TailParts(rest);
    mark, about := line[..10], rest[2..|rest| - 5];
    assert line[10..] == digits + rest;
    assert line == mark + digits + (" (" + about + ") ---");
    assert mark + digits + " (" + about + ") ---" == mark + digits + (" (" + about + ") ---");
  }

  lemma HeaderMeans(line: string, digits: string)
    ensures ShowsHeader(line, digits) <==> HeaderDigits(line) == Some(digits)
  {
    hide HeaderDigits, HeaderWith;
    if ShowsHeader(line, digits) {
      var mark: string, about: string :| HeaderWith(line, mark, digits, about);
      HeaderIsRead(line, mark, digits, about);
    }
    if HeaderDigits(line) == Some(digits) { var mark, about := ReadIsHeaderWith(line, digits); }
  }

  /** The parser finds a complete header exactly where one stands. */
  lemma HeaderStandsMeans(lines: seq<Line>, i: nat, digits: string, id: string)
    ensures HeaderStands(lines, i, digits, id)
        <==> i < |lines| && HeaderDigits(lines[i]) == Some(digits) && EventId(lines[i + 1..]) == Some(id)
  {
    hide HeaderDigits, EventId, ShowsHeader, IdAt;
    if i < |lines| {
      HeaderMeans(lines[i], digits);
      IdMeans(lines, i + 1, id);
    }
  }

  // ------------------------------------------------------------ blocks with one event

  lemma SingleTitleMeans(line: string)
    ensures |line| >= 13 && StartsWith(line, "[Buzz event:") && EndsWith(line, "]")
        <==> exists mark: string, about: string ::
          SameIgnoringCase(mark, "[Buzz event:") && line == mark + about + "]"
  {
    if mark: string, about: string :| SameIgnoringCase(mark, "[Buzz event:") && line == mark + about + "]" {
      assert |mark| == |"[Buzz event:"| == 12;
      assert line == mark + (about + "]");
      StartsWithMark(line, mark, about + "]", "[Buzz event:");
      assert line[|line| - 1..] == "]";
    }
    if |line| >= 13 && StartsWith(line, "[Buzz event:") && EndsWith(line, "]") {
      assert line == line[..12] + line[12..|line| - 1] + "]";
    }
  }

  lemma SingleMeans(lines: Lines, id: string)
    ensures SingleShape(lines, id) <==> SingleEvent(lines) == Some(id)
  {
    hide StartsWith, EndsWith, SameIgnoringCase, EventId, IdAt;
    SingleTitleMeans(lines[0]);
    IdMeans(lines, 1, id);
  }

  lemma InterruptionMeans(lines: Lines, id: string)
    ensures InterruptionShape(lines, id) <==> NewSingleEvent(lines) == Some(id)
  {
    hide SameIgnoringCase, EventId, IdAt, HeaderDigits, ShowsHeader;
    if |lines| >= 3 {
      HeaderMeans(lines[2], "1");
      IdMeans(lines, 3, id);
    }
  }

  // ------------------------------------------------------------ batches

  lemma CountTextIsRead(text: string, before: string, digits: string)
    requires CountText(text, before, digits)
    ensures var t := TrimLeft(text);
            !Blank(text) && LeadingDigits(t) == digits && t[|digits|..] == text[|before| + |digits|..]
  {
    hide StartsWith;
    var tail := text[|before| + |digits|..];
    assert text == before + (digits + tail);
    EventsTail(tail);
    TrimLeftBlankPrefix(before, digits + tail);
    assert IsDigit((digits + tail)[0]) && !IsSpace((digits + tail)[0]);
    assert text[|before|] == digits[0];
    DigitsReadFrom(digits, tail);
    assert (digits + tail)[|digits|..] == tail;
  }

  lemma EventsTail(tail: string)
    requires StartsWith(tail, " events]")
    ensures tail != "" && !IsDigit(tail[0])
  {
    assert Lower(tail[..8][0]) == Lower(" events]"[0]);
  }

  lemma ReadIsCountText(text: string)
    requires var t := TrimLeft(text);
             LeadingDigits(t) != "" && StartsWith(t[|LeadingDigits(t)|..], " events]")
    ensures CountText(text, text[..|text| - |TrimLeft(text)|], LeadingDigits(TrimLeft(text)))
  {
    hide StartsWith, TrimLeft, LeadingDigits, Blank;
    TrimLeftTakesBlank(text);
    var t, before := TrimLeft(text), text[..|text| - |TrimLeft(text)|];
    var digits := LeadingDigits(t);
    assert text[|before|..] == t;
    TakeTwo(text, before, digits);
    assert text[|before| + |digits|..] == t[|digits|..];
  }

  lemma TakeTwo(text: string, a: string, b: string)
    requires a <= text && b <= text[|a|..]
    ensures |a| + |b| <= |text| && text[..|a| + |b|] == a + b
  {
  }

  lemma CountInMeans(text: string, n: nat)
    ensures ShowsCount(text, n) && 1 < n <= MAX_SAFE_INTEGER <==> CountIn(TrimLeft(text)) == Some(n)
    ensures ShowsCount(text, n) ==> !Blank(text)
  {
    hide StartsWith, CountText, LeadingDigits, TrimLeft, Blank;
    if ShowsCount(text, n) {
      var before: string, digits: string :| CountText(text, before, digits) && Spells(digits, n);
      CountTextIsRead(text, before, digits);
      CountTextHas(text, before, digits);
    }
    if CountIn(TrimLeft(text)) == Some(n) { ReadIsCountText(text); }
  }

  lemma CountTextHas(text: string, before: string, digits: string)
    requires CountText(text, before, digits)
    ensures digits != "" && StartsWith(text[|before| + |digits|..], " events]")
  {
  }

  lemma CountAfterOnLine(lines: Lines, prefix: string, m: nat)
    requires StartsWith(lines[0], prefix) && |prefix| <= |lines[0]| && m <= |lines|
    requires Blank(lines[0][|prefix|..]) ==> SkipBlank(lines[1..]) == lines[m..] && m > 0
    requires !Blank(lines[0][|prefix|..]) ==> m == 0
    ensures CountAfterPrefix(lines, prefix)
        == if m < |lines| then CountIn(TrimLeft(Cut(lines, 0, |prefix|, m))) else None
  {
    hide Blank, StartsWith, TrimLeft, CountIn, SkipBlank;
    TrimBlank(lines[0][|prefix|..]);
  }

  lemma PrefixFits(line: string, prefix: string)
    requires StartsWith(line, prefix)
    ensures |prefix| <= |line|
  {
  }

  lemma CountMeans(lines: Lines, kind: BatchKind, n: nat)
    ensures CountAfter(lines, kind) == Some(n) <==> exists m: nat :: CountOn(lines, kind, m, n)
  {
    hide Blank, StartsWith, TrimLeft, CountIn, SkipBlank, ShowsCount, BatchPrefix, CountAfterPrefix;
    var prefix := BatchPrefix(kind);
    if StartsWith(lines[0], prefix) {
      PrefixFits(lines[0], prefix);
      var m := FirstFilled(lines, 0, |prefix|);
      CountAfterOnLine(lines, prefix, m);
      if k: nat :| CountOn(lines, kind, k, n) {
        CountInMeans(Cut(lines, 0, |prefix|, k), n);
        assert k == m;
      }
      if CountAfter(lines, kind) == Some(n) {
        CountInMeans(Cut(lines, 0, |prefix|, m), n);
        assert CountOn(lines, kind, m, n);
      }
    } else {
      NoPrefixNoCount(lines, prefix);
    }
  }

  lemma NoPrefixNoCount(lines: Lines, prefix: string)
    requires !StartsWith(lines[0], prefix)
    ensures CountAfterPrefix(lines, prefix).None?
  {
  }

  /** The prefixes exclude each other, so the count does not depend on which one is tried first. */
  lemma TitleMeans(lines: Lines, n: nat)
    ensures TitleShape(lines, n) <==> EventCount(lines) == Some(n)
  {
    hide BatchPrefix, CountAfterPrefix, StartsWith, CountOn;
    forall kind: BatchKind ensures CountAfter(lines, kind) == Some(n) <==> exists m: nat :: CountOn(lines, kind, m, n) {
      CountMeans(lines, kind, n);
    }
    forall kind: BatchKind, other: BatchKind | CountAfter(lines, kind).Some? && CountAfter(lines, other).Some?
      ensures kind == other
    {
      CountNeedsPrefix(lines, BatchPrefix(kind));
      CountNeedsPrefix(lines, BatchPrefix(other));
      TitleIsUnambiguous(kind, lines[0]);
    }
    if TitleShape(lines, n) {
      var kind: BatchKind, m: nat :| CountOn(lines, kind, m, n);
      assert CountAfter(lines, kind) == Some(n);
    }
  }

  lemma CountNeedsPrefix(lines: Lines, prefix: string)
    requires CountAfterPrefix(lines, prefix).Some?
    ensures StartsWith(lines[0], prefix)
  {
  }

  lemma HeadMeans(lines: seq<Line>, i: nat)
    ensures HeaderAt(lines, i) <==> exists digits: string, id: string :: HeaderStands(lines, i, digits, id)
    ensures forall digits: string, id: string :: HeaderStands(lines, i, digits, id) ==>
        IsDigits(digits) && HeadEvent(lines[i..]) == Some(EventHeader(ParseNat(digits), id))
  {
    hide HeaderDigits, EventId, HeaderStands, IsDigits;
    forall digits: string, id: string
      ensures HeaderStands(lines, i, digits, id)
          <==> i < |lines| && HeaderDigits(lines[i]) == Some(digits) && EventId(lines[i + 1..]) == Some(id)
    {
      HeaderStandsMeans(lines, i, digits, id);
    }
    if i < |lines| { assert lines[i..][1..] == lines[i + 1..]; }
  }

  /** The greatest element of an ascending sequence is its last. */
  lemma LastIsGreatest(a: seq<nat>, x: nat)
    requires (forall j, k :: 0 <= j < k < |a| ==> a[j] < a[k]) && x in a
    ensures a != [] && x <= a[|a| - 1] && (x in a[..|a| - 1] <==> x < a[|a| - 1])
  {
    var j :| 0 <= j < |a| && a[j] == x;
  }

  lemma {:induction false} SameAscending(a: seq<nat>, b: seq<nat>)
    requires forall j, k :: 0 <= j < k < |a| ==> a[j] < a[k]
    requires forall j, k :: 0 <= j < k < |b| ==> b[j] < b[k]
    requires forall x: nat :: x in a <==> x in b
    ensures a == b
  {
    if a != [] {
      var m, n := |a| - 1, |b| - 1;
      LastIsGreatest(b, a[m]);
      LastIsGreatest(a, b[n]);
      forall x: nat ensures x in a[..m] <==> x in b[..n] {
        if x in a { LastIsGreatest(a, x); }
        if x in b { LastIsGreatest(b, x); }
      }
      SameAscending(a[..m], b[..n]);
    } else if b != [] {
      LastIsGreatest(a, b[0]);
    }
  }

  lemma NumberMeans(lines: seq<Line>, i: nat, n: nat)
    requires HeaderAt(lines, i)
    ensures HeadEvent(lines[i..]).value.number == n <==> StandsNumbered(lines, i, n)
  {
    hide HeadEvent, HeaderStands;
    HeadMeans(lines, i);
  }

  /** The positions of the parser's events are the lines at which headers stand. */
  lemma PositionsStand(lines: Lines, at: seq<nat>)
    requires HeaderPositions(lines, 0, at)
    ensures (forall j :: 0 <= j < |at| ==> HeadEvent(lines[at[j]..]).value.number == j + 1) <==> Numbered(lines, at)
  {
    hide HeadEvent, HeaderStands, StandsNumbered;
    forall i: nat, digits: string, id: string | HeaderStands(lines, i, digits, id) ensures i in at {
      HeadMeans(lines, i);
    }
    forall j | 0 <= j < |at|
      ensures HeadEvent(lines[at[j]..]).value.number == j + 1 <==> StandsNumbered(lines, at[j], j + 1)
    {
      NumberMeans(lines, at[j], j + 1);
    }
    assert Numbered(lines, at) <==> forall j :: 0 <= j < |at| ==> StandsNumbered(lines, at[j], j + 1);
    if Numbered(lines, at) {
      forall j | 0 <= j < |at| ensures HeadEvent(lines[at[j]..]).value.number == j + 1 {
        assert StandsNumbered(lines, at[j], j + 1);
      }
    }
  }

  lemma BatchMeans(lines: Lines, id: string)
    ensures BatchShape(lines, id) <==> BatchEvent(lines) == [id]
  {
    hide HeadEvent, HeaderStands, Spells, EventCount, TitleShape, Numbered, HeaderPositions;
    assert lines[0..] == lines;
    var at := EventsHavePositions(lines, 0);
    PositionsStand(lines, at);
    TitleMeans(lines, |at|);
    if at != [] { HeadMeans(lines, at[|at| - 1]); }
    if BatchShape(lines, id) {
      var at': seq<nat> :| BatchOn(lines, at', id);
      SamePositions(lines, at, at');
    }
    if BatchEvent(lines) == [id] { assert BatchOn(lines, at, id) by { BatchIsOn(lines, at, id); } }
  }

  lemma BatchIsOn(lines: Lines, at: seq<nat>, id: string)
    requires HeaderPositions(lines, 0, at) && |at| == |AllEvents(lines)| && BatchEvent(lines) == [id]
    requires forall j :: 0 <= j < |at| ==> HeadEvent(lines[at[j]..]) == Some(AllEvents(lines)[j])
    ensures BatchOn(lines, at, id)
  {
    hide HeadEvent, EventCount, TitleShape, Numbered, AllEvents, CarriesId;
    EventCountIsTwo(lines);
    var events := AllEvents(lines);
    forall j | 0 <= j < |at| ensures HeadEvent(lines[at[j]..]).value.number == j + 1 {
      assert events[j].number == j + 1;
    }
    PositionsStand(lines, at);
    TitleMeans(lines, |at|);
    IdIsCarried(lines, at[|at| - 1], events[|at| - 1]);
  }

  lemma IdIsCarried(lines: seq<Line>, i: nat, h: EventHeader)
    requires i < |lines| && HeadEvent(lines[i..]) == Some(h)
    ensures CarriesId(lines, i, h.id)
  {
    hide HeadEvent, HeaderStands;
    HeadMeans(lines, i);
  }

  lemma EventCountIsTwo(lines: Lines)
    ensures EventCount(lines).Some? ==> EventCount(lines).value >= 2
  {
  }

  lemma SamePositions(lines: Lines, at: seq<nat>, at': seq<nat>)
    requires HeaderPositions(lines, 0, at) && Numbered(lines, at')
    ensures at == at'
  {
    hide HeadEvent, HeaderStands, Spells;
    forall i: nat ensures i in at <==> i in at' {
      HeadMeans(lines, i);
      if i in at' {
        var j :| 0 <= j < |at'| && at'[j] == i;
      }
    }
    SameAscending(at, at');
  }

  // ------------------------------------------------------------ every block

  lemma BatchHasPrefix(lines: Lines) returns (kind: BatchKind)
    requires EventCount(lines).Some?
    ensures StartsWith(lines[0], BatchPrefix(kind))
  {
    hide CountAfterPrefix, StartsWith, BatchPrefix;
    kind := if CountAfter(lines, Collected).Some? then Collected
            else if CountAfter(lines, Arrived).Some? then Arrived else Superseding;
    CountNeedsPrefix(lines, BatchPrefix(kind));
  }

  /** No block is two kinds of event block at once. */
  lemma KindsExclude(lines: Lines)
    ensures !(SingleEvent(lines).Some? && NewSingleEvent(lines).Some?)
    ensures EventCount(lines).Some? ==> SingleEvent(lines).None? && NewSingleEvent(lines).None?
  {
    hide EventCount, EventId, HeaderDigits, StartsWith, SameIgnoringCase;
    if StartsWith(lines[0], "[Buzz event:") {
      MarkLetters();
      DiffersAt(lines[0], "[Buzz event:", NEW_MESSAGE, 1);
      DiffersAt(lines[0], "[Buzz event:", NEW_REQUEST, 1);
    }
    if EventCount(lines).Some? {
      var kind := BatchHasPrefix(lines);
      TitleIsUnambiguous(kind, lines[0]);
    }
  }

  lemma BatchNeedsCount(lines: Lines)
    requires BatchEvent(lines) != []
    ensures EventCount(lines).Some?
  {
  }

  /** The parser finds the event that a block carries, and no other. */
  lemma EventMeans(b: Block, id: string)
    ensures EventShape(b, id) <==> EventIdsOf(b) == [id]
  {
    hide SingleShape, InterruptionShape, BatchShape, SingleEvent, NewSingleEvent, BatchEvent, EventCount;
    if b.TextBlock? {
      SingleMeans(b.lines, id);
      InterruptionMeans(b.lines, id);
      BatchMeans(b.lines, id);
      KindsExclude(b.lines);
      if BatchEvent(b.lines) != [] { BatchNeedsCount(b.lines); }
    }
  }

  lemma AtMostOneEvent(b: Block)
    ensures |EventIdsOf(b)| <= 1
    ensures EventIdsOf(b) != [] <==> exists id: string :: EventShape(b, id)
  {
    hide EventShape, SingleEvent, NewSingleEvent, BatchEvent;
    if b.TextBlock? { BatchGivesOne(b.lines); }
    if EventIdsOf(b) != [] {
      assert EventIdsOf(b) == [EventIdsOf(b)[0]];
      EventMeans(b, EventIdsOf(b)[0]);
    }
    if id: string :| EventShape(b, id) { EventMeans(b, id); }
  }

  lemma BatchGivesOne(lines: Lines)
    ensures |BatchEvent(lines)| <= 1
  {
    hide AllEvents, EventCount, NumberedFromOne;
    EventCountIsTwo(lines);
  }

  // ------------------------------------------------------------ the route of a prompt

  ghost predicate OnlyContext(bs: seq<Block>, i: nat) {
    && i < |bs| && bs[i].TextBlock? && ContextShape(bs[i])
    && forall j :: 0 <= j < |bs| && j != i ==> !ContextShape(bs[j])
  }

  ghost predicate OnlyEvent(bs: seq<Block>, k: nat, id: string) {
    && k < |bs| && EventShape(bs[k], id)
    && forall j: nat, other: string :: j < |bs| && j != k ==> !EventShape(bs[j], other)
  }

  /** The first reply anchor of a text, or that there is none. */
  ghost predicate AnchorIs(text: string, reply: Option<string>) {
    match reply
    case Some(id) => exists i: nat :: FirstAnchorAt(text, i, id)
    case None => forall i: nat, id: string :: !AnchorAt(text, i, id)
  }

  /** Block i is the only context, block k the only one that carries an event, and r is what they say. */
  ghost predicate RouteAt(bs: seq<Block>, i: nat, k: nat, r: BuzzRoute) {
    && OnlyContext(bs, i) && OnlyEvent(bs, k, r.triggeringEventId)
    && (exists j: nat :: FirstCarries(bs[i].lines, j, r.channelId))
    && AnchorIs(JoinLines(bs[i].lines), r.replyTo)
  }

  lemma FirstAnchorIsRead(text: string, reply: Option<string>)
    ensures AnchorIs(text, reply) <==> ReplyTo(text) == reply
  {
    hide ReplyTo, AnchorAt;
    ReplyToMeans(text);
    forall i: nat, id: string | AnchorAt(text, i, id) ensures ReplyTo(text).Some? {
      var first, found := LeastAnchor(text, i, id);
    }
    if ReplyTo(text).Some? {
      var i: nat :| FirstAnchorAt(text, i, ReplyTo(text).value);
      assert AnchorAt(text, i, ReplyTo(text).value);
    }
  }

  lemma OnlyContextMeans(bs: seq<Block>, i: nat)
    requires i < |bs|
    ensures OnlyContext(bs, i) ==> FlatMap(bs, ContextOf) == [bs[i].lines]
    ensures (ContextOf(bs[i]) != [] && forall j :: 0 <= j < |bs| && j != i ==> ContextOf(bs[j]) == [])
        ==> OnlyContext(bs, i)
  {
    hide IsContext, ContextShape;
    forall j | 0 <= j < |bs| ensures ContextOf(bs[j]) != [] <==> ContextShape(bs[j]) {
      ContextTitleMeans(bs[j]);
      ContextIsText(bs[j]);
    }
    ContextIsText(bs[i]);
    if OnlyContext(bs, i) { FlatMapOnly(bs, i, ContextOf); }
  }

  lemma ContextIsText(b: Block)
    ensures IsContext(b) ==> b.TextBlock?
  {
  }

  lemma OnlyEventMeans(bs: seq<Block>, k: nat, id: string)
    requires k < |bs|
    ensures OnlyEvent(bs, k, id) ==> FlatMap(bs, EventIdsOf) == [id]
    ensures EventIdsOf(bs[k]) == [id] && (forall j :: 0 <= j < |bs| && j != k ==> EventIdsOf(bs[j]) == [])
        ==> OnlyEvent(bs, k, id)
  {
    hide EventIdsOf, EventShape;
    EventMeans(bs[k], id);
    forall j | 0 <= j < |bs| ensures EventIdsOf(bs[j]) != [] <==> exists other: string :: EventShape(bs[j], other) {
      AtMostOneEvent(bs[j]);
    }
    if OnlyEvent(bs, k, id) { FlatMapOnly(bs, k, EventIdsOf); }
  }

  lemma ShapeIsRead(bs: seq<Block>, i: nat, k: nat, r: BuzzRoute)
    requires RouteAt(bs, i, k, r)
    ensures ParseRoute(Blocks(bs)) == Some(r)
  {
    hide FlatMap, Channel, ReplyTo, JoinLines, FirstCarries, ContextShape, EventShape;
    OnlyContextMeans(bs, i);
    OnlyEventMeans(bs, k, r.triggeringEventId);
    ChannelMeans(bs[i].lines);
    FirstAnchorIsRead(JoinLines(bs[i].lines), r.replyTo);
  }

  lemma ReadIsShape(bs: seq<Block>, r: BuzzRoute) returns (i: nat, k: nat)
    requires ParseRoute(Blocks(bs)) == Some(r)
    ensures RouteAt(bs, i, k, r)
  {
    hide Channel, ReplyTo, JoinLines, FirstCarries, ContextShape, EventShape, EventIdsOf, IsContext, AnchorIs;
    i := FlatMapSingle(bs, ContextOf);
    k := FlatMapSingle(bs, EventIdsOf);
    OnlyContextMeans(bs, i);
    FlatMapOnly(bs, k, EventIdsOf);
    OnlyEventMeans(bs, k, r.triggeringEventId);
    ChannelMeans(bs[i].lines);
    FirstAnchorIsRead(JoinLines(bs[i].lines), r.replyTo);
  }

  /**
   The route of any prompt, by the shapes of its lines: there is one exactly if one block is a context that
   carries a channel and one block carries an event, and then it is the channel on the first line that carries
   one, that event, and the first reply anchor of the context.
   */
  lemma RouteMeans(prompt: Prompt)
    ensures forall r: BuzzRoute ::
      ParseRoute(prompt) == Some(r) <==> prompt.Blocks? && exists i: nat, k: nat :: RouteAt(prompt.blocks, i, k, r)
  {
    hide RouteAt, RouteFrom;
    forall r: BuzzRoute ensures ParseRoute(prompt) == Some(r)
        <==> prompt.Blocks? && exists i: nat, k: nat :: RouteAt(prompt.blocks, i, k, r)
    {
      if prompt.Blocks? {
        if i: nat, k: nat :| RouteAt(prompt.blocks, i, k, r) { ShapeIsRead(prompt.blocks, i, k, r); }
        if ParseRoute(prompt) == Some(r) { var i, k := ReadIsShape(prompt.blocks, r); }
      }
    }
  }

  /** The prompt holds one context with a channel, and one event. */
  ghost predicate Acceptable(bs: seq<Block>) {
    && (exists i: nat :: OnlyContext(bs, i) && exists j: nat, c: string :: Carries(bs[i].lines, j, c))
    && exists k: nat, id: string :: OnlyEvent(bs, k, id)
  }

  lemma {:induction false} LeastCarrier(lines: Lines, j: nat, c: string) returns (first: nat, found: string)
    requires Carries(lines, j, c)
    ensures FirstCarries(lines, first, found)
  {
    hide Carries;
    if i: nat, other: string :| i < j && Carries(lines, i, other) {
      first, found := LeastCarrier(lines, i, other);
    } else {
      first, found := j, c;
    }
  }

  lemma RouteIsAcceptable(bs: seq<Block>, i: nat, k: nat, r: BuzzRoute)
    requires RouteAt(bs, i, k, r)
    ensures Acceptable(bs)
  {
    hide ContextShape, OnlyEvent, Carries;
    var j: nat :| FirstCarries(bs[i].lines, j, r.channelId);
    assert Carries(bs[i].lines, j, r.channelId);
  }

  /** A prompt has a route if and only if it holds exactly one context, with a channel, and exactly one event. */
  lemma AcceptedIff(prompt: Prompt)
    ensures ParseRoute(prompt).Some? <==> prompt.Blocks? && Acceptable(prompt.blocks)
  {
    hide ContextShape, OnlyEvent, Carries, RouteFrom, FirstCarries, AnchorIs, JoinLines, ReplyTo;
    if prompt.Blocks? {
      var bs := prompt.blocks;
      if ParseRoute(prompt).Some? {
        var i, k := ReadIsShape(bs, ParseRoute(prompt).value);
        RouteIsAcceptable(bs, i, k, ParseRoute(prompt).value);
      }
      if Acceptable(bs) {
        var i: nat :| OnlyContext(bs, i) && exists j: nat, c: string :: Carries(bs[i].lines, j, c);
        var j: nat, c: string :| Carries(bs[i].lines, j, c);
        var first, channel := LeastCarrier(bs[i].lines, j, c);
        var k: nat, id: string :| OnlyEvent(bs, k, id);
        var reply := ReplyTo(JoinLines(bs[i].lines));
        FirstAnchorIsRead(JoinLines(bs[i].lines), reply);
        ShapeIsRead(bs, i, k, BuzzRoute(channel, id, reply));
      }
    }
  }

  // ------------------------------------------------------------ one more block

  ghost predicate CarriesEvent(b: Block) { exists id: string :: EventShape(b, id) }

  /**
   One more block, wherever it stands, destroys an accepted route if it is a second context or carries a second
   event, and otherwise leaves it as it was; it never changes it.
   */
  lemma OneMoreBlock(xs: seq<Block>, i: nat, b: Block)
    requires i <= |xs| && ParseRoute(Blocks(xs)).Some?
    ensures ParseRoute(Blocks(xs[..i] + [b] + xs[i..]))
         == if ContextShape(b) || CarriesEvent(b) then None else ParseRoute(Blocks(xs))
  {
    hide IsContext, ContextShape, EventIdsOf, EventShape;
    ContextTitleMeans(b);
    AtMostOneEvent(b);
    assert xs == xs[..i] + xs[i..];
    assert multiset(xs[..i] + [b] + xs[i..]) == multiset(xs + [b]);
    RouteIgnoresBlockOrder(xs[..i] + [b] + xs[i..], xs + [b]);
    FlatMapConcat(xs, [b], ContextOf);
    FlatMapConcat(xs, [b], EventIdsOf);
    assert [b][1..] == [];
    assert FlatMap([b], ContextOf) == ContextOf(b) && FlatMap([b], EventIdsOf) == EventIdsOf(b);
  }

  /** Two context blocks, or two blocks that carry events, never make a route, whatever else the prompt holds. */
  lemma SecondBlockDestroys(xs: seq<Block>, i: nat, j: nat)
    requires i < j < |xs|
    requires (ContextShape(xs[i]) && ContextShape(xs[j])) || (CarriesEvent(xs[i]) && CarriesEvent(xs[j]))
    ensures ParseRoute(Blocks(xs)).None?
  {
    hide IsContext, ContextShape, EventIdsOf, EventShape;
    ContextTitleMeans(xs[i]);
    ContextTitleMeans(xs[j]);
    AtMostOneEvent(xs[i]);
    AtMostOneEvent(xs[j]);
    FlatMapHoldsTwo(xs, i, j, ContextOf);
    FlatMapHoldsTwo(xs, i, j, EventIdsOf);
  }
}
