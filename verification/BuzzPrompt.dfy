/** A whole Buzz prompt, printed as Buzz frames it and read back: the context block and the block with the events. */
module BuzzPrompt {
  import opened Wrappers
  import opened Text
  import opened Sequences
  import opened BuzzContext
  import opened BuzzBatch

  /**
   What a context block says: a scope, the channel with or without its name, and the anchor of a thread.
   The scope may run over several lines; that is what a scope with line feeds in it prints as.
   */
  datatype Context = Context(scope: Lines, name: Option<Line>, channelId: Line, replyTo: Option<Line>)

  /** The event blocks: one event, one that arrived during work, or a batch. */
  datatype Events =
    | One(about: Line, entry: Entry)
    | Interruption(superseding: bool, trigger: Line, entry: Entry)
    | Batch(kind: BatchKind, entries: seq<Entry>)

  // ------------------------------------------------------------ printing

  function ChannelText(c: Context): Line {
    if c.name.Some? then c.name.value + " (#" + c.channelId + ")" else c.channelId
  }

  function ChannelLine(c: Context): Line { "Channel: " + ChannelText(c) }

  function ScopeLine(scope: Line): Line { "Scope: " + scope }

  const CONTEXT_TITLE: Line := "[Context]"

  /** The lines before the channel line. */
  function Opening(c: Context): Lines { [CONTEXT_TITLE, ScopeLine(c.scope[0])] + c.scope[1..] }

  function RootLine(id: Line): Line { "Thread root: " + id }

  function AnchorLine(id: Line): Line { "IMPORTANT: use `" + ("--reply-to " + id + "`.") }

  function Closing(c: Context): seq<Line> {
    if c.replyTo.Some? then [RootLine(c.replyTo.value), AnchorLine(c.replyTo.value)] else []
  }

  function PrintContext(c: Context): Lines { Opening(c) + ([ChannelLine(c)] + Closing(c)) }

  function SingleTitle(about: Line): Line { "[Buzz event: " + about + "]" }

  function SingleLines(title: Line, e: Entry): Lines { [title] + ([IdLine(e.id), LabelLine(e.channel)] + e.body) }

  function InterruptionLines(title: Line, trigger: Line, e: Entry): Lines {
    [title, "", HeaderLine(1, trigger)] + ([IdLine(e.id), LabelLine(e.channel)] + e.body)
  }

  function InterruptionTitle(superseding: bool): Line { if superseding then NEW_REQUEST else NEW_MESSAGE }

  function PrintEvents(ev: Events): Lines {
    match ev
    case One(about, e) => SingleLines(SingleTitle(about), e)
    case Interruption(superseding, trigger, e) => InterruptionLines(InterruptionTitle(superseding), trigger, e)
    case Batch(kind, es) => PrintBatch(kind, es)
  }

  predicate ValidContext(c: Context) { IsChannelId(c.channelId) && (c.replyTo.Some? ==> IsEventId(c.replyTo.value)) }

  predicate ValidEvents(ev: Events) {
    match ev
    case One(_, e) => IsEventId(e.id)
    case Interruption(_, _, e) => IsEventId(e.id)
    case Batch(_, es) => 2 <= |es| <= MAX_SAFE_INTEGER && ValidIds(es)
  }

  /** The event that the printed block is about: its only one, or the last. */
  function TriggerOf(ev: Events): string
    requires ValidEvents(ev)
  {
    match ev
    case One(_, e) => e.id
    case Interruption(_, _, e) => e.id
    case Batch(_, es) => es[|es| - 1].id
  }

  predicate Imitates(ev: Events) { ev.Batch? && Forged(ev.entries) > 0 }

  // ------------------------------------------------------------ the event block

  lemma SingleReadsBack(about: Line, e: Entry)
    requires IsEventId(e.id)
    ensures TriggeringEventIds(SingleLines(SingleTitle(about), e)) == [e.id]
  {
    hide EventId, IsEventId, IdLine, LabelLine;
    var title, lines := SingleTitle(about), SingleLines(SingleTitle(about), e);
    assert title[..12] == "[Buzz event:";
    assert title[|title| - 1..] == "]";
    assert lines[1..] == [IdLine(e.id), LabelLine(e.channel)] + e.body;
    IdLineReadsBack(e.id, e.channel, e.body);
  }

  lemma InterruptionTitleIsNew(superseding: bool)
    ensures var title := InterruptionTitle(superseding);
            && !StartsWith(title, "[Buzz event:")
            && (SameIgnoringCase(title, NEW_MESSAGE) || SameIgnoringCase(title, NEW_REQUEST))
  {
    MarkLetters();
    DifferentStart(InterruptionTitle(superseding), "[Buzz event:", 1);
  }

  lemma InterruptionReadsBack(superseding: bool, trigger: Line, e: Entry)
    requires IsEventId(e.id)
    ensures TriggeringEventIds(InterruptionLines(InterruptionTitle(superseding), trigger, e)) == [e.id]
  {
    hide EventId, IsEventId, HeaderDigits, HeaderLine, IdLine, LabelLine, InterruptionTitle, StartsWith;
    hide SameIgnoringCase, BatchEvent;
    var lines := InterruptionLines(InterruptionTitle(superseding), trigger, e);
    InterruptionTitleIsNew(superseding);
    assert lines[3..] == [IdLine(e.id), LabelLine(e.channel)] + e.body;
    IdLineReadsBack(e.id, e.channel, e.body);
    HeaderLineReadsBack(1, trigger);
    assert PrintNat(1) == "1";
  }

  /**
   Whatever stands in its bodies, a printed event block yields its event; only a batch can be spoilt,
   by an imitated header.
   */
  lemma EventsReadBack(ev: Events)
    requires ValidEvents(ev)
    ensures EventIdsOf(TextBlock(PrintEvents(ev))) == if Imitates(ev) then [] else [TriggerOf(ev)]
  {
    hide TriggeringEventIds, SingleLines, InterruptionLines, PrintBatch, InterruptionTitle;
    match ev
    case One(about, e) => SingleReadsBack(about, e);
    case Interruption(superseding, trigger, e) => InterruptionReadsBack(superseding, trigger, e);
    case Batch(kind, es) => BatchRoundTrip(kind, es);
  }

  /** No event block is taken for a context. */
  lemma EventsAreNoContext(ev: Events)
    ensures !IsContext(TextBlock(PrintEvents(ev)))
  {
    hide PrintNat, PrintEntries;
    assert "[Context]"[1] == 'C';
    MarkLetters();
    match ev
    case One(about, e) => assert PrintEvents(ev)[0][1] == 'B';
    case Interruption(_, _, _) => assert PrintEvents(ev)[0][1] == 'N';
    case Batch(kind, es) =>
      SecondLetters(kind);
      assert PrintEvents(ev)[0] == TitleLine(kind, |es|);
      assert PrintEvents(ev)[0][1] == BatchPrefix(kind)[1];
  }

  // ------------------------------------------------------------ the context block

  lemma NotBlankAt(s: string, i: nat)
    requires i < |s| && !IsSpace(s[i])
    ensures !Blank(s)
  {
  }

  /** Trimming on the left stops before a character that is no white space. */
  lemma {:induction false} TrimLeftUpTo(x: string, c: char, y: string)
    requires !IsSpace(c)
    ensures TrimLeft(x + [c] + y) == TrimLeft(x) + [c] + y
  {
    if x == "" {
      assert x + [c] + y == [c] + y;
    } else if IsSpace(x[0]) {
      assert (x + [c] + y)[1..] == x[1..] + [c] + y;
      TrimLeftUpTo(x[1..], c, y);
    }
  }

  lemma TrimRightKeeps(s: string, c: char)
    requires !IsSpace(c)
    ensures TrimRight(s + [c]) == s + [c]
  {
    hide IsSpace;
  }

  lemma TrimLeftOneSpace(s: string)
    ensures TrimLeft(" " + s) == TrimLeft(s)
  {
    assert (" " + s)[1..] == s;
  }

  /** A value that ends its line in a character that is no white space loses only white space before it. */
  lemma TrimAfterSpace(s: string, c: char)
    requires !IsSpace(c)
    ensures Trim(" " + (s + [c])) == TrimLeft(s) + [c]
    ensures !Blank(" " + (s + [c]))
  {
    hide TrimLeft, TrimRight, Blank;
    TrimLeftOneSpace(s + [c]);
    assert s + [c] == s + [c] + "";
    TrimLeftUpTo(s, c, "");
    assert TrimLeft(s) + [c] + "" == TrimLeft(s) + [c];
    TrimRightKeeps(TrimLeft(s), c);
    NotBlankAt(" " + (s + [c]), |s| + 1);
  }

  lemma NamedChannel(before: string, id: string)
    requires IsChannelId(id)
    ensures ChannelIn(before + ("(#" + id) + [')']) == Some(id)
  {
    hide IsChannelId;
    var value := before + ("(#" + id) + [')'];
    var n := |value|;
    assert |id| == 36 by { IdLength(id); }
    assert value[n - 39..n - 37] == "(#";
    assert value[n - 37..n - 1] == id;
  }

  lemma IdLength(id: string)
    requires IsChannelId(id)
    ensures |id| == 36
  {
  }

  lemma ChannelIdEnds(id: string)
    requires IsChannelId(id)
    ensures |id| == 36 && !IsSpace(id[0]) && !IsSpace(id[35])
  {
    HexIsNoSpace(id[0]);
    HexIsNoSpace(id[35]);
  }

  lemma HexIsNoSpace(c: char)
    requires IsHexDigit(c)
    ensures !IsSpace(c)
  {
  }

  lemma PlainChannel(id: string)
    requires IsChannelId(id)
    ensures ChannelIn(id) == Some(id) && !IsSpace(id[35]) && TrimLeft(id[..35]) + [id[35]] == id
  {
    hide IsChannelId, IsSpace;
    ChannelIdEnds(id);
    assert id[..35][0] == id[0];
    assert TrimLeft(id[..35]) == id[..35];
  }

  lemma NamedChannelReadsBack(name: string, id: string)
    requires IsChannelId(id)
    ensures ChannelIn(Trim(" " + (name + " (#" + id + ")"))) == Some(id) && !Blank(" " + (name + " (#" + id + ")"))
  {
    hide IsChannelId, ChannelIn, Trim, TrimLeft, Blank;
    var start := name + " ";
    assert name + " (#" + id + ")" == start + "(#" + id + [')'];
    TrimAfterSpace(start + "(#" + id, ')');
    assert start + "(#" + id == start + ['('] + ("#" + id);
    TrimLeftUpTo(start, '(', "#" + id);
    var kept := TrimLeft(start);
    assert kept + ['('] + ("#" + id) == kept + ("(#" + id);
    NamedChannel(kept, id);
  }

  lemma PlainChannelReadsBack(id: string)
    requires IsChannelId(id)
    ensures ChannelIn(Trim(" " + id)) == Some(id) && !Blank(" " + id)
  {
    hide IsChannelId, ChannelIn, Trim, TrimLeft, Blank;
    IdLength(id);
    PlainChannel(id);
    assert id[..35] + [id[35]] == id;
    TrimAfterSpace(id[..35], id[35]);
  }

  /** The channel line yields its id, whatever the channel is called. */
  lemma ChannelLineReadsBack(c: Context)
    requires IsChannelId(c.channelId)
    ensures StartsWith(ChannelLine(c), "Channel:") && ChannelIn(Value(ChannelLine(c)[8..], [])) == Some(c.channelId)
    ensures !Blank(ChannelLine(c)[8..])
  {
    hide IsChannelId, ChannelIn, Trim, Blank;
    var line := ChannelLine(c);
    assert line[..8] == "Channel:";
    assert line[8..] == " " + ChannelText(c);
    if c.name.Some? { NamedChannelReadsBack(c.name.value, c.channelId); } else { PlainChannelReadsBack(c.channelId); }
  }

  /** The id that the parser reads off line j, if there is one. */
  function ChannelAt(lines: seq<Line>, j: nat): Option<string>
    requires j < |lines|
  {
    if StartsWith(lines[j], "Channel:") then ChannelIn(Value(lines[j][8..], lines[j + 1..])) else None
  }

  /** The parser reads an id off line j and off no line before it. */
  predicate FirstChannelAt(lines: seq<Line>, j: nat) {
    j < |lines| && ChannelAt(lines, j).Some? && forall i :: 0 <= i < j ==> ChannelAt(lines, i).None?
  }

  /** The channel of a context is the first one read. */
  lemma {:induction false} ChannelIsFirstRead(lines: seq<Line>)
    ensures Channel(lines).Some? <==> exists j: nat :: FirstChannelAt(lines, j)
    ensures forall j: nat :: FirstChannelAt(lines, j) ==> Channel(lines) == ChannelAt(lines, j)
  {
    hide ChannelIn, Value, StartsWith;
    if lines != [] {
      var rest := lines[1..];
      ChannelIsFirstRead(rest);
      assert Channel(lines) == if ChannelAt(lines, 0).Some? then ChannelAt(lines, 0) else Channel(rest);
      forall j: nat | j < |rest| ensures ChannelAt(lines, j + 1) == ChannelAt(rest, j) {
        assert lines[j + 1..][1..] == rest[j + 1..];
      }
      if ChannelAt(lines, 0).Some? {
        assert FirstChannelAt(lines, 0);
      } else {
        forall j: nat ensures FirstChannelAt(lines, j + 1) <==> FirstChannelAt(rest, j) {
          LaterFirst(lines, j);
        }
        if Channel(rest).Some? {
          var j: nat :| FirstChannelAt(rest, j);
          assert FirstChannelAt(lines, j + 1);
        }
        forall j: nat | FirstChannelAt(lines, j) ensures Channel(lines) == ChannelAt(lines, j) {
          assert FirstChannelAt(rest, j - 1);
        }
      }
    }
  }

  lemma LaterFirst(lines: seq<Line>, j: nat)
    requires lines != [] && ChannelAt(lines, 0).None?
    requires forall i: nat :: i < |lines| - 1 ==> ChannelAt(lines, i + 1) == ChannelAt(lines[1..], i)
    ensures FirstChannelAt(lines, j + 1) <==> FirstChannelAt(lines[1..], j)
  {
    hide ChannelAt;
    if FirstChannelAt(lines, j + 1) {
      forall i | 0 <= i < j ensures ChannelAt(lines[1..], i).None? {
        assert ChannelAt(lines, i + 1).None?;
      }
    }
    if FirstChannelAt(lines[1..], j) {
      forall i | 0 <= i < j + 1 ensures ChannelAt(lines, i).None? {
        assert i > 0 ==> ChannelAt(lines[1..], i - 1).None?;
      }
    }
  }

  // What a channel line is, said without the parser: the label, white space that may run over blank lines,
  // and then, on one line, an id or any text that ends in one in parentheses after a hash sign.

  /** The text is an id, or ends in a named one; white space around it does not count. */
  predicate ShowsBetween(text: string, before: string, id: string, after: string) {
    && IsChannelId(id) && Blank(after)
    && ((text == before + id + after && Blank(before)) || text == before + ("(#" + id + ")") + after)
  }

  ghost predicate Shows(text: string, id: string) {
    exists before: string, after: string :: ShowsBetween(text, before, id, after)
  }

  /** Line m of the lines from j on, without the label that stands at the start of line j. */
  function Unlabelled(lines: seq<Line>, j: nat, m: nat): string
    requires j <= m < |lines| && |lines[j]| >= 8
  {
    if m == j then lines[j][8..] else lines[m]
  }

  /** Line j has the label, and line m, with nothing but white space in between, shows the id. */
  ghost predicate CarriesOn(lines: seq<Line>, j: nat, m: nat, id: string) {
    && j <= m < |lines| && StartsWith(lines[j], "Channel:")
    && (forall i :: j <= i < m ==> Blank(Unlabelled(lines, j, i)))
    && Shows(Unlabelled(lines, j, m), id)
  }

  ghost predicate Carries(lines: seq<Line>, j: nat, id: string) { exists m: nat :: CarriesOn(lines, j, m, id) }

  /** Line j carries this id, and no line before it carries any. */
  ghost predicate FirstCarries(lines: seq<Line>, j: nat, id: string) {
    Carries(lines, j, id) && forall i: nat, other: string :: i < j ==> !Carries(lines, i, other)
  }

  lemma PlainIsShown(text: string, before: string, id: string, after: string)
    requires IsChannelId(id) && Blank(before) && Blank(after) && text == before + id + after
    ensures ChannelIn(Trim(text)) == Some(id)
  {
    hide IsChannelId, IsSpace, ChannelIn, Blank, Trim;
    IdLength(id);
    ChannelIdEnds(id);
    PlainChannel(id);
    TrimPadded(before, id, after);
  }

  lemma NamedIsShown(text: string, before: string, id: string, after: string)
    requires IsChannelId(id) && Blank(after) && text == before + ("(#" + id + ")") + after
    ensures ChannelIn(Trim(text)) == Some(id)
  {
    hide IsChannelId, ChannelIn, Blank, TrimLeft, TrimRight;
    var kept := TrimLeft(before);
    assert text == before + ['('] + ("#" + id + ")" + after);
    TrimLeftUpTo(before, '(', "#" + id + ")" + after);
    assert kept + ['('] + ("#" + id + ")" + after) == kept + ("(#" + id) + [')'] + after;
    TrimRightBlankSuffix(kept + ("(#" + id) + [')'], after);
    TrimRightKeeps(kept + ("(#" + id), ')');
    NamedChannel(kept, id);
  }

  lemma ShownIsRead(text: string, before: string, id: string, after: string)
    requires ShowsBetween(text, before, id, after)
    ensures ChannelIn(Trim(text)) == Some(id) && !Blank(text)
  {
    hide IsChannelId, ChannelIn, Blank, Trim;
    if text == before + id + after && Blank(before) {
      PlainIsShown(text, before, id, after);
    } else {
      NamedIsShown(text, before, id, after);
    }
    TrimBlank(text);
    NothingNamesNoChannel();
  }

  lemma NothingNamesNoChannel()
    ensures ChannelIn("") == None
  {
  }

  lemma ReadIsShown(text: string, id: string)
    requires ChannelIn(Trim(text)) == Some(id)
    ensures Shows(text, id)
  {
    hide IsChannelId, Blank, Trim;
    var value := Trim(text);
    var before, after := TrimParts(text);
    var n := |value|;
    if value == id {
      assert ShowsBetween(text, before, id, after);
    } else {
      IdLength(id);
      assert value == value[..n - 39] + ("(#" + id + ")");
      assert text == before + value[..n - 39] + ("(#" + id + ")") + after;
      assert ShowsBetween(text, before + value[..n - 39], id, after);
    }
  }

  lemma {:induction false} SkipBlankStops(lines: seq<Line>) returns (m: nat)
    ensures m <= |lines| && SkipBlank(lines) == lines[m..]
    ensures (forall i :: 0 <= i < m ==> Blank(lines[i])) && (m < |lines| ==> !Blank(lines[m]))
  {
    hide Blank;
    m := 0;
    if lines != [] && Blank(lines[0]) {
      var rest := SkipBlankStops(lines[1..]);
      m := rest + 1;
    }
  }

  /** The parser reads off a line exactly the id that it carries. */
  lemma CarriesMeans(lines: seq<Line>, j: nat, id: string)
    ensures Carries(lines, j, id) <==> j < |lines| && ChannelAt(lines, j) == Some(id)
  {
    hide Blank, ChannelIn, Trim, StartsWith, Shows, SkipBlank;
    if j < |lines| && StartsWith(lines[j], "Channel:") {
      assert |lines[j]| >= 8 by { LabelFits(lines[j]); }
      var skipped := SkipBlankStops(lines[j + 1..]);
      var m := if Blank(lines[j][8..]) then j + 1 + skipped else j;
      forall i | j <= i < m ensures Blank(Unlabelled(lines, j, i)) {
        assert i > j ==> lines[i] == lines[j + 1..][i - j - 1];
      }
      if Carries(lines, j, id) {
        var k: nat :| CarriesOn(lines, j, k, id);
        ShownIsThere(Unlabelled(lines, j, k), id);
        assert m < k ==> Blank(Unlabelled(lines, j, m));
      }
      if ChannelAt(lines, j) == Some(id) {
        NothingNamesNoChannel();
        ReadIsShown(Unlabelled(lines, j, m), id);
        assert CarriesOn(lines, j, m, id);
      }
    }
  }

  lemma LabelFits(line: string)
    requires StartsWith(line, "Channel:")
    ensures |line| >= 8
  {
  }

  lemma ShownIsThere(text: string, id: string)
    requires Shows(text, id)
    ensures ChannelIn(Trim(text)) == Some(id) && !Blank(text)
  {
    hide ShowsBetween, ChannelIn, Trim, Blank;
    var before: string, after: string :| ShowsBetween(text, before, id, after);
    ShownIsRead(text, before, id, after);
  }

  lemma FirstCarriesMeans(lines: seq<Line>, j: nat, id: string)
    ensures FirstCarries(lines, j, id) <==> FirstChannelAt(lines, j) && ChannelAt(lines, j) == Some(id)
  {
    hide Carries, ChannelAt;
    CarriesMeans(lines, j, id);
    if j < |lines| {
      forall i: nat, other: string | i < j ensures Carries(lines, i, other) <==> ChannelAt(lines, i) == Some(other) {
        CarriesMeans(lines, i, other);
      }
    }
  }

  /** The channel of a context is the id on the first line that carries one. */
  lemma ChannelMeans(lines: seq<Line>)
    ensures forall j: nat, id: string :: FirstCarries(lines, j, id) ==> Channel(lines) == Some(id)
    ensures Channel(lines).Some? ==> exists j: nat :: FirstCarries(lines, j, Channel(lines).value)
  {
    hide FirstCarries, ChannelAt, Channel;
    ChannelIsFirstRead(lines);
    forall j: nat, id: string | FirstCarries(lines, j, id) ensures Channel(lines) == Some(id) {
      FirstCarriesMeans(lines, j, id);
    }
    if Channel(lines).Some? {
      var j: nat :| FirstChannelAt(lines, j);
      FirstCarriesMeans(lines, j, Channel(lines).value);
    }
  }

  /**
   No line of the scope carries another channel's id before the channel line does: the first that
   carries one, if any, carries this one.
   */
  ghost predicate KeepsChannel(c: Context) {
    forall j: nat, id: string :: j < |Opening(c)| && FirstCarries(PrintContext(c), j, id) ==> id == c.channelId
  }

  lemma OwnLineCarries(c: Context)
    requires ValidContext(c)
    ensures ChannelAt(PrintContext(c), |Opening(c)|) == Some(c.channelId)
  {
    hide ChannelLine, ChannelIn, Value, IsChannelId, IsEventId, Closing, Opening;
    var lines := PrintContext(c);
    assert lines[|Opening(c)|] == ChannelLine(c);
    ChannelLineReadsBack(c);
    ValueIgnoresRest(ChannelLine(c)[8..], lines[|Opening(c)| + 1..]);
  }

  lemma ValueIgnoresRest(text: string, after: seq<string>)
    requires !Blank(text)
    ensures Value(text, after) == Value(text, [])
  {
  }

  lemma {:induction false} LeastChannelLine(lines: seq<Line>, j: nat) returns (first: nat)
    requires j < |lines| && ChannelAt(lines, j).Some?
    ensures first <= j && FirstChannelAt(lines, first)
  {
    hide ChannelAt;
    if i :| 0 <= i < j && ChannelAt(lines, i).Some? {
      first := LeastChannelLine(lines, i);
    } else {
      first := j;
    }
  }

  /** A context always has a channel; it is the printed one exactly if the scope does not bring up another one first. */
  lemma ContextChannel(c: Context)
    requires ValidContext(c)
    ensures Channel(PrintContext(c)).Some?
    ensures Channel(PrintContext(c)) == Some(c.channelId) <==> KeepsChannel(c)
  {
    hide FirstCarries, ChannelAt, Channel, PrintContext, IsChannelId, IsEventId, Opening;
    var lines, n := PrintContext(c), |Opening(c)|;
    OwnLineCarries(c);
    OpeningIsPart(c);
    ChannelMeans(lines);
    ChannelIsFirstRead(lines);
    var first := LeastChannelLine(lines, n);
    FirstCarriesMeans(lines, first, ChannelAt(lines, first).value);
  }

  lemma OpeningIsPart(c: Context)
    ensures |Opening(c)| < |PrintContext(c)|
  {
  }

  lemma NoLabel(line: string)
    requires line != "" && Lower(line[0]) != 'c'
    ensures !StartsWith(line, "Channel:")
  {
    assert Lower("Channel:"[0]) == 'c';
    DifferentStart(line, "Channel:", 0);
  }

  /** A scope of one line, whatever it says, never does. */
  lemma OneLineKeepsChannel(c: Context)
    requires |c.scope| == 1
    ensures KeepsChannel(c)
  {
    var lines := PrintContext(c);
    assert lines[0] == CONTEXT_TITLE && lines[1] == ScopeLine(c.scope[0]);
    NoLabel(lines[0]);
    NoLabel(lines[1]);
    assert |Opening(c)| == 2;
    forall j: nat, id: string | j < 2 ensures !FirstCarries(lines, j, id) {
      FirstCarriesMeans(lines, j, id);
    }
  }

  /** But a second line of the scope can: it takes the channel over. */
  lemma SecondLineTakesChannel(c: Context, first: Line, other: Context)
    requires ValidContext(c) && ValidContext(other) && other.channelId != c.channelId
    requires c.scope == [first, ChannelLine(other)]
    ensures Channel(PrintContext(c)) == Some(other.channelId) && !KeepsChannel(c)
  {
    hide IsChannelId, IsEventId, ChannelIn, Value, Channel, ChannelLine, Closing;
    var lines := PrintContext(c);
    assert lines[0] == CONTEXT_TITLE && lines[1] == ScopeLine(first) && lines[2] == ChannelLine(other);
    NoLabel(lines[0]);
    NoLabel(lines[1]);
    ChannelLineReadsBack(other);
    ValueIgnoresRest(ChannelLine(other)[8..], lines[3..]);
    assert FirstChannelAt(lines, 2);
    ChannelIsFirstRead(lines);
    ContextChannel(c);
  }

  // ------------------------------------------------------------ the reply anchor

  lemma OptionHasNoTick(i: nat)
    requires i < 10
    ensures |REPLY_OPTION| == 10 && Lower(REPLY_OPTION[i]) != Lower('`')
  {
  }

  lemma HexStopsAtTick(x: string, y: string)
    ensures var t := x + ['`'] + y;
            && (|t| >= 64 && IsHex(t[..64]) <==> |x| >= 64 && IsHex(x[..64]))
            && (|x| >= 64 ==> t[..64] == x[..64])
  {
    var t := x + ['`'] + y;
    if |x| >= 64 {
      assert t[..64] == x[..64];
    } else if |t| >= 64 {
      assert t[..64][|x|] == '`' && !IsHexDigit('`');
    }
  }

  /** A backtick belongs to no reply anchor, so an anchor lies on one side of it. */
  lemma AnchorStopsAtTick(a: string, b: string)
    requires a != ""
    ensures ReplyHere(a + ['`'] + b) == ReplyHere(a)
  {
    hide SameIgnoringCase, TrimLeft, IsHex;
    var t := a + ['`'] + b;
    if |a| < 10 {
      OptionHasNoTick(|a|);
      DifferentStart(t, REPLY_OPTION, |a|);
    } else {
      assert t[..10] == a[..10];
      assert t[10..] == a[10..] + ['`'] + b;
      TrimLeftUpTo(a[10..], '`', b);
      HexStopsAtTick(TrimLeft(a[10..]), b);
    }
  }

  /** The first anchor of a text with a backtick: the one before it, or else the one after it. */
  lemma {:induction false} FirstAnchor(a: string, b: string)
    ensures ReplyTo(a + ['`'] + b) == if ReplyTo(a).Some? then ReplyTo(a) else ReplyTo(b)
    decreases |a|
  {
    hide ReplyHere;
    var t := a + ['`'] + b;
    if a == "" {
      assert t == ['`'] + b && t[1..] == b;
      TickIsNoAnchor(b);
    } else {
      assert t[1..] == a[1..] + ['`'] + b;
      AnchorStopsAtTick(a, b);
      FirstAnchor(a[1..], b);
    }
  }

  lemma TickIsNoAnchor(b: string)
    ensures ReplyHere(['`'] + b).None?
  {
    assert REPLY_OPTION[0] == '-';
    DifferentStart(['`'] + b, REPLY_OPTION, 0);
  }

  lemma StartsWithItself(prefix: string, rest: string)
    ensures StartsWith(prefix + rest, prefix)
  {
    assert (prefix + rest)[..|prefix|] == prefix;
  }

  lemma AnchorReadsBack(id: string, after: string)
    requires IsEventId(id)
    ensures ReplyTo("--reply-to " + id + after) == Some(id)
  {
    HexIsNoSpace(id[0]);
    hide IsSpace, IsHex, StartsWith;
    var text, rest := "--reply-to " + id + after, id + after;
    assert text == REPLY_OPTION + (" " + rest);
    StartsWithItself(REPLY_OPTION, " " + rest);
    assert text[10..] == " " + rest;
    SkipOneSpace(rest);
    assert rest[..64] == id;
  }

  /** The lines up to the channel line. */
  function Preamble(c: Context): Lines { Opening(c) + [ChannelLine(c)] }

  /** The text of a context before its printed anchor, or all of it if there is none. */
  function Before(c: Context): string {
    JoinLines(Preamble(c)) + (if c.replyTo.Some? then "\nThread root: " + c.replyTo.value + "\nIMPORTANT: use " else "")
  }

  lemma JoinStep(line: Line, rest: Lines)
    ensures JoinLines([line] + rest) == line + "\n" + JoinLines(rest)
  {
    assert ([line] + rest)[1..] == rest;
  }

  /** Joining in two parts: the first lines, a line feed, and the rest. */
  lemma {:induction false} JoinConcat(xs: Lines, ys: Lines)
    ensures JoinLines(xs + ys) == JoinLines(xs) + "\n" + JoinLines(ys)
  {
    if |xs| == 1 {
      assert xs == [xs[0]];
      JoinStep(xs[0], ys);
    } else {
      var rest: Lines := xs[1..];
      assert xs == [xs[0]] + rest && xs + ys == [xs[0]] + (rest + ys);
      JoinStep(xs[0], rest + ys);
      JoinConcat(rest, ys);
    }
  }

  lemma JoinClosing(c: Context)
    requires c.replyTo.Some?
    ensures JoinLines(Closing(c))
        == "Thread root: " + c.replyTo.value + "\nIMPORTANT: use " + ['`'] + ("--reply-to " + c.replyTo.value + "`.")
  {
    var root, last := RootLine(c.replyTo.value), AnchorLine(c.replyTo.value);
    assert Closing(c) == [root] + [last];
    JoinStep(root, [last]);
    assert last == "IMPORTANT: use " + ['`'] + ("--reply-to " + c.replyTo.value + "`.");
  }

  /** The parser takes the first anchor before the printed one or, if there is none, the printed one. */
  lemma AnchorAfterText(c: Context)
    requires ValidContext(c)
    ensures ReplyTo(JoinLines(PrintContext(c))) == if ReplyTo(Before(c)).Some? then ReplyTo(Before(c)) else c.replyTo
  {
    hide ReplyTo, JoinLines, IsEventId, IsChannelId, Opening, ChannelLine, Closing;
    assert PrintContext(c) == Preamble(c) + Closing(c);
    if c.replyTo.Some? {
      var id: string := c.replyTo.value;
      var before, after := Before(c), "--reply-to " + id + "`.";
      assert Closing(c) != [] by { ClosingIsThere(c); }
      JoinConcat(Preamble(c), Closing(c));
      JoinClosing(c);
      assert JoinLines(PrintContext(c)) == before + ['`'] + after;
      FirstAnchor(before, after);
      AnchorReadsBack(id, "`.");
    } else {
      assert Closing(c) == [] by { ClosingIsThere(c); }
      assert PrintContext(c) == Preamble(c) && Before(c) == JoinLines(Preamble(c));
    }
  }

  lemma ClosingIsThere(c: Context)
    ensures Closing(c) == [] <==> c.replyTo.None?
  {
  }

  // What an anchor is, said without the parser: the option, white space, and 64 hexadecimal digits.

  predicate AnchorWith(text: string, i: nat, blanks: nat, id: string) {
    && blanks > 0 && i + 74 + blanks <= |text|
    && StartsWith(text[i..], "--reply-to")
    && Blank(text[i + 10..i + 10 + blanks])
    && text[i + 10 + blanks..i + 74 + blanks] == id && IsHex(id)
  }

  ghost predicate AnchorAt(text: string, i: nat, id: string) { exists blanks: nat :: AnchorWith(text, i, blanks, id) }

  ghost predicate FirstAnchorAt(text: string, i: nat, id: string) {
    AnchorAt(text, i, id) && forall j: nat, other: string :: j < i ==> !AnchorAt(text, j, other)
  }

  lemma AnchorIsRead(text: string, i: nat, blanks: nat, id: string)
    requires AnchorWith(text, i, blanks, id)
    ensures ReplyHere(text[i..]) == Some(id)
  {
    hide StartsWith, TrimLeft;
    var blank, after := text[i + 10..i + 10 + blanks], text[i + 10 + blanks..];
    assert text[i..][10..] == blank + after;
    TrimLeftBlankPrefix(blank, after);
    assert after[..64] == id;
    assert IsHexDigit(id[0]) && after[0] == id[0];
    HexIsNoSpace(after[0]);
    TrimLeftOfPlain(after);
  }

  lemma TrimLeftOfPlain(s: string)
    requires s != "" && !IsSpace(s[0])
    ensures TrimLeft(s) == s
  {
  }

  lemma ReadIsAnchor(text: string, i: nat)
    requires i <= |text| && ReplyHere(text[i..]).Some?
    ensures AnchorAt(text, i, ReplyHere(text[i..]).value)
  {
    var tail := text[i..];
    OptionHasNoTick(0);
    var rest := TrimLeft(tail[10..]);
    var blanks := |tail| - 10 - |rest|;
    TrimLeftTakesBlank(tail[10..]);
    hide StartsWith, TrimLeft, Blank, IsHex;
    assert tail[10..][..blanks] == text[i + 10..i + 10 + blanks];
    assert rest[..64] == text[i + 10 + blanks..i + 74 + blanks];
    assert AnchorWith(text, i, blanks, rest[..64]);
  }

  /** The parser's look at one position finds exactly the anchor that stands there. */
  lemma AnchorMeans(text: string, i: nat, id: string)
    ensures AnchorAt(text, i, id) <==> i <= |text| && ReplyHere(text[i..]) == Some(id)
  {
    hide ReplyHere, AnchorWith;
    if AnchorAt(text, i, id) {
      var blanks: nat :| AnchorWith(text, i, blanks, id);
      AnchorInside(text, i, blanks, id);
      AnchorIsRead(text, i, blanks, id);
    }
    if i <= |text| && ReplyHere(text[i..]) == Some(id) {
      ReadIsAnchor(text, i);
    }
  }

  lemma AnchorInside(text: string, i: nat, blanks: nat, id: string)
    requires AnchorWith(text, i, blanks, id)
    ensures i <= |text|
  {
  }

  /** The first position from `from` on at which the parser finds an anchor. */
  predicate FirstReplyAt(text: string, from: nat, i: int) {
    && from <= i < |text| && ReplyHere(text[i..]).Some?
    && forall j :: from <= j < i ==> ReplyHere(text[j..]).None?
  }

  lemma {:induction false} ReplyToFrom(text: string, from: nat)
    requires from <= |text|
    ensures ReplyTo(text[from..]).None? ==> forall j :: from <= j < |text| ==> ReplyHere(text[j..]).None?
    ensures forall i :: FirstReplyAt(text, from, i) ==> ReplyTo(text[from..]) == ReplyHere(text[i..])
    decreases |text| - from
  {
    hide ReplyHere;
    if from < |text| {
      assert text[from..][1..] == text[from + 1..];
      ReplyToFrom(text, from + 1);
    }
  }

  lemma NoAnchorAtEnd(text: string)
    ensures ReplyHere(text[|text|..]).None?
  {
    OptionHasNoTick(0);
  }

  lemma {:induction false} LeastAnchor(text: string, i: nat, id: string) returns (first: nat, found: string)
    requires AnchorAt(text, i, id)
    ensures first <= i && FirstAnchorAt(text, first, found)
  {
    hide AnchorAt;
    if j: nat, other: string :| j < i && AnchorAt(text, j, other) {
      first, found := LeastAnchor(text, j, other);
    } else {
      first, found := i, id;
    }
  }

  /** The parser takes exactly the first anchor of a text. */
  lemma ReplyToMeans(text: string)
    ensures forall i: nat, id: string :: FirstAnchorAt(text, i, id) ==> ReplyTo(text) == Some(id)
    ensures ReplyTo(text).Some? ==> exists i: nat :: FirstAnchorAt(text, i, ReplyTo(text).value)
  {
    hide ReplyHere, AnchorAt, ReplyTo;
    assert text[0..] == text;
    ReplyToFrom(text, 0);
    forall i: nat, id: string | FirstAnchorAt(text, i, id) ensures ReplyTo(text) == Some(id) {
      AnchorMeans(text, i, id);
      NoAnchorAtEnd(text);
      forall j | 0 <= j < i ensures ReplyHere(text[j..]).None? {
        if ReplyHere(text[j..]).Some? { AnchorMeans(text, j, ReplyHere(text[j..]).value); }
      }
    }
    if ReplyTo(text).Some? {
      NothingThenNone(text);
      var i: nat :| i < |text| && ReplyHere(text[i..]).Some?;
      AnchorMeans(text, i, ReplyHere(text[i..]).value);
      var first, found := LeastAnchor(text, i, ReplyHere(text[i..]).value);
    }
  }

  lemma {:induction false} NothingThenNone(text: string)
    requires ReplyTo(text).Some?
    ensures exists i: nat :: i < |text| && ReplyHere(text[i..]).Some?
  {
    hide ReplyHere;
    assert text[0..] == text;
    if ReplyHere(text).None? {
      NothingThenNone(text[1..]);
      var i: nat :| i < |text[1..]| && ReplyHere(text[1..][i..]).Some?;
      assert text[1..][i..] == text[i + 1..];
    }
  }

  /** The first anchor before the printed one, if there is any, carries the printed id. */
  ghost predicate KeepsAnchor(c: Context) {
    forall i: nat, id: string :: FirstAnchorAt(Before(c), i, id) ==> c.replyTo == Some(id)
  }

  /**
   The anchor read from a context is the first one in its text, and it is its own exactly if no other
   one comes before it.
   */
  lemma ContextAnchor(c: Context)
    requires ValidContext(c)
    ensures var read := ReplyTo(JoinLines(PrintContext(c)));
            && (forall i: nat, id: string :: FirstAnchorAt(Before(c), i, id) ==> read == Some(id))
            && (read == c.replyTo <==> KeepsAnchor(c))
  {
    hide ReplyTo, JoinLines, PrintContext, FirstAnchorAt, Before, IsEventId, IsChannelId;
    AnchorAfterText(c);
    ReplyToMeans(Before(c));
  }

  lemma {:induction false} NoDashNoAnchor(prefix: string, text: string)
    requires '-' !in prefix
    ensures ReplyTo(prefix + text) == ReplyTo(text)
  {
    if prefix == "" {
      assert prefix + text == text;
    } else {
      assert (prefix + text)[1..] == prefix[1..] + text;
      assert REPLY_OPTION[0] == '-';
      assert prefix[0] in prefix && Lower(prefix[0]) != '-';
      DifferentStart(prefix + text, REPLY_OPTION, 0);
      NoDashNoAnchor(prefix[1..], text);
    }
  }

  /** The text of a context after the first line of its scope, up to its printed anchor. */
  function AfterScope(c: Context): string {
    "\n" + ChannelLine(c) + (if c.replyTo.Some? then "\nThread root: " + c.replyTo.value + "\nIMPORTANT: use " else "")
  }

  lemma BeforeStartsWithScope(c: Context)
    requires |c.scope| == 1
    ensures Before(c) == "[Context]\nScope: " + (c.scope[0] + AfterScope(c))
  {
    hide JoinLines, ChannelLine;
    var scope := ScopeLine(c.scope[0]);
    assert Preamble(c) == [CONTEXT_TITLE] + ([scope] + [ChannelLine(c)]);
    JoinStep(CONTEXT_TITLE, [scope] + [ChannelLine(c)]);
    JoinStep(scope, [ChannelLine(c)]);
    JoinSingle(ChannelLine(c));
  }

  lemma OpeningHasNoDash(text: string)
    ensures ReplyTo("[Context]\nScope: " + text) == ReplyTo(text)
  {
    hide ReplyTo;
    NoDashNoAnchor("[Context]\nScope: ", text);
  }

  /** A scope that mentions the option and an id takes the anchor over. */
  lemma ScopeTakesAnchor(c: Context, id: Line)
    requires ValidContext(c) && IsEventId(id) && c.replyTo != Some(id)
    requires c.scope == ["--reply-to " + id]
    ensures ReplyTo(JoinLines(PrintContext(c))) == Some(id) && !KeepsAnchor(c)
  {
    hide ReplyTo, JoinLines, PrintContext, IsEventId, IsChannelId, ChannelLine, KeepsAnchor, Before, AfterScope;
    BeforeStartsWithScope(c);
    OpeningHasNoDash("--reply-to " + id + AfterScope(c));
    AnchorReadsBack(id, AfterScope(c));
    AnchorAfterText(c);
    ContextAnchor(c);
  }

  lemma JoinSingle(line: Line)
    ensures JoinLines([line]) == line
  {
  }

  // ------------------------------------------------------------ the whole prompt

  /**
   A printed prompt always reads back as a route about its triggering event, unless one imitated header
   spoils a batch. The route is the printed one, channel and anchor too, exactly if neither the scope
   brings up another channel nor anything before the printed anchor another anchor.
   */
  lemma PromptRoundTrip(c: Context, ev: Events)
    requires ValidContext(c) && ValidEvents(ev)
    ensures var r := ParseRoute(Blocks([TextBlock(PrintContext(c)), TextBlock(PrintEvents(ev))]));
            && (if Imitates(ev) then r.None? else r.Some? && r.value.triggeringEventId == TriggerOf(ev))
            && (r == Some(BuzzRoute(c.channelId, TriggerOf(ev), c.replyTo))
                <==> !Imitates(ev) && KeepsChannel(c) && KeepsAnchor(c))
  {
    hide PrintEvents, PrintContext, Channel, ReplyTo, TriggeringEventIds, ValidEvents, ValidContext, TriggerOf;
    hide Imitates, KeepsChannel, KeepsAnchor, IsContext;
    var context, events := TextBlock(PrintContext(c)), TextBlock(PrintEvents(ev));
    ContextShape(c);
    EventsAreNoContext(ev);
    EventsReadBack(ev);
    ContextChannel(c);
    ContextAnchor(c);
    TwoBlocks(context, events, ContextOf);
    TwoBlocks(context, events, EventIdsOf);
  }

  lemma ContextShape(c: Context)
    ensures IsContext(TextBlock(PrintContext(c))) && EventIdsOf(TextBlock(PrintContext(c))) == []
  {
    hide ChannelLine, Closing;
    var lines := PrintContext(c);
    assert lines[0] == CONTEXT_TITLE && lines[0][1] == 'C';
    TitleCarriesNoEvent(lines);
  }

  lemma TwoBlocks<B>(x: Block, y: Block, f: Block -> seq<B>)
    ensures FlatMap([x, y], f) == f(x) + f(y)
  {
    assert [x, y][1..] == [y] && [y][1..] == [];
    assert FlatMap([y], f) == f(y);
  }
}
