/** Printing a batch of Buzz events the way Buzz frames it, and reading it back. */
module BuzzBatch {
  import opened Wrappers
  import opened Text
  import opened BuzzContext

  /** One event of a batch; the body is whatever lines follow its Channel line. */
  datatype Entry = Entry(trigger: Line, id: Line, channel: Line, body: seq<Line>)

  function Numeral(n: nat): (r: Line)
    ensures r == PrintNat(n)
  {
    DigitsAreLine(PrintNat(n));
    PrintNat(n)
  }

  function HeaderLine(number: nat, trigger: Line): Line { "--- Event " + Numeral(number) + " (" + trigger + ") ---" }

  function IdLine(id: Line): Line { "Event ID: " + id }

  function LabelLine(channel: Line): Line { "Channel: " + channel }

  function EntryHead(number: nat, e: Entry): seq<Line> {
    [HeaderLine(number, e.trigger), IdLine(e.id), LabelLine(e.channel)]
  }

  /** The events from number `number` on, separated by one empty line. */
  function PrintEntries(number: nat, es: seq<Entry>): seq<Line>
    decreases |es|
  {
    if es == [] then []
    else EntryHead(number, es[0]) + es[0].body + (if |es| == 1 then [] else [""] + PrintEntries(number + 1, es[1..]))
  }

  function TitleLine(kind: BatchKind, n: nat): Line { BatchPrefix(kind) + " " + Numeral(n) + " events]" }

  function PrintBatch(kind: BatchKind, es: seq<Entry>): Lines {
    [TitleLine(kind, |es|), ""] + PrintEntries(1, es)
  }

  // ------------------------------------------------------------ reading one header back

  lemma {:induction false} LeadingDigitsOf(digits: string, rest: string)
    requires forall i :: 0 <= i < |digits| ==> IsDigit(digits[i])
    requires rest != "" ==> !IsDigit(rest[0])
    ensures LeadingDigits(digits + rest) == digits
  {
    if digits == "" {
      assert digits + rest == rest;
    } else {
      assert (digits + rest)[1..] == digits[1..] + rest;
      LeadingDigitsOf(digits[1..], rest);
    }
  }

  /** Digits between the two fixed parts of a header line read back, whatever the label. */
  lemma HeaderShape(digits: string, trigger: string)
    requires IsDigits(digits)
    ensures HeaderDigits("--- Event " + digits + " (" + trigger + ") ---") == Some(digits)
  {
    var tail := " (" + trigger + ") ---";
    var line := "--- Event " + digits + " (" + trigger + ") ---";
    assert line == "--- Event " + (digits + tail);
    assert line[..10] == "--- Event ";
    assert line[10..] == digits + tail;
    LeadingDigitsOf(digits, tail);
    assert line[10 + |digits|..] == tail;
    assert tail[..2] == " (";
    assert tail[|tail| - 5..] == ") ---";
  }

  lemma HeaderLineReadsBack(number: nat, trigger: Line)
    ensures HeaderDigits(HeaderLine(number, trigger)) == Some(PrintNat(number))
  {
    hide HeaderDigits, PrintNat;
    HeaderShape(PrintNat(number), trigger);
  }

  /** The first dash of a header keeps it from being an event id, a label line or blank. */
  lemma HeaderStartsWithDash(line: string)
    requires HeaderDigits(line).Some?
    ensures line != "" && line[0] == '-' && !Blank(line) && !IsEventId(TrimLeft(line))
  {
    hide IsEventId, TrimLeft, Blank;
    assert Lower(line[..10][0]) == Lower("--- Event "[0]);
    DashIsPlain(line);
  }

  lemma DashIsPlain(line: string)
    requires line != "" && line[0] == '-'
    ensures !Blank(line) && !IsEventId(TrimLeft(line))
  {
    assert TrimLeft(line) == line && !IsHexDigit(line[0]);
  }

  lemma IdLineReadsBack(id: Line, channel: Line, after: seq<Line>)
    requires IsEventId(id)
    ensures EventId([IdLine(id), LabelLine(channel)] + after) == Some(id)
  {
    var line := "Event ID: " + id;
    assert line[..9] == "Event ID:";
    assert line[9..] == " " + id;
    assert IsHexDigit(id[0]) && !IsSpace(id[0]);
    assert !Blank(" " + id) by { assert (" " + id)[1] == id[0]; }
    assert TrimLeft(" " + id) == TrimLeft(id) == id by { assert (" " + id)[1..] == id; }
    assert ("Channel: " + channel)[..8] == "Channel:";
  }

  lemma NoHeader(line: string)
    requires line == "" || (Lower(line[0]) != '-')
    ensures HeaderDigits(line).None?
  {
    if line != "" {
      assert Lower("--- Event "[0]) == '-';
      DifferentStart(line, "--- Event ", 0);
    }
  }

  lemma SkipLine(line: Line, after: seq<Line>)
    requires HeaderDigits(line).None?
    ensures AllEvents([line] + after) == AllEvents(after)
  {
    assert ([line] + after)[1..] == after;
  }

  lemma LabelsAreNoHeaders(id: Line, channel: Line)
    ensures HeaderDigits(IdLine(id)).None? && HeaderDigits(LabelLine(channel)).None?
  {
    NoHeader(IdLine(id));
    NoHeader(LabelLine(channel));
  }

  /** The three head lines of an entry yield exactly its event. */
  lemma EntryHeadReadsBack(number: nat, e: Entry, after: seq<Line>)
    requires IsEventId(e.id)
    ensures AllEvents(EntryHead(number, e) + after) == [EventHeader(number, e.id)] + AllEvents(after)
  {
    hide HeaderDigits, EventId, HeaderLine, PrintNat, ParseNat, IsEventId, IdLine, LabelLine;
    HeaderLineReadsBack(number, e.trigger);
    NatRoundTrip(number);
    IdLineReadsBack(e.id, e.channel, after);
    LabelsAreNoHeaders(e.id, e.channel);
    HeadThenRest(HeaderLine(number, e.trigger), IdLine(e.id), LabelLine(e.channel), after);
  }

  lemma HeadThenRest(header: Line, idLine: Line, channelLine: Line, after: seq<Line>)
    requires HeaderDigits(header).Some? && EventId([idLine, channelLine] + after).Some?
    requires HeaderDigits(idLine).None? && HeaderDigits(channelLine).None?
    ensures AllEvents([header, idLine, channelLine] + after)
         == [EventHeader(ParseNat(HeaderDigits(header).value), EventId([idLine, channelLine] + after).value)]
             + AllEvents(after)
  {
    hide HeaderDigits, EventId, ParseNat;
    var all := [header, idLine, channelLine] + after;
    assert all[1..] == [idLine, channelLine] + after;
    assert [idLine, channelLine] + after == [idLine] + ([channelLine] + after);
    SkipLine(idLine, [channelLine] + after);
    SkipLine(channelLine, after);
  }

  // ------------------------------------------------------------ bodies stand on their own

  lemma {:induction false} SkipBlankConcat(a: seq<Line>, b: seq<Line>)
    ensures SkipBlank(a + [""] + b) == if SkipBlank(a) == [] then SkipBlank(b) else SkipBlank(a) + [""] + b
  {
    if a == [] {
      assert a + [""] + b == [""] + b;
      assert ([""] + b)[1..] == b;
    } else {
      assert (a + [""] + b)[1..] == a[1..] + [""] + b;
      SkipBlankConcat(a[1..], b);
    }
  }

  /** An id that a body leaves open is not completed by the empty line and the header after it. */
  lemma EventIdConcat(a: seq<Line>, b: seq<Line>)
    requires a != []
    requires b != [] ==> HeaderDigits(b[0]).Some?
    ensures EventId(a + [""] + b) == EventId(a)
  {
    var all := a + [""] + b;
    assert all[0] == a[0];
    if StartsWith(a[0], "Event ID:") {
      var rest := a[0][9..];
      if Blank(rest) {
        assert all[1..] == a[1..] + [""] + b;
        SkipBlankConcat(a[1..], b);
        if SkipBlank(a[1..]) == [] && b != [] {
          HeaderStartsWithDash(b[0]);
        }
      } else {
        assert [rest] + all[1..] == [rest] + a[1..] + [""] + b;
      }
    }
  }

  lemma HeadEventConcat(a: seq<Line>, b: seq<Line>)
    requires a != []
    requires b != [] ==> HeaderDigits(b[0]).Some?
    ensures HeadEvent(a + [""] + b) == HeadEvent(a)
  {
    var all := a + [""] + b;
    assert all[0] == a[0] && all[1..] == a[1..] + [""] + b;
    if |a| > 1 {
      EventIdConcat(a[1..], b);
    } else {
      assert all[1..][0] == "";
    }
  }

  lemma {:induction false} AllEventsConcat(a: seq<Line>, b: seq<Line>)
    requires b != [] ==> HeaderDigits(b[0]).Some?
    ensures AllEvents(a + [""] + b) == AllEvents(a) + AllEvents(b)
  {
    hide HeadEvent, HeaderDigits;
    if a == [] {
      assert a + [""] + b == [""] + b;
      NoHeader("");
      SkipLine("", b);
    } else {
      assert (a + [""] + b)[1..] == a[1..] + [""] + b;
      HeadEventConcat(a, b);
      AllEventsConcat(a[1..], b);
    }
  }

  // ------------------------------------------------------------ the whole batch

  predicate ValidIds(es: seq<Entry>) { forall i :: 0 <= i < |es| ==> IsEventId(es[i].id) }

  /** How many complete event headers the bodies imitate. */
  function Forged(es: seq<Entry>): nat {
    if es == [] then 0 else |AllEvents(es[0].body)| + Forged(es[1..])
  }

  function Announced(number: nat, es: seq<Entry>): seq<EventHeader> {
    seq(|es|, (i: nat) requires i < |es| => EventHeader(number + i, es[i].id))
  }

  lemma PrintedHead(number: nat, es: seq<Entry>)
    requires es != []
    ensures PrintEntries(number, es) != [] && PrintEntries(number, es)[0] == HeaderLine(number, es[0].trigger)
  {
  }

  lemma NoEvents()
    ensures AllEvents([]) == []
  {
  }

  lemma PrintOne(number: nat, es: seq<Entry>)
    requires |es| > 1
    ensures PrintEntries(number, es)
        == EntryHead(number, es[0]) + (es[0].body + [""] + PrintEntries(number + 1, es[1..]))
  {
    hide EntryHead;
    var others := PrintEntries(number + 1, es[1..]);
    assert EntryHead(number, es[0]) + es[0].body + ([""] + others)
        == EntryHead(number, es[0]) + (es[0].body + [""] + others);
  }

  /** One entry and what follows it: its own event, whatever its body imitates, and the rest. */
  lemma EntryReadsBack(number: nat, es: seq<Entry>)
    requires es != [] && ValidIds(es)
    ensures AllEvents(PrintEntries(number, es))
         == [EventHeader(number, es[0].id)] + AllEvents(es[0].body) + AllEvents(PrintEntries(number + 1, es[1..]))
  {
    hide AllEvents, HeadEvent, EventId, HeaderDigits, EntryHead, HeaderLine, PrintEntries, IsEventId;
    var e, body := es[0], es[0].body;
    if |es| == 1 {
      LastEntry(number, e);
      assert es == [e] && es[1..] == [];
      EntryHeadReadsBack(number, e, body);
      NoEvents();
    } else {
      var others := PrintEntries(number + 1, es[1..]);
      PrintOne(number, es);
      EntryHeadReadsBack(number, e, body + [""] + others);
      HeaderLineReadsBack(number + 1, es[1].trigger);
      PrintedHead(number + 1, es[1..]);
      AllEventsConcat(body, others);
    }
  }

  lemma LastEntry(number: nat, e: Entry)
    ensures PrintEntries(number, [e]) == EntryHead(number, e) + e.body && PrintEntries(number + 1, []) == []
  {
    hide EntryHead;
  }

  lemma {:induction false} EntriesReadBack(number: nat, es: seq<Entry>)
    requires ValidIds(es)
    ensures |AllEvents(PrintEntries(number, es))| == |es| + Forged(es)
    ensures Forged(es) == 0 ==> AllEvents(PrintEntries(number, es)) == Announced(number, es)
    decreases |es|
  {
    hide AllEvents, HeadEvent, EventId, HeaderDigits, EntryHead, HeaderLine;
    if es == [] {
      NoEvents();
    } else {
      EntryReadsBack(number, es);
      EntriesReadBack(number + 1, es[1..]);
      if Forged(es) == 0 {
        assert Announced(number, es) == [EventHeader(number, es[0].id)] + Announced(number + 1, es[1..]);
      }
    }
  }

  lemma SkipOneSpace(s: string)
    requires s != "" && !IsSpace(s[0])
    ensures TrimLeft(" " + s) == s
  {
    assert (" " + s)[1..] == s;
  }

  lemma NumberReadsBack(n: nat)
    requires 2 <= n <= MAX_SAFE_INTEGER
    ensures CountIn(PrintNat(n) + " events]") == Some(n)
  {
    var digits := PrintNat(n);
    var tail := " events]";
    LeadingDigitsOf(digits, tail);
    assert (digits + tail)[|digits|..] == tail;
    assert StartsWith(tail, tail) by { assert tail[..|tail|] == tail; }
    NatRoundTrip(n);
  }

  lemma TitleCounts(prefix: string, n: nat, lines: Lines)
    requires 2 <= n <= MAX_SAFE_INTEGER
    requires lines[0] == prefix + (" " + (PrintNat(n) + " events]"))
    ensures CountAfterPrefix(lines, prefix) == Some(n)
  {
    hide CountIn, PrintNat, TrimLeft;
    var number := PrintNat(n) + " events]";
    var line := lines[0];
    assert line[..|prefix|] == prefix;
    assert line[|prefix|..] == " " + number;
    assert IsDigit(number[0]);
    SkipOneSpace(number);
    NumberReadsBack(n);
  }

  lemma MarkLetters()
    ensures "[Buzz event:"[1] == 'B' && "[Buzz event:"[11] == ':'
    ensures |NEW_MESSAGE| > 12 && NEW_MESSAGE[1] == 'N' && NEW_MESSAGE[5] == 'm' && NEW_MESSAGE[12] == ' '
    ensures |NEW_REQUEST| > 34 && NEW_REQUEST[1] == 'N' && NEW_REQUEST[5] == 'r' && NEW_REQUEST[34] == ']'
  {
  }

  lemma CollectedLetters()
    ensures var p := BatchPrefix(Collected); |p| > 11 && p[0] == '[' && p[1] == 'B' && p[11] == 's'
  {
  }

  lemma ArrivedLetters()
    ensures var p := BatchPrefix(Arrived); |p| > 12 && p[0] == '[' && p[1] == 'N' && p[5] == 'm' && p[12] == 's'
  {
  }

  lemma SupersedingLetters()
    ensures var p := BatchPrefix(Superseding); |p| > 34 && p[0] == '[' && p[1] == 'N' && p[5] == 'r' && p[34] == ' '
  {
  }

  /** The letters in which the block titles differ, seen in a line that starts with prefix p. */
  lemma DiffersAt(line: string, p: string, other: string, i: nat)
    requires StartsWith(line, p) && i < |p| && i < |other| && Lower(p[i]) != Lower(other[i])
    ensures !StartsWith(line, other) && !SameIgnoringCase(line, other)
  {
    assert Lower(line[..|p|][i]) == Lower(p[i]);
    DifferentStart(line, other, i);
  }

  /** The title of a batch is no other kind of block. */
  lemma TitleIsUnambiguous(kind: BatchKind, line: string)
    requires StartsWith(line, BatchPrefix(kind))
    ensures !StartsWith(line, "[Buzz event:") && !SameIgnoringCase(line, NEW_MESSAGE)
        && !SameIgnoringCase(line, NEW_REQUEST)
    ensures forall other: BatchKind :: other != kind ==> !StartsWith(line, BatchPrefix(other))
  {
    var c, a, s := BatchPrefix(Collected), BatchPrefix(Arrived), BatchPrefix(Superseding);
    CollectedLetters();
    ArrivedLetters();
    SupersedingLetters();
    MarkLetters();
    var p := BatchPrefix(kind);
    DiffersAt(line, p, "[Buzz event:", if kind == Collected then 11 else 1);
    DiffersAt(line, p, NEW_MESSAGE, match kind case Collected => 1 case Arrived => 12 case Superseding => 5);
    DiffersAt(line, p, NEW_REQUEST, match kind case Collected => 1 case Arrived => 5 case Superseding => 34);
    forall other: BatchKind | other != kind ensures !StartsWith(line, BatchPrefix(other)) {
      DiffersAt(line, p, BatchPrefix(other), if kind == Collected || other == Collected then 1 else 5);
    }
  }

  lemma TitleNoHeader(kind: BatchKind, n: nat)
    ensures HeaderDigits(TitleLine(kind, n)).None?
  {
    CollectedLetters();
    ArrivedLetters();
    SupersedingLetters();
    assert TitleLine(kind, n)[0] == BatchPrefix(kind)[0] == '[';
    NoHeader(TitleLine(kind, n));
  }

  lemma UnmatchedPrefix(lines: Lines, prefix: string)
    requires !StartsWith(lines[0], prefix)
    ensures CountAfterPrefix(lines, prefix).None?
  {
  }

  /** The parser takes a printed batch for a batch of its kind and size, and for nothing else. */
  lemma TitleReadsBack(kind: BatchKind, n: nat, lines: Lines)
    requires 2 <= n <= MAX_SAFE_INTEGER && lines[0] == TitleLine(kind, n)
    ensures SingleEvent(lines).None? && NewSingleEvent(lines).None? && EventCount(lines) == Some(n)
  {
    hide BatchPrefix, PrintNat, CountAfterPrefix, EventId, HeaderDigits, SameIgnoringCase;
    var p := BatchPrefix(kind);
    assert lines[0] == p + (" " + (PrintNat(n) + " events]"));
    TitleCounts(p, n, lines);
    assert lines[0][..|p|] == p;
    TitleIsUnambiguous(kind, lines[0]);
    forall other: BatchKind | other != kind ensures CountAfter(lines, other).None? {
      UnmatchedPrefix(lines, BatchPrefix(other));
    }
    assert CountAfter(lines, kind) == Some(n);
  }

  /**
   A printed batch of at least two events reads back as its last event exactly when no body holds a
   complete event header; one imitated header, whatever its number, makes the parser reject the batch.
   */
  lemma BatchRoundTrip(kind: BatchKind, es: seq<Entry>)
    requires 2 <= |es| <= MAX_SAFE_INTEGER && ValidIds(es)
    ensures TriggeringEventIds(PrintBatch(kind, es)) == if Forged(es) == 0 then [es[|es| - 1].id] else []
  {
    hide AllEvents, HeadEvent, EventId, HeaderDigits, TitleLine, PrintEntries, EventCount, SingleEvent, NewSingleEvent;
    var lines := PrintBatch(kind, es);
    var title, entries := TitleLine(kind, |es|), PrintEntries(1, es);
    assert lines == [title] + ([""] + entries);
    TitleReadsBack(kind, |es|, lines);
    EntriesReadBack(1, es);
    TitleNoHeader(kind, |es|);
    SkipLine(title, [""] + entries);
    NoHeader("");
    SkipLine("", entries);
    assert AllEvents(lines) == AllEvents(entries);
  }

  lemma {:induction false} ForgedSomewhere(es: seq<Entry>, i: nat)
    requires i < |es| && AllEvents(es[i].body) != []
    ensures Forged(es) > 0
  {
    hide AllEvents;
    if i > 0 { ForgedSomewhere(es[1..], i - 1); }
  }

  /** One body that quotes the head of another event, under any number, spoils the whole batch. */
  lemma QuotedHeadSpoilsBatch(kind: BatchKind, es: seq<Entry>, i: nat, number: nat, quoted: Entry)
    requires 2 <= |es| <= MAX_SAFE_INTEGER && ValidIds(es) && IsEventId(quoted.id)
    requires i < |es| && EntryHead(number, quoted) <= es[i].body
    ensures TriggeringEventIds(PrintBatch(kind, es)) == []
  {
    hide AllEvents, TriggeringEventIds, PrintBatch, EntryHead;
    var body := es[i].body;
    assert body == EntryHead(number, quoted) + body[|EntryHead(number, quoted)|..];
    EntryHeadReadsBack(number, quoted, body[|EntryHead(number, quoted)|..]);
    ForgedSomewhere(es, i);
    BatchRoundTrip(kind, es);
  }

  // ------------------------------------------------------------ accepted batches

  predicate HeaderAt(lines: seq<Line>, i: nat) { i < |lines| && HeadEvent(lines[i..]).Some? }

  /** The lines from `from` on, in order, at which a complete event header stands. */
  ghost predicate HeaderPositions(lines: seq<Line>, from: nat, at: seq<nat>) {
    && (forall j :: 0 <= j < |at| ==> from <= at[j] && HeaderAt(lines, at[j]))
    && (forall j, k :: 0 <= j < k < |at| ==> at[j] < at[k])
    && (forall i: nat :: from <= i && HeaderAt(lines, i) ==> i in at)
  }

  lemma {:induction false} EventsHavePositions(lines: seq<Line>, from: nat) returns (at: seq<nat>)
    requires from <= |lines|
    ensures HeaderPositions(lines, from, at) && |at| == |AllEvents(lines[from..])|
    ensures forall j :: 0 <= j < |at| ==> HeadEvent(lines[at[j]..]) == Some(AllEvents(lines[from..])[j])
    decreases |lines| - from
  {
    hide HeadEvent;
    if from == |lines| {
      at := [];
    } else {
      var later := EventsHavePositions(lines, from + 1);
      assert lines[from..][1..] == lines[from + 1..];
      at := (if HeaderAt(lines, from) then [from] else []) + later;
    }
  }

  /**
   Any block accepted as a batch announces n >= 2 events, has exactly n complete headers, the j-th of
   them numbered j, and yields the id under header n.
   */
  lemma AcceptedBatch(lines: Lines) returns (at: seq<nat>)
    requires SingleEvent(lines).None? && NewSingleEvent(lines).None? && TriggeringEventIds(lines) != []
    ensures HeaderPositions(lines, 0, at) && |at| >= 2 && EventCount(lines) == Some(|at|)
    ensures forall j :: 0 <= j < |at| ==> HeadEvent(lines[at[j]..]).value.number == j + 1
    ensures TriggeringEventIds(lines) == [HeadEvent(lines[at[|at| - 1]..]).value.id]
  {
    hide HeadEvent, SingleEvent, NewSingleEvent, EventCount;
    assert lines[0..] == lines;
    at := EventsHavePositions(lines, 0);
  }
}
