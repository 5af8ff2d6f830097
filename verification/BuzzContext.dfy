/**
 The route parser of the Buzz adapter. A text block is the sequence of its lines, and no line holds a
 line terminator. The patterns of the source become line shapes, including the places where their
 white space may run over blank lines.
 */
module BuzzContext {
  import opened Wrappers
  import opened Sequences
  import opened Text

  type Lines = ls: seq<Line> | ls != [] witness [""]

  datatype Block = TextBlock(lines: Lines) | OtherBlock(json: string)

  datatype Prompt = NotAnArray | Blocks(blocks: seq<Block>)

  datatype BuzzRoute = BuzzRoute(channelId: string, triggeringEventId: string, replyTo: Option<string>)

  // ------------------------------------------------------------ identifiers

  predicate IsEventId(s: string) { |s| == 64 && IsHex(s) }

  /** 8-4-4-4-12 hexadecimal digits. */
  predicate IsChannelId(s: string) {
    && |s| == 36
    && forall i :: 0 <= i < 36 ==> if i in {8, 13, 18, 23} then s[i] == '-' else IsHexDigit(s[i])
  }

  function SkipBlank(lines: seq<string>): seq<string> {
    if lines == [] || !Blank(lines[0]) then lines else SkipBlank(lines[1..])
  }

  // ------------------------------------------------------------ the context block

  /** Line 12: the first line is [Context] and white space. */
  predicate IsContext(b: Block) {
    b.TextBlock? && var first := b.lines[0]; "[Context]" <= first && Blank(first[9..])
  }

  /** The text after a label: the rest of its line or, if that is blank, the next line that is not. */
  function Value(rest: string, after: seq<string>): string {
    if !Blank(rest) then Trim(rest)
    else var next := SkipBlank(after); if next == [] then "" else Trim(next[0])
  }

  /** A channel id, or any text ending in one in parentheses after a hash sign. */
  function ChannelIn(value: string): Option<string> {
    var n := |value|;
    if n >= 39 && value[n - 39..n - 37] == "(#" && IsChannelId(value[n - 37..n - 1]) && value[n - 1] == ')'
    then Some(value[n - 37..n - 1])
    else if IsChannelId(value) then Some(value)
    else None
  }

  /** Lines 15-18: the first Channel line that carries an id. */
  function Channel(lines: seq<string>): (r: Option<string>)
    ensures r.Some? ==> IsChannelId(r.value)
  {
    if lines == [] then None
    else
      var here := if StartsWith(lines[0], "Channel:") then ChannelIn(Value(lines[0][8..], lines[1..])) else None;
      if here.Some? then here else Channel(lines[1..])
  }

  function JoinLines(lines: Lines): string {
    if |lines| == 1 then lines[0] else lines[0] + "\n" + JoinLines(lines[1..])
  }

  const REPLY_OPTION := "--reply-to"

  /** The reply anchor that starts right here: the option, white space and 64 hexadecimal digits. */
  function ReplyHere(text: string): Option<string> {
    if !StartsWith(text, REPLY_OPTION) then None
    else
      var rest := TrimLeft(text[10..]);
      if |rest| < |text| - 10 && |rest| >= 64 && IsHex(rest[..64]) then Some(rest[..64]) else None
  }

  /** Line 27: the first reply anchor. */
  function ReplyTo(text: string): Option<string> {
    if text == "" then None else if ReplyHere(text).Some? then ReplyHere(text) else ReplyTo(text[1..])
  }

  // ------------------------------------------------------------ event headers

  /** The digits of "--- Event <digits> (<label>) ---". */
  function HeaderDigits(line: string): (r: Option<string>)
    ensures r.Some? ==> IsDigits(r.value)
  {
    if !StartsWith(line, "--- Event ") then None
    else
      var digits := LeadingDigits(line[10..]);
      var rest := line[10 + |digits|..];
      if digits != "" && |rest| >= 7 && rest[..2] == " (" && EndsWith(rest, ") ---") then Some(digits) else None
  }

  function LeadingDigits(s: string): (r: string)
    ensures r <= s
    ensures forall i :: 0 <= i < |r| ==> IsDigit(r[i])
    ensures |r| < |s| ==> !IsDigit(s[|r|])
  {
    if s == "" || !IsDigit(s[0]) then "" else [s[0]] + LeadingDigits(s[1..])
  }

  /** "Event ID:", an id that ends its line, and a line that starts with "Channel:". */
  function EventId(lines: seq<string>): (r: Option<string>)
    ensures r.Some? ==> IsEventId(r.value)
  {
    if lines == [] || !StartsWith(lines[0], "Event ID:") then None
    else
      var rest := lines[0][9..];
      var from := if Blank(rest) then SkipBlank(lines[1..]) else [rest] + lines[1..];
      if |from| < 2 || !StartsWith(from[1], "Channel:") || !IsEventId(TrimLeft(from[0])) then None
      else Some(TrimLeft(from[0]))
  }

  datatype EventHeader = EventHeader(number: nat, id: string)

  function HeadEvent(lines: seq<string>): Option<EventHeader> {
    if lines == [] || HeaderDigits(lines[0]).None? || EventId(lines[1..]).None? then None
    else Some(EventHeader(ParseNat(HeaderDigits(lines[0]).value), EventId(lines[1..]).value))
  }

  /** Lines 73-80: every event header of the block. */
  function AllEvents(lines: seq<string>): seq<EventHeader> {
    if lines == [] then []
    else (if HeadEvent(lines).Some? then [HeadEvent(lines).value] else []) + AllEvents(lines[1..])
  }

  // ------------------------------------------------------------ triggering events

  datatype BatchKind = Collected | Arrived | Superseding

  function BatchPrefix(kind: BatchKind): Line {
    match kind
    case Collected => "[Buzz events \U{2014}"
    case Arrived => Glue(Glue("[New messages \U{2014} ", "arrived while you "), "were working \U{2014}")
    case Superseding => Glue("[New request \U{2014} ", "supersedes previous \U{2014}")
  }

  function CountIn(text: string): Option<nat> {
    var digits := LeadingDigits(text);
    if digits != "" && StartsWith(text[|digits|..], " events]")
    then var n := ParseNat(digits); if 1 < n <= MAX_SAFE_INTEGER then Some(n) else None
    else None
  }

  function CountAfterPrefix(lines: Lines, prefix: string): Option<nat> {
    if !StartsWith(lines[0], prefix) then None
    else
      var rest := TrimLeft(lines[0][|prefix|..]);
      if rest != "" then CountIn(rest)
      else var next := SkipBlank(lines[1..]); if next == [] then None else CountIn(TrimLeft(next[0]))
  }

  function CountAfter(lines: Lines, kind: BatchKind): Option<nat> { CountAfterPrefix(lines, BatchPrefix(kind)) }

  /** Lines 87-93. The three prefixes exclude each other. */
  function EventCount(lines: Lines): (r: Option<nat>)
    ensures r.Some? ==> r.value >= 2
  {
    if CountAfter(lines, Collected).Some? then CountAfter(lines, Collected)
    else if CountAfter(lines, Arrived).Some? then CountAfter(lines, Arrived)
    else CountAfter(lines, Superseding)
  }

  /** Lines 58-61. */
  function SingleEvent(lines: Lines): Option<string> {
    if |lines[0]| >= 13 && StartsWith(lines[0], "[Buzz event:") && EndsWith(lines[0], "]")
    then EventId(lines[1..])
    else None
  }

  const NEW_MESSAGE: Line := Glue(Glue("[New message \U{2014} ", "arrived while you "), "were working]")
  const NEW_REQUEST: Line := Glue("[New request \U{2014} ", "supersedes previous]")

  /** Lines 63-69. */
  function NewSingleEvent(lines: Lines): Option<string> {
    if && (SameIgnoringCase(lines[0], NEW_MESSAGE) || SameIgnoringCase(lines[0], NEW_REQUEST))
       && |lines| >= 3 && lines[1] == "" && HeaderDigits(lines[2]) == Some("1")
    then EventId(lines[3..])
    else None
  }

  predicate NumberedFromOne(events: seq<EventHeader>) {
    forall i :: 0 <= i < |events| ==> events[i].number == i + 1
  }

  /** Lines 71-84: a batch counts only if its headers are exactly 1..n. */
  function BatchEvent(lines: Lines): seq<string> {
    var events := AllEvents(lines);
    if EventCount(lines) == Some(|events|) && NumberedFromOne(events) then [events[|events| - 1].id] else []
  }

  function TriggeringEventIds(lines: Lines): seq<string> {
    if SingleEvent(lines).Some? then [SingleEvent(lines).value]
    else if NewSingleEvent(lines).Some? then [NewSingleEvent(lines).value]
    else BatchEvent(lines)
  }

  // ------------------------------------------------------------ the route

  function ContextOf(b: Block): seq<Lines> { if IsContext(b) then [b.lines] else [] }

  function EventIdsOf(b: Block): seq<string> { if b.TextBlock? then TriggeringEventIds(b.lines) else [] }

  function RouteFrom(contexts: seq<Lines>, ids: seq<string>): Option<BuzzRoute> {
    if |contexts| != 1 || Channel(contexts[0]).None? || |ids| != 1 then None
    else Some(BuzzRoute(Channel(contexts[0]).value, ids[0], ReplyTo(JoinLines(contexts[0]))))
  }

  function ParseRoute(prompt: Prompt): Option<BuzzRoute> {
    match prompt
    case NotAnArray => None
    case Blocks(bs) => RouteFrom(FlatMap(bs, ContextOf), FlatMap(bs, EventIdsOf))
  }

  const SINK_TITLE: Line := "[eve Buzz ACP connector]"

  function TwoLines(first: Line, second: Line): (b: Block)
    ensures b.TextBlock? && b.lines == [first, second]
  {
    TextBlock([first, second])
  }

  /** The text block of lines 33-37: its title and one more line, whose wording is left open. */
  function SinkInstruction(text: Line): Block { TwoLines(SINK_TITLE, text) }

  lemma SinkIsWritten(text: Line)
    ensures SinkInstruction(text) == TextBlock(["[eve Buzz ACP connector]", text])
  {
  }

  function AddReplySink(prompt: Prompt, text: Line): Prompt {
    Blocks((if prompt.Blocks? then prompt.blocks else []) + [SinkInstruction(text)])
  }

  // ------------------------------------------------------------ what the route depends on

  /** The order of the prompt's blocks does not matter. */
  lemma RouteIgnoresBlockOrder(xs: seq<Block>, ys: seq<Block>)
    requires multiset(xs) == multiset(ys)
    ensures ParseRoute(Blocks(xs)) == ParseRoute(Blocks(ys))
  {
    FlatMapPermutation(xs, ys, ContextOf);
    FlatMapPermutation(xs, ys, EventIdsOf);
    SingletonPermutation(FlatMap(xs, ContextOf), FlatMap(ys, ContextOf));
    SingletonPermutation(FlatMap(xs, EventIdsOf), FlatMap(ys, EventIdsOf));
  }

  lemma DifferentStart(s: string, prefix: string, i: nat)
    requires i < |s| && i < |prefix| && Lower(s[i]) != Lower(prefix[i])
    ensures !StartsWith(s, prefix) && !SameIgnoringCase(s, prefix)
  {
    if |prefix| <= |s| {
      assert s[..|prefix|][i] == s[i];
    }
  }

  lemma SecondLetters(kind: BatchKind)
    ensures |BatchPrefix(kind)| > 1 && Lower(BatchPrefix(kind)[1]) in {'b', 'n'}
    ensures |NEW_MESSAGE| > 1 && Lower(NEW_MESSAGE[1]) == 'n'
    ensures |NEW_REQUEST| > 1 && Lower(NEW_REQUEST[1]) == 'n'
  {
  }

  /** Every block that carries an event starts with a B or an N after its bracket. */
  lemma TitleCarriesNoEvent(lines: Lines)
    requires |lines[0]| > 1 && Lower(lines[0][1]) !in {'b', 'n'}
    ensures EventIdsOf(TextBlock(lines)) == []
  {
    assert Lower("[Buzz event:"[1]) == 'b';
    DifferentStart(lines[0], "[Buzz event:", 1);
    SecondLetters(Collected);
    SecondLetters(Arrived);
    SecondLetters(Superseding);
    DifferentStart(lines[0], NEW_MESSAGE, 1);
    DifferentStart(lines[0], NEW_REQUEST, 1);
    DifferentStart(lines[0], BatchPrefix(Collected), 1);
    DifferentStart(lines[0], BatchPrefix(Arrived), 1);
    DifferentStart(lines[0], BatchPrefix(Superseding), 1);
  }

  /** No pattern of the parser starts like the title of the instruction. */
  lemma InertTitle(lines: Lines)
    requires |lines[0]| > 1 && lines[0][1] == 'e'
    ensures !IsContext(TextBlock(lines)) && EventIdsOf(TextBlock(lines)) == []
  {
    assert "[Context]"[1] == 'C';
    TitleCarriesNoEvent(lines);
  }

  lemma SinkIsInert(text: Line)
    ensures !IsContext(SinkInstruction(text)) && EventIdsOf(SinkInstruction(text)) == []
  {
    hide IsContext, EventIdsOf;
    assert SinkInstruction(text) == TextBlock(SinkInstruction(text).lines);
    InertTitle(SinkInstruction(text).lines);
  }

  /** The instruction the connector adds never changes the route. */
  lemma SinkKeepsRoute(prompt: Prompt, text: Line)
    ensures ParseRoute(AddReplySink(prompt, text)) == ParseRoute(prompt)
  {
    SinkIsInert(text);
    hide SinkInstruction, IsContext, EventIdsOf;
    var bs := if prompt.Blocks? then prompt.blocks else [];
    FlatMapConcat(bs, [SinkInstruction(text)], ContextOf);
    FlatMapConcat(bs, [SinkInstruction(text)], EventIdsOf);
    assert [SinkInstruction(text)][1..] == [];
    assert FlatMap(bs + [SinkInstruction(text)], ContextOf) == FlatMap(bs, ContextOf);
    assert FlatMap(bs + [SinkInstruction(text)], EventIdsOf) == FlatMap(bs, EventIdsOf);
  }

  // ------------------------------------------------------------ the publication key

  /** The text that publicationKey hashes; SHA-256 is taken as free of collisions, so it is the key. */
  function PublicationKey(route: BuzzRoute): string { route.channelId + "\0" + route.triggeringEventId }

  /** Parsed routes share a key exactly when channel and triggering event agree; the reply anchor is no part of it. */
  lemma KeyIsChannelAndEvent(p: Prompt, q: Prompt)
    requires ParseRoute(p).Some? && ParseRoute(q).Some?
    ensures var r, t := ParseRoute(p).value, ParseRoute(q).value;
            PublicationKey(r) == PublicationKey(t)
            <==> r.channelId == t.channelId && r.triggeringEventId == t.triggeringEventId
  {
    var r, t := ParseRoute(p).value, ParseRoute(q).value;
    assert |r.channelId| == |t.channelId| == 36;
    if PublicationKey(r) == PublicationKey(t) {
      assert PublicationKey(r)[..36] == r.channelId && PublicationKey(t)[..36] == t.channelId;
      assert PublicationKey(r)[37..] == r.triggeringEventId && PublicationKey(t)[37..] == t.triggeringEventId;
    }
  }
}
