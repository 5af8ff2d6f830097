/**
 The shell quoter of the benchmark setup, against a reader that follows the POSIX shell: inside single
 quotes every character stands for itself (section 2.2.2 of the POSIX.1-2017 Shell Command Language),
 outside them a backslash keeps the next character (section 2.2.1), and blanks end words.
 */
module ShellQuote {
  import opened Wrappers

  /** Lines 104-106: every single quote becomes close, escaped quote, open. */
  function Escape(v: string): string {
    if v == "" then "" else (if v[0] == '\'' then "'\\''" else [v[0]]) + Escape(v[1..])
  }

  function ShellQuote(v: string): string { "'" + Escape(v) + "'" }

  // ------------------------------------------------------------ the reader

  datatype Mode = Plain | Quoted | Escaped

  /** Words read so far, the word being read if one has begun, and whether quoting is open. */
  datatype Reader = Reader(words: seq<string>, word: Option<string>, mode: Mode) | Unreadable
  {
    function Add(c: char, m: Mode): Reader
      requires Reader?
    {
      Reader(words, Some((if word.Some? then word.value else "") + [c]), m)
    }
  }

  predicate IsBlank(c: char) { c == ' ' || c == '\t' }

  /** Characters that outside quotes would make the shell do more than collect a word. */
  predicate IsSpecial(c: char) {
    c in {'\n', '|', '&', ';', '<', '>', '(', ')', '$', '`', '"', '*', '?', '[', '{', '}', '#', '~'}
  }

  function Read(r: Reader, c: char): Reader {
    if r.Unreadable? then r
    else match r.mode
      case Quoted => if c == '\'' then r.(mode := Plain) else r.Add(c, Quoted)
      // a backslash and a newline after it are both removed
      case Escaped => if c == '\n' then r.(mode := Plain) else r.Add(c, Plain)
      case Plain =>
        if c == '\'' then Reader(r.words, Some(if r.word.Some? then r.word.value else ""), Quoted)
        else if c == '\\' then r.(mode := Escaped)
        else if IsBlank(c) then (if r.word.Some? then Reader(r.words + [r.word.value], None, Plain) else r)
        else if IsSpecial(c) then Unreadable
        else r.Add(c, Plain)
  }

  function ReadAll(r: Reader, s: string): Reader
    decreases |s|
  {
    if s == "" then r else ReadAll(Read(r, s[0]), s[1..])
  }

  /** The words of a command line, if it is plain words and nothing more. */
  function Words(s: string): Option<seq<string>> {
    var r := ReadAll(Reader([], None, Plain), s);
    if r.Unreadable? || r.mode != Plain then None
    else Some(r.words + (if r.word.Some? then [r.word.value] else []))
  }

  // ------------------------------------------------------------ quoting is undone by reading

  lemma {:induction false} ReadConcat(r: Reader, s: string, t: string)
    ensures ReadAll(r, s + t) == ReadAll(ReadAll(r, s), t)
    decreases |s|
  {
    if s == "" {
      assert s + t == t;
    } else {
      assert (s + t)[1..] == s[1..] + t;
      ReadConcat(Read(r, s[0]), s[1..], t);
    }
  }

  /** Inside quotes, the escaped text is read as the text itself. */
  lemma {:induction false} EscapeReadsBack(r: Reader, v: string)
    requires r.Reader? && r.mode == Quoted && r.word.Some?
    ensures ReadAll(r, Escape(v)) == r.(word := Some(r.word.value + v))
    decreases |v|
  {
    if v == "" {
      assert r.word.value + v == r.word.value;
    } else {
      var piece := if v[0] == '\'' then "'\\''" else [v[0]];
      var next := r.(word := Some(r.word.value + [v[0]]));
      assert ReadAll(r, piece) == next by {
        if v[0] == '\'' {
          var r1 := Read(r, '\'');
          var r2 := Read(r1, '\\');
          var r3 := Read(r2, '\'');
          assert piece[1..] == "\\''" && piece[1..][1..] == "''" && piece[1..][1..][1..] == "'"
              && piece[1..][1..][1..][1..] == "";
          assert ReadAll(r3, "'") == ReadAll(Read(r3, '\''), "");
          assert ReadAll(r2, "''") == ReadAll(r3, "'");
          assert ReadAll(r1, "\\''") == ReadAll(r2, "''");
        } else {
          assert piece[1..] == "";
        }
      }
      ReadConcat(r, piece, Escape(v[1..]));
      EscapeReadsBack(next, v[1..]);
      assert r.word.value + [v[0]] + v[1..] == r.word.value + v;
    }
  }

  /**
   Wherever the reader stands between quotes, a quoted value adds exactly the value to the word being
   read (and begins one if need be) and leaves everything else as it was.
   */
  lemma QuoteReadsAsValue(r: Reader, v: string)
    requires r.Reader? && r.mode == Plain
    ensures ReadAll(r, ShellQuote(v)) == Reader(r.words, Some((if r.word.Some? then r.word.value else "") + v), Plain)
  {
    var open := Reader(r.words, Some(if r.word.Some? then r.word.value else ""), Quoted);
    assert ShellQuote(v) == "'" + (Escape(v) + "'");
    assert ShellQuote(v)[1..] == Escape(v) + "'";
    assert Read(r, '\'') == open;
    ReadConcat(open, Escape(v), "'");
    EscapeReadsBack(open, v);
    var closed := ReadAll(open, Escape(v));
    assert ReadAll(closed, "'") == ReadAll(Read(closed, '\''), "") by { assert "'"[1..] == ""; }
  }

  /** A quoted value is one word, equal to the value, whatever characters it holds. */
  lemma QuotedValueIsOneWord(v: string)
    ensures Words(ShellQuote(v)) == Some([v])
  {
    QuoteReadsAsValue(Reader([], None, Plain), v);
    assert "" + v == v && [] + [v] == [v];
  }

  /** Appended after other words it is one more word. */
  lemma QuotedValueAfterWords(line: string, v: string)
    requires Words(line).Some?
    ensures Words(line + " " + ShellQuote(v)) == Some(Words(line).value + [v])
  {
    var start := Reader([], None, Plain);
    var r := ReadAll(start, line);
    assert line + " " + ShellQuote(v) == line + (" " + ShellQuote(v));
    ReadConcat(start, line, " " + ShellQuote(v));
    ReadConcat(r, " ", ShellQuote(v));
    var blank := Read(r, ' ');
    assert ReadAll(r, " ") == ReadAll(blank, "") by { assert " "[1..] == ""; }
    QuoteReadsAsValue(blank, v);
    assert "" + v == v && blank.words == Words(line).value by { assert r.words + [] == r.words; }
  }

  /** Glued to the end of a plain word, as in NAME=value, it extends that word. */
  lemma QuotedValueInsideWord(line: string, v: string)
    requires var r := ReadAll(Reader([], None, Plain), line); r.Reader? && r.mode == Plain && r.word.Some?
    ensures var r := ReadAll(Reader([], None, Plain), line);
            Words(line + ShellQuote(v)) == Some(r.words + [r.word.value + v])
  {
    var start := Reader([], None, Plain);
    ReadConcat(start, line, ShellQuote(v));
    QuoteReadsAsValue(ReadAll(start, line), v);
  }

  // ------------------------------------------------------------ run, and commands inside commands

  const RUN_PREFIX := "timeout 240 bash -lc"

  /** Line 93: what the sandbox's bash is given for a command. */
  function RunLine(command: string): string { RUN_PREFIX + " " + ShellQuote(command) }

  lemma {:induction false} ReadPlainWord(r: Reader, w: string)
    requires r.Reader? && r.mode == Plain && w != ""
    requires forall i :: 0 <= i < |w| ==> w[i] != '\'' && w[i] != '\\' && !IsBlank(w[i]) && !IsSpecial(w[i])
    ensures ReadAll(r, w) == Reader(r.words, Some((if r.word.Some? then r.word.value else "") + w), Plain)
    decreases |w|
  {
    var before := if r.word.Some? then r.word.value else "";
    var next := Reader(r.words, Some(before + [w[0]]), Plain);
    assert Read(r, w[0]) == next;
    if |w| > 1 {
      ReadPlainWord(next, w[1..]);
      assert before + [w[0]] + w[1..] == before + w;
    } else {
      assert w[1..] == "" && before + [w[0]] == before + w;
    }
  }

  lemma PlainWordAfterWords(line: string, words: seq<string>, w: string)
    requires Words(line) == Some(words) && w != ""
    requires forall i :: 0 <= i < |w| ==> w[i] != '\'' && w[i] != '\\' && !IsBlank(w[i]) && !IsSpecial(w[i])
    ensures Words(line + (" " + w)) == Some(words + [w])
    ensures ReadAll(Reader([], None, Plain), line + (" " + w)) == Reader(words, Some(w), Plain)
  {
    var start := Reader([], None, Plain);
    var r := ReadAll(start, line);
    ReadConcat(start, line, " " + w);
    ReadConcat(r, " ", w);
    var blank := Read(r, ' ');
    assert ReadAll(r, " ") == ReadAll(blank, "") by { assert " "[1..] == ""; }
    ReadPlainWord(blank, w);
    assert "" + w == w && blank.words == words by { assert r.words + [] == r.words; }
  }

  lemma FirstPlainWord(w: string)
    requires w != "" && forall i :: 0 <= i < |w| ==> w[i] != '\'' && w[i] != '\\' && !IsBlank(w[i]) && !IsSpecial(w[i])
    ensures Words(w) == Some([w])
  {
    ReadPlainWord(Reader([], None, Plain), w);
    assert "" + w == w && [] + [w] == [w];
  }

  lemma RunPrefixWords()
    ensures Words(RUN_PREFIX) == Some(["timeout", "240", "bash", "-lc"])
  {
    hide Words, ReadAll;
    FirstPlainWord("timeout");
    var l1 := "timeout" + (" " + "240");
    PlainWordAfterWords("timeout", ["timeout"], "240");
    assert ["timeout"] + ["240"] == ["timeout", "240"];
    var l2 := l1 + (" " + "bash");
    PlainWordAfterWords(l1, ["timeout", "240"], "bash");
    assert ["timeout", "240"] + ["bash"] == ["timeout", "240", "bash"];
    PlainWordAfterWords(l2, ["timeout", "240", "bash"], "-lc");
    assert ["timeout", "240", "bash"] + ["-lc"] == ["timeout", "240", "bash", "-lc"];
    assert RUN_PREFIX == l2 + (" " + "-lc");
  }

  /** The outer bash hands the command, unchanged, to the inner one as the last of five words. */
  lemma RunHandsOverCommand(command: string)
    ensures Words(RunLine(command)) == Some(["timeout", "240", "bash", "-lc", command])
  {
    hide Words, ShellQuote;
    RunPrefixWords();
    QuotedValueAfterWords(RUN_PREFIX, command);
    assert ["timeout", "240", "bash", "-lc"] + [command] == ["timeout", "240", "bash", "-lc", command];
  }

  /** A command wrapped k times, each time as the argument of another run line. */
  function Wrap(command: string, k: nat): string { if k == 0 then command else RunLine(Wrap(command, k - 1)) }

  /** k shells in turn, each reading its line and handing on the last word. */
  function Unwrap(line: string, k: nat): Option<string>
    decreases k
  {
    if k == 0 then Some(line)
    else if Words(line).None? || Words(line).value == [] then None
    else Unwrap(Words(line).value[|Words(line).value| - 1], k - 1)
  }

  /** k nested quotings are undone by k readings. */
  lemma {:induction false} NestedQuotingIsUndone(command: string, k: nat)
    ensures Unwrap(Wrap(command, k), k) == Some(command)
  {
    if k > 0 {
      RunHandsOverCommand(Wrap(command, k - 1));
      NestedQuotingIsUndone(command, k - 1);
    }
  }

  /** Line 38: the bootstrap command for a package spec. */
  function BootstrapCommand(spec: string): string {
    "AI_AGENT=claude" + (" " + "EVE_INIT_PACKAGE_SPEC=") + ShellQuote(spec)
    + (" " + "eve") + (" " + "init") + (" " + ".") + (" " + "--model") + (" " + "openai/gpt-5.5")
  }

  /**
   Quoted into the bootstrap command, which run quotes once more, a package spec reaches eve unchanged as
   the value of its variable, whatever characters it holds.
   */
  lemma SpecSurvivesBothShells(spec: string)
    ensures Words(RunLine(BootstrapCommand(spec))) == Some(["timeout", "240", "bash", "-lc", BootstrapCommand(spec)])
    ensures Words(BootstrapCommand(spec))
         == Some(["AI_AGENT=claude", "EVE_INIT_PACKAGE_SPEC=" + spec, "eve", "init", ".", "--model", "openai/gpt-5.5"])
  {
    hide Words, ReadAll, ShellQuote;
    RunHandsOverCommand(BootstrapCommand(spec));
    FirstPlainWord("AI_AGENT=claude");
    var l1 := "AI_AGENT=claude" + (" " + "EVE_INIT_PACKAGE_SPEC=");
    PlainWordAfterWords("AI_AGENT=claude", ["AI_AGENT=claude"], "EVE_INIT_PACKAGE_SPEC=");
    var l2 := l1 + ShellQuote(spec);
    QuotedValueInsideWord(l1, spec);
    var w2 := ["AI_AGENT=claude"] + ["EVE_INIT_PACKAGE_SPEC=" + spec];
    BootstrapTail(l2, w2);
    assert w2 + ["eve"] + ["init"] + ["."] + ["--model"] + ["openai/gpt-5.5"]
        == ["AI_AGENT=claude", "EVE_INIT_PACKAGE_SPEC=" + spec, "eve", "init", ".", "--model", "openai/gpt-5.5"];
  }

  lemma BootstrapTail(line: string, words: seq<string>)
    requires Words(line) == Some(words)
    ensures Words(line + (" " + "eve") + (" " + "init") + (" " + ".") + (" " + "--model") + (" " + "openai/gpt-5.5"))
         == Some(words + ["eve"] + ["init"] + ["."] + ["--model"] + ["openai/gpt-5.5"])
  {
    hide Words, ReadAll;
    PlainWordAfterWords(line, words, "eve");
    var l1, w1 := line + (" " + "eve"), words + ["eve"];
    PlainWordAfterWords(l1, w1, "init");
    var l2, w2 := l1 + (" " + "init"), w1 + ["init"];
    PlainWordAfterWords(l2, w2, ".");
    var l3, w3 := l2 + (" " + "."), w2 + ["."];
    PlainWordAfterWords(l3, w3, "--model");
    PlainWordAfterWords(l3 + (" " + "--model"), w3 + ["--model"], "openai/gpt-5.5");
  }
}
