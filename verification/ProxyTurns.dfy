/**
 Which turns are active, and which answers are due for publication, read off the history. Both need
 that no prompt reuses the id whose reply is just being published; that is exactly when the code keeps them.
 */
module ProxyTurns {
  import opened Wrappers
  import opened Text
  import opened BuzzContext
  import opened ProxyModel
  import opened ProxyHistory
  import opened ProxyLedger

  /** A prompt arrives under the id whose reply is being published. */
  predicate Clash(s: Proxy, e: Event) { s.phase.Publishing? && Prompts(e, s.phase.key) }

  predicate ClashFree(cfg: Config, es: seq<Event>)
    decreases |es|
  {
    es == [] || (ClashFree(cfg, es[..|es| - 1]) && !Clash(Run(cfg, es[..|es| - 1]), es[|es| - 1]))
  }

  /** Turn k is active exactly while its prompt is unanswered or its reply is being published. */
  predicate TurnExact(s: Proxy, k: string) {
    k in s.turns <==> OpenPrompt(s.log, k) || (s.phase.Publishing? && s.phase.key == k)
  }

  /** The reply to a prompt being published is no longer open. */
  predicate PublishedKeyClosed(s: Proxy) { s.phase.Publishing? ==> !OpenPrompt(s.log, s.phase.key) }

  lemma OpenGrows(log: seq<Event>, e: Event, k: string)
    ensures OpenPrompt(log + [e], k) <==> Prompts(e, k) || (!Answers(e, k) && OpenPrompt(log, k))
  {
    assert (log + [e])[..|log + [e]| - 1] == log;
  }

  lemma ClientTurnsExact(cfg: Config, s: Proxy, m: Message, k: string)
    requires TurnExact(s, k) && PublishedKeyClosed(s) && !Clash(s, FromClient(m))
    ensures TurnExact(OnClient(cfg, s, m), k) && PublishedKeyClosed(OnClient(cfg, s, m))
  {
    hide KeyForId, AnsweredLocally, LocalAnswer, Rewrite, NewTurn;
    OpenGrows(s.log, FromClient(m), k);
    if s.phase.Publishing? { OpenGrows(s.log, FromClient(m), s.phase.key); }
    if AnsweredLocally(cfg, m) { LocalIsNeutral(cfg, m, k, NoSession); }
  }

  lemma EveTurnsExact(cfg: Config, s: Proxy, m: Message, k: string)
    requires s.phase.Reading? && TurnExact(s, k)
    ensures TurnExact(OnEve(cfg, s, m), k) && PublishedKeyClosed(OnEve(cfg, s, m))
  {
    hide KeyForId, Patch, TurnsAfterEve, Trim, PublicationError;
    SameTurns(s.turns, m, k);
    OpenGrows(s.log, FromEve(m), k);
    OpenGrows(s.log, FromEve(m), KeyForId(m.id));
  }

  lemma PublishedTurnsExact(s: Proxy, p: Publication, k: string)
    requires s.phase.Publishing? && TurnExact(s, k)
    ensures TurnExact(OnPublished(s, p), k) <==> !(k == s.phase.key && OpenPrompt(s.log, k))
  {
    hide PublicationError;
  }

  lemma StepKeepsTurnsExact(cfg: Config, s: Proxy, e: Event, k: string)
    requires TurnExact(s, k) && PublishedKeyClosed(s) && !Clash(s, e)
    ensures TurnExact(Step(cfg, s, e), k) && PublishedKeyClosed(Step(cfg, s, e))
  {
    hide OnClient, OnEve, OpenPrompt, Prompts;
    match e
    case FromClient(m) => ClientTurnsExact(cfg, s, m, k);
    case FromEve(m) => if s.phase.Reading? { EveTurnsExact(cfg, s, m, k); }
    case Published(p) => if s.phase.Publishing? { PublishedTurnsExact(s, p, k); }
  }

  lemma {:induction false} RunTurnsExact(cfg: Config, es: seq<Event>, k: string)
    requires ClashFree(cfg, es)
    ensures TurnExact(Run(cfg, es), k) && PublishedKeyClosed(Run(cfg, es))
  {
    if es != [] {
      RunTurnsExact(cfg, es[..|es| - 1], k);
      StepKeepsTurnsExact(cfg, Run(cfg, es[..|es| - 1]), es[|es| - 1], k);
    }
  }

  // ------------------------------------------------------------ main theorems

  /** While ids are not reused under a publication, the turns are the open prompts and the one being published. */
  lemma TurnsAreOpenPrompts(cfg: Config, es: seq<Event>, id: Id)
    requires ClashFree(cfg, es)
    ensures var s := Run(cfg, es);
            KeyForId(id) in s.turns
            <==> (exists i: nat :: UnansweredPromptOf(s.log, i, id)) || (s.phase.Publishing? && s.phase.answer.id == id)
  {
    hide KeyForId, UnansweredPrompt, UnansweredPromptOf, OpenPrompt, ClashFree;
    var s, k := Run(cfg, es), KeyForId(id);
    RunTurnsExact(cfg, es, k);
    OpenPromptMeans(s.log, k);
    forall i: nat ensures UnansweredPrompt(s.log, i, k) <==> UnansweredPromptOf(s.log, i, id) {
      UnansweredPromptById(cfg, s.log, i, id);
    }
    PublishedKeyIsAnswered(cfg, es);
    if s.phase.Publishing? && KeyForId(s.phase.answer.id) == k { KeyForIdInjective(s.phase.answer.id, id); }
  }

  /** The key under publication is that of the answer held back. */
  lemma {:induction false} PublishedKeyIsAnswered(cfg: Config, es: seq<Event>)
    ensures var s := Run(cfg, es); s.phase.Publishing? ==> s.phase.key == KeyForId(s.phase.answer.id)
  {
    if es != [] {
      PublishedKeyIsAnswered(cfg, es[..|es| - 1]);
      StepKeepsAnsweredKey(cfg, Run(cfg, es[..|es| - 1]), es[|es| - 1]);
    }
  }

  lemma StepKeepsAnsweredKey(cfg: Config, s: Proxy, e: Event)
    requires s.phase.Publishing? ==> s.phase.key == KeyForId(s.phase.answer.id)
    ensures var t := Step(cfg, s, e); t.phase.Publishing? ==> t.phase.key == KeyForId(t.phase.answer.id)
  {
    hide KeyForId, AnsweredLocally, LocalAnswer, Rewrite, TurnsAfterClient, TurnsAfterEve, Trim, PublicationError;
  }

  /**
   When a publication ends, the turns are exact again if and only if no prompt with the published id is
   open; otherwise the new prompt's turn is deleted in place of the old one.
   */
  lemma PublicationEndsExactIff(cfg: Config, es: seq<Event>, p: Publication)
    requires var s := Run(cfg, es); s.phase.Publishing? && forall k: string :: TurnExact(s, k)
    ensures var s := Run(cfg, es);
            (forall k: string :: TurnExact(OnPublished(s, p), k)) <==> !OpenPrompt(s.log, s.phase.key)
  {
    var s := Run(cfg, es);
    forall k: string ensures TurnExact(OnPublished(s, p), k) <==> !(k == s.phase.key && OpenPrompt(s.log, k)) {
      assert TurnExact(s, k);
      PublishedTurnsExact(s, p, k);
    }
  }

  lemma RunSnoc(cfg: Config, es: seq<Event>, e: Event)
    ensures Run(cfg, es + [e]) == Step(cfg, Run(cfg, es), e)
  {
    assert (es + [e])[..|es + [e]| - 1] == es;
  }

  function PromptMessage(id: Id, sid: SessionRef, p: Prompt): Message {
    Message(id, Some("session/prompt"), Some(EMPTY_PARAMS.(sessionId := sid, prompt := Some(p))), None, None)
  }

  function AgentChunk(text: string): Update { Update(Some("agent_message_chunk"), Some("text"), Some(text), "") }

  function ChunkMessage(sid: SessionRef, text: string): Message {
    Message(NoId, Some("session/update"), Some(EMPTY_PARAMS.(sessionId := sid, update := AgentChunk(text))), None, None)
  }

  function EndOfTurn(id: Id): Message {
    Message(id, None, None, Some(EMPTY_RESULT.(stopReason := Some("end_turn"))), None)
  }

  /** A prompt, its text, its answer, and the same id again before the publication ends. */
  function ReusedId(id: Id, sid: SessionRef, p: Prompt, text: string): seq<Event> {
    [FromClient(PromptMessage(id, sid, p))] + [FromEve(ChunkMessage(sid, text))] + [FromEve(EndOfTurn(id))]
    + [FromClient(PromptMessage(id, sid, p))] + [Published(Passed)]
  }

  lemma PromptStep(cfg: Config, s: Proxy, id: Id, sid: SessionRef, p: Prompt)
    requires id != NoId && !sid.OddSession?
    ensures var t := OnClient(cfg, s, PromptMessage(id, sid, p));
            && t.turns == s.turns[KeyForId(id) := Turn(false, ParseRoute(p), sid, "")]
            && t.phase == s.phase && t.log == s.log + [FromClient(PromptMessage(id, sid, p))]
  {
    hide KeyForId, Rewrite;
    assert "session/set_config_option"[8] == 's' && "session/set_model"[8] == 's' && "session/prompt"[8] == 'p';
    assert !AnsweredLocally(cfg, PromptMessage(id, sid, p));
  }

  lemma ChunkStep(cfg: Config, s: Proxy, k: string, sid: SessionRef, text: string)
    requires s.phase.Reading? && k in s.turns && s.turns[k].session == sid
    ensures var t := OnEve(cfg, s, ChunkMessage(sid, text));
            && k in t.turns && t.turns[k] == s.turns[k].(text := s.turns[k].text + text)
            && t.phase.Reading?
  {
    hide KeyForId, Patch;
  }

  lemma EndStep(cfg: Config, s: Proxy, id: Id)
    requires id != NoId && s.phase.Reading? && KeyForId(id) in s.turns
    requires var t := s.turns[KeyForId(id)]; !t.cancelled && t.route.Some? && Trim(t.text) != ""
    ensures var t := OnEve(cfg, s, EndOfTurn(id)); t.phase.Publishing? && t.phase.key == KeyForId(id)
  {
    hide KeyForId, Patch, Trim;
    SameTurns(s.turns, EndOfTurn(id), KeyForId(id));
  }

  /**
   A client that reuses the id of a prompt while its reply is being published loses the new turn:
   the prompt is open, but the proxy no longer knows it, so its answer is passed on unpublished.
   */
  lemma ReusedIdIsLost(cfg: Config, id: Id, sid: SessionRef, p: Prompt, text: string)
    requires id != NoId && !sid.OddSession? && ParseRoute(p).Some? && Trim(text) != ""
    ensures var s := Run(cfg, ReusedId(id, sid, p, text));
            && OpenPrompt(s.log, KeyForId(id)) && KeyForId(id) !in s.turns
            && forall m: Message :: m.IsResponse() && m.id == id ==> OnEve(cfg, s, m).due == s.due
  {
    hide OnClient, OnEve, KeyForId, Trim, ParseRoute, PromptMessage, ChunkMessage, EndOfTurn;
    var k := KeyForId(id);
    var e1, e2, e3 := FromClient(PromptMessage(id, sid, p)), FromEve(ChunkMessage(sid, text)), FromEve(EndOfTurn(id));
    RunSnoc(cfg, [], e1);
    PromptStep(cfg, START, id, sid, p);
    var s1 := Step(cfg, START, e1);
    assert [] + [e1] == [e1];
    RunSnoc(cfg, [e1], e2);
    ChunkStep(cfg, s1, k, sid, text);
    var s2 := Step(cfg, s1, e2);
    assert s1.turns[k].text + text == text;
    RunSnoc(cfg, [e1] + [e2], e3);
    EndStep(cfg, s2, id);
    var s3 := Step(cfg, s2, e3);
    RunSnoc(cfg, [e1] + [e2] + [e3], e1);
    PromptStep(cfg, s3, id, sid, p);
    var s4 := Step(cfg, s3, e1);
    RunSnoc(cfg, [e1] + [e2] + [e3] + [e1], Published(Passed));
    OpenGrows(s3.log, e1, k);
    IsPrompt(id, sid, p);
    var s5 := Run(cfg, ReusedId(id, sid, p, text));
    forall m: Message | m.IsResponse() && m.id == id ensures OnEve(cfg, s5, m).due == s5.due {
      UnknownTurnIsNotDue(cfg, s5, m);
    }
  }

  lemma UnknownTurnIsNotDue(cfg: Config, s: Proxy, m: Message)
    requires m.IsResponse() && KeyForId(m.id) !in s.turns
    ensures OnEve(cfg, s, m).due == s.due
  {
    hide KeyForId, Patch, TurnsAfterEve, Trim;
    SameTurns(s.turns, m, KeyForId(m.id));
  }

  lemma IsPrompt(id: Id, sid: SessionRef, p: Prompt)
    requires id != NoId
    ensures Prompts(FromClient(PromptMessage(id, sid, p)), KeyForId(id))
  {
  }

  /** No two prompts of the history share an id. */
  predicate FreshPrompts(log: seq<Event>) {
    forall i, j :: 0 <= i < j < |log| && log[i].FromClient? && log[i].message.IsPrompt() ==>
        !Prompts(log[j], KeyForId(log[i].message.id))
  }

  lemma LogGrows(cfg: Config, s: Proxy, e: Event)
    ensures s.log <= Step(cfg, s, e).log
    ensures e.FromClient? ==> Step(cfg, s, e).log == s.log + [e]
  {
    hide KeyForId, AnsweredLocally, LocalAnswer, Rewrite, TurnsAfterClient, Patch, TurnsAfterEve, Trim;
    hide PublicationError;
  }

  /** Clients that never reuse a prompt id never clash. */
  lemma {:induction false} FreshPromptsNeverClash(cfg: Config, es: seq<Event>)
    requires FreshPrompts(Run(cfg, es).log)
    ensures ClashFree(cfg, es)
    decreases |es|
  {
    hide Step, Prompts;
    if es != [] {
      var n := |es| - 1;
      var s := Run(cfg, es[..n]);
      var log := Run(cfg, es).log;
      LogGrows(cfg, s, es[n]);
      forall i, j | 0 <= i < j < |s.log| && s.log[i].FromClient? && s.log[i].message.IsPrompt()
        ensures !Prompts(s.log[j], KeyForId(s.log[i].message.id))
      {
        assert s.log[i] == log[i] && s.log[j] == log[j];
      }
      FreshPromptsNeverClash(cfg, es[..n]);
      if Clash(s, es[n]) {
        ClashRepeatsPrompt(cfg, es[..n], es[n]);
      }
    }
  }

  lemma ClashRepeatsPrompt(cfg: Config, es: seq<Event>, e: Event)
    requires Clash(Run(cfg, es), e)
    ensures e.FromClient? && !FreshPrompts(Run(cfg, es).log + [e])
  {
    var s := Run(cfg, es);
    var k := s.phase.key;
    RunMatches(cfg, es);
    assert TurnMatches(s, k);
    var i := LastPrompt(s.log, k).value;
    var more := s.log + [e];
    assert Prompts(s.log[i], k) && more[i] == s.log[i] && more[|s.log|] == e;
  }

  // ------------------------------------------------------------ exactly which replies are published

  /** The answer at index n closes an open, uncancelled prompt with an end_turn result and text to post. */
  predicate ShouldPublish(log: seq<Event>, n: nat) {
    && n < |log| && log[n].FromEve? && log[n].message.id != NoId && log[n].message.action.None?
    && EndedWell(log[n].message)
    && var k := KeyForId(log[n].message.id);
       && OpenPrompt(log[..n], k) && LastPrompt(log[..n], k).Some?
       && var turn := TurnFrom(log[..n], LastPrompt(log[..n], k).value);
          !turn.cancelled && !Blank(turn.text)
  }

  predicate DueAt(due: seq<Due>, n: nat) { exists i :: 0 <= i < |due| && due[i].at == n }

  lemma EveDueBefore(cfg: Config, s: Proxy, m: Message, n: nat)
    requires Matches(cfg, s) && s.phase.Reading? && n < |s.log|
    ensures DueAt(OnEve(cfg, s, m).due, n) <==> DueAt(s.due, n)
  {
    hide OnEve, DueMatches, KeyForId, PhaseMatches;
    var t := OnEve(cfg, s, m);
    assert TurnMatches(s, KeyForId(m.id));
    EveAddsDue(cfg, s, m);
    assert forall i :: 0 <= i < |s.due| && t.due != s.due ==> t.due[i] == s.due[i];
    if DueAt(s.due, n) {
      var i :| 0 <= i < |s.due| && s.due[i].at == n;
      assert t.due[i].at == n;
    }
  }

  /** When a message from eve makes a reply due, said of the table. */
  lemma EveDueBranch(cfg: Config, s: Proxy, m: Message)
    requires s.phase.Reading?
    ensures OnEve(cfg, s, m).due != s.due
            <==> && m.IsResponse() && m.Completed() && KeyForId(m.id) in s.turns
                 && !s.turns[KeyForId(m.id)].cancelled && !Blank(s.turns[KeyForId(m.id)].text)
  {
    hide KeyForId, Patch, TurnsAfterEve, Trim, Blank, PublicationError;
    SameTurns(s.turns, m, KeyForId(m.id));
    if KeyForId(m.id) in s.turns { TrimBlank(s.turns[KeyForId(m.id)].text); }
  }

  lemma EveDueNow(cfg: Config, s: Proxy, m: Message)
    requires Matches(cfg, s) && s.phase.Reading? && TurnExact(s, KeyForId(m.id))
    ensures OnEve(cfg, s, m).due != s.due <==> ShouldPublish(s.log + [FromEve(m)], |s.log|)
  {
    hide OnEve, KeyForId, Blank, TurnFrom, LastPrompt, OpenPrompt, DueMatches, RequestMatches;
    var log, k := s.log + [FromEve(m)], KeyForId(m.id);
    assert log[..|s.log|] == s.log && log[|s.log|] == FromEve(m);
    assert TurnMatches(s, k);
    EveDueBranch(cfg, s, m);
  }

  lemma EveDueExact(cfg: Config, s: Proxy, m: Message)
    requires Matches(cfg, s) && s.phase.Reading? && TurnExact(s, KeyForId(m.id))
    ensures var t := OnEve(cfg, s, m);
            && (forall n: nat :: n < |s.log| ==> (DueAt(t.due, n) <==> DueAt(s.due, n)))
            && (DueAt(t.due, |s.log|) <==> ShouldPublish(t.log, |s.log|))
  {
    hide OnEve, KeyForId, ShouldPublish, PhaseMatches;
    var t := OnEve(cfg, s, m);
    assert TurnMatches(s, KeyForId(m.id));
    EveAddsDue(cfg, s, m);
    EveDueNow(cfg, s, m);
    forall n: nat | n < |s.log| ensures DueAt(t.due, n) <==> DueAt(s.due, n) {
      EveDueBefore(cfg, s, m, n);
    }
    assert forall i :: 0 <= i < |s.due| ==> DueMatches(s.log, s.due[i]);
  }

  lemma ShouldPublishStays(log: seq<Event>, e: Event, n: nat)
    requires n < |log|
    ensures ShouldPublish(log + [e], n) <==> ShouldPublish(log, n)
  {
    assert (log + [e])[..n] == log[..n];
  }

  /** With ids not reused under a publication, a reply is taken up for publication exactly when it should be. */
  lemma {:induction false} DueIffShouldPublish(cfg: Config, es: seq<Event>, n: nat)
    requires ClashFree(cfg, es) && n < |Run(cfg, es).log|
    ensures DueAt(Run(cfg, es).due, n) <==> ShouldPublish(Run(cfg, es).log, n)
    decreases |es|
  {
    hide OnClient, OnEve, ShouldPublish, DueAt;
    if es != [] {
      var last := |es| - 1;
      var s := Run(cfg, es[..last]);
      var e := es[last];
      RunMatches(cfg, es[..last]);
      LogShape(cfg, s, e);
      if n < |s.log| {
        DueIffShouldPublish(cfg, es[..last], n);
        if Step(cfg, s, e).log != s.log { ShouldPublishStays(s.log, e, n); }
      }
      if e.FromEve? && s.phase.Reading? {
        RunTurnsExact(cfg, es[..last], KeyForId(e.message.id));
        EveDueExact(cfg, s, e.message);
      } else if e.FromClient? && n == |s.log| {
        ClientIsNeverDue(cfg, s, e.message);
      }
    }
  }

  lemma LogShape(cfg: Config, s: Proxy, e: Event)
    ensures var t := Step(cfg, s, e);
            && (t.log == s.log || t.log == s.log + [e])
            && (e.Published? ==> t.log == s.log)
            && (!(e.FromEve? && s.phase.Reading?) ==> t.due == s.due)
  {
    hide KeyForId, AnsweredLocally, LocalAnswer, Rewrite, TurnsAfterClient, Patch, TurnsAfterEve, Trim;
    hide PublicationError;
  }

  lemma ClientIsNeverDue(cfg: Config, s: Proxy, m: Message)
    requires Matches(cfg, s)
    ensures !DueAt(s.due, |s.log|) && !ShouldPublish(s.log + [FromClient(m)], |s.log|)
  {
    assert forall i :: 0 <= i < |s.due| ==> DueMatches(s.log, s.due[i]);
    assert (s.log + [FromClient(m)])[|s.log|] == FromClient(m);
  }
}
