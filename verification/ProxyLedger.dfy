/**
 The tables of the proxy against the history of its messages, for every run: `requests` and `turns`
 hold exactly what the history says, and what is published is exactly the text of the right turn.
 */
module ProxyLedger {
  import opened Wrappers
  import opened Text
  import opened ProxyModel
  import opened ProxyHistory

  // ------------------------------------------------------------ invariants

  predicate RequestMatches(cfg: Config, s: Proxy, k: string) {
    Lookup(s.requests, k) == PendingCall(cfg, s.log, k)
  }

  /** A turn is what its latest prompt and the messages since made of it. */
  predicate TurnMatches(s: Proxy, k: string) {
    k in s.turns ==>
      LastPrompt(s.log, k).Some? && s.turns[k] == TurnFrom(s.log, LastPrompt(s.log, k).value)
  }

  /** A reply that was due: its answer, and the turn that answer closed, as the history has them. */
  predicate DueMatches(log: seq<Event>, d: Due) {
    && d.at < |log| && Answers(log[d.at], d.key) && EndedWell(log[d.at].message)
    && LastPrompt(log[..d.at], d.key).Some?
    && var turn := TurnFrom(log[..d.at], LastPrompt(log[..d.at], d.key).value);
       !turn.cancelled && d.route == turn.route && d.text == Trim(turn.text) && d.text != ""
  }

  /** The reply being published is the last that was due. */
  predicate PhaseMatches(s: Proxy) {
    s.phase.Publishing? ==>
      && s.due != [] && s.due[|s.due| - 1] == Due(s.phase.at, s.phase.key, Some(s.phase.route), s.phase.text)
      && s.phase.key in s.turns
  }

  ghost predicate Matches(cfg: Config, s: Proxy) {
    && (forall k: string :: RequestMatches(cfg, s, k))
    && (forall k: string :: TurnMatches(s, k))
    && (forall i :: 0 <= i < |s.due| ==> DueMatches(s.log, s.due[i]))
    && PhaseMatches(s)
  }

  // ------------------------------------------------------------ steps

  lemma LastPromptGrows(log: seq<Event>, e: Event, k: string)
    ensures LastPrompt(log + [e], k) == if Prompts(e, k) then Some(|log|) else LastPrompt(log, k)
  {
    assert (log + [e])[..|log + [e]| - 1] == log;
  }

  lemma DueStays(log: seq<Event>, e: Event, d: Due)
    requires DueMatches(log, d)
    ensures DueMatches(log + [e], d)
  {
    assert (log + [e])[..d.at] == log[..d.at];
  }

  lemma ClientKeepsRequest(cfg: Config, s: Proxy, m: Message, k: string)
    requires RequestMatches(cfg, s, k)
    ensures RequestMatches(cfg, OnClient(cfg, s, m), k)
  {
    hide KeyForId, AnsweredLocally, AsksForPinned, LocalAnswer, Rewrite, TurnsAfterClient;
    AnsweredMeans(cfg, m);
    var log := s.log + [FromClient(m)];
    assert log[..|log| - 1] == s.log;
  }

  lemma LocalIsNeutral(cfg: Config, m: Message, k: string, sid: SessionRef)
    requires AnsweredLocally(cfg, m)
    ensures !Prompts(FromClient(m), k) && !CancelsSession(FromClient(m), sid)
  {
    assert "session/set_config_option"[8] == 's' && "session/set_model"[8] == 's';
    assert "session/prompt"[8] == 'p' && "session/cancel"[8] == 'c';
  }

  lemma PromptIsNoCancel(m: Message, sid: SessionRef)
    requires m.IsPrompt()
    ensures !CancelsSession(FromClient(m), sid)
  {
    assert "session/prompt"[8] == 'p' && "session/cancel"[8] == 'c';
  }

  lemma ClientKeepsTurn(cfg: Config, s: Proxy, m: Message, k: string)
    requires TurnMatches(s, k)
    ensures TurnMatches(OnClient(cfg, s, m), k)
  {
    hide KeyForId, AnsweredLocally, LocalAnswer, Rewrite, NewTurn;
    var e := FromClient(m);
    LastPromptGrows(s.log, e, k);
    if m.IsPrompt() && KeyForId(m.id) == k {
      FreshTurn(s.log, m);
      if AnsweredLocally(cfg, m) { LocalIsNeutral(cfg, m, k, NoSession); }
    } else if k in s.turns {
      var i := LastPrompt(s.log, k).value;
      var sid := TurnFrom(s.log, i).session;
      TurnFromGrows(s.log, i, e);
      SessionIsPlain(s.log[i].message);
      if AnsweredLocally(cfg, m) { LocalIsNeutral(cfg, m, k, sid); }
      if m.IsPrompt() { PromptIsNoCancel(m, sid); }
    }
  }

  lemma SessionIsPlain(m: Message)
    ensures !NewTurn(m).session.OddSession?
  {
  }

  lemma EveKeepsRequest(cfg: Config, s: Proxy, m: Message, k: string)
    requires RequestMatches(cfg, s, k)
    ensures RequestMatches(cfg, OnEve(cfg, s, m), k)
  {
    hide KeyForId, Patch, TurnsAfterEve, Trim, PublicationError;
    var log := s.log + [FromEve(m)];
    assert log[..|log| - 1] == s.log;
  }

  lemma TurnsAfterEveMatch(cfg: Config, s: Proxy, m: Message, k: string)
    requires TurnMatches(s, k) && k in s.turns
    ensures k in TurnsAfterEve(s.turns, m)
    ensures LastPrompt(s.log + [FromEve(m)], k).Some?
         && TurnsAfterEve(s.turns, m)[k] == TurnFrom(s.log + [FromEve(m)], LastPrompt(s.log + [FromEve(m)], k).value)
  {
    hide KeyForId, NewTurn;
    LastPromptGrows(s.log, FromEve(m), k);
    TurnFromGrows(s.log, LastPrompt(s.log, k).value, FromEve(m));
  }

  /** After a message from eve no turn is added, and every turn left is the extended one. */
  lemma EveOnlyDropsTurns(cfg: Config, s: Proxy, m: Message, k: string)
    ensures var t := OnEve(cfg, s, m);
            && t.log == s.log + [FromEve(m)]
            && (k in t.turns ==> k in TurnsAfterEve(s.turns, m) && t.turns[k] == TurnsAfterEve(s.turns, m)[k])
            && (k in TurnsAfterEve(s.turns, m) && k !in t.turns ==> m.IsResponse() && k == KeyForId(m.id))
  {
    hide KeyForId, Patch, TurnsAfterEve, Trim, PublicationError;
  }

  lemma SameTurns(turns: map<string, Turn>, m: Message, k: string)
    ensures k in TurnsAfterEve(turns, m) <==> k in turns
    ensures m.IsResponse() ==> TurnsAfterEve(turns, m) == turns
  {
  }

  lemma EveKeepsTurn(cfg: Config, s: Proxy, m: Message, k: string)
    requires TurnMatches(s, k)
    ensures TurnMatches(OnEve(cfg, s, m), k)
  {
    hide OnEve, TurnsAfterEve, TurnFrom, LastPrompt;
    EveOnlyDropsTurns(cfg, s, m, k);
    SameTurns(s.turns, m, k);
    if k in s.turns {
      TurnsAfterEveMatch(cfg, s, m, k);
    }
  }

  /** A message from eve makes at most one reply due, and that reply is its turn's. */
  lemma EveAddsDue(cfg: Config, s: Proxy, m: Message)
    requires TurnMatches(s, KeyForId(m.id)) && s.phase.Reading?
    ensures var t := OnEve(cfg, s, m);
            && t.log == s.log + [FromEve(m)]
            && (t.due != s.due ==>
                  && |t.due| == |s.due| + 1 && t.due[..|s.due|] == s.due
                  && t.due[|s.due|].at == |s.log| && DueMatches(t.log, t.due[|s.due|]))
            && PhaseMatches(t)
  {
    hide KeyForId, Patch, TurnsAfterEve, Trim, PublicationError, TurnFrom, LastPrompt;
    var t := OnEve(cfg, s, m);
    assert t.log[..|s.log|] == s.log;
    SameTurns(s.turns, m, KeyForId(m.id));
  }

  lemma EveKeepsDue(cfg: Config, s: Proxy, m: Message)
    requires Matches(cfg, s) && s.phase.Reading?
    ensures var t := OnEve(cfg, s, m);
            && (forall i :: 0 <= i < |t.due| ==> DueMatches(t.log, t.due[i]))
            && PhaseMatches(t)
  {
    hide OnEve, DueMatches, PhaseMatches, KeyForId;
    var t := OnEve(cfg, s, m);
    assert TurnMatches(s, KeyForId(m.id));
    EveAddsDue(cfg, s, m);
    forall i | 0 <= i < |s.due| ensures DueMatches(t.log, s.due[i]) {
      DueStays(s.log, FromEve(m), s.due[i]);
    }
  }

  lemma ClientKeepsRest(cfg: Config, s: Proxy, m: Message)
    requires Matches(cfg, s)
    ensures var t := OnClient(cfg, s, m);
            && (forall i :: 0 <= i < |t.due| ==> DueMatches(t.log, t.due[i]))
            && PhaseMatches(t)
  {
    hide KeyForId, AnsweredLocally, LocalAnswer, Rewrite, DueMatches;
    forall i | 0 <= i < |s.due| ensures DueMatches(s.log + [FromClient(m)], s.due[i]) {
      DueStays(s.log, FromClient(m), s.due[i]);
    }
  }

  lemma PublishedKeepsMatches(cfg: Config, s: Proxy, p: Publication)
    requires Matches(cfg, s) && s.phase.Publishing?
    ensures Matches(cfg, OnPublished(s, p))
  {
    hide PublicationError, PendingCall, TurnFrom, LastPrompt, DueMatches;
    var t := OnPublished(s, p);
    forall k: string ensures RequestMatches(cfg, t, k) && TurnMatches(t, k) {
      assert RequestMatches(cfg, s, k) && TurnMatches(s, k);
    }
  }

  lemma StepKeepsMatches(cfg: Config, s: Proxy, e: Event)
    requires Matches(cfg, s)
    ensures Matches(cfg, Step(cfg, s, e))
  {
    hide OnClient, OnEve, OnPublished, RequestMatches, TurnMatches, DueMatches, PhaseMatches;
    var t := Step(cfg, s, e);
    match e
    case FromClient(m) =>
      ClientKeepsRest(cfg, s, m);
      forall k: string ensures RequestMatches(cfg, t, k) && TurnMatches(t, k) {
        ClientKeepsRequest(cfg, s, m, k);
        ClientKeepsTurn(cfg, s, m, k);
      }
    case FromEve(m) =>
      if s.phase.Reading? {
        EveKeepsDue(cfg, s, m);
        forall k: string ensures RequestMatches(cfg, t, k) && TurnMatches(t, k) {
          EveKeepsRequest(cfg, s, m, k);
          EveKeepsTurn(cfg, s, m, k);
        }
      }
    case Published(p) =>
      if s.phase.Publishing? {
        PublishedKeepsMatches(cfg, s, p);
      }
  }

  lemma {:induction false} RunMatches(cfg: Config, es: seq<Event>)
    ensures Matches(cfg, Run(cfg, es))
  {
    if es != [] {
      RunMatches(cfg, es[..|es| - 1]);
      StepKeepsMatches(cfg, Run(cfg, es[..|es| - 1]), es[|es| - 1]);
    }
  }

  // ------------------------------------------------------------ main theorems

  /**
   In every run `requests` maps exactly the ids of forwarded and still unanswered client requests to the
   method of the latest such request. Requests of eve, answers of the client and messages with other ids,
   however alike they print, have no part in it.
   */
  lemma RequestsArePendingCalls(cfg: Config, es: seq<Event>, id: Id)
    ensures var s := Run(cfg, es);
            && (KeyForId(id) in s.requests <==> exists i: nat :: LatestCallOf(cfg, s.log, i, id))
            && (forall i: nat :: LatestCallOf(cfg, s.log, i, id) ==>
                  KeyForId(id) in s.requests && s.requests[KeyForId(id)] == s.log[i].message.action.value)
  {
    hide KeyForId, LatestCall, LatestCallOf;
    var s, k := Run(cfg, es), KeyForId(id);
    RequestsByKey(cfg, es, k);
    forall i: nat ensures LatestCall(cfg, s.log, i, k) <==> LatestCallOf(cfg, s.log, i, id) {
      LatestCallById(cfg, s.log, i, id);
    }
  }

  lemma RequestsByKey(cfg: Config, es: seq<Event>, k: string)
    ensures var s := Run(cfg, es);
            && (k in s.requests <==> exists i: nat :: LatestCall(cfg, s.log, i, k))
            && (forall i: nat :: LatestCall(cfg, s.log, i, k) ==>
                k in s.requests && s.requests[k] == s.log[i].message.action.value)
  {
    RunMatches(cfg, es);
    var s := Run(cfg, es);
    assert RequestMatches(cfg, s, k);
    PendingCallMeans(cfg, s.log, k);
  }

  /** Every key of `requests` is that of some id. */
  lemma RequestKeysAreIds(cfg: Config, es: seq<Event>, k: string) returns (id: Id)
    requires k in Run(cfg, es).requests
    ensures k == KeyForId(id)
  {
    hide KeyForId;
    RequestsByKey(cfg, es, k);
    var i: nat :| LatestCall(cfg, Run(cfg, es).log, i, k);
    id := Run(cfg, es).log[i].message.id;
  }

  /**
   The reply d is owed to the prompt at index i: it answers that prompt's id with an end_turn result, its text is
   all text of agent_message_chunk updates for the prompt's session in between, trimmed and not blank, no
   cancellation of the session came in between, and its route is that of the prompt.
   */
  predicate OwedTo(log: seq<Event>, d: Due, i: nat) {
    && i < d.at < |log| && Prompts(log[i], d.key) && Answers(log[d.at], d.key) && EndedWell(log[d.at].message)
    && var m := log[i].message;
       && d.route == RouteNamed(m)
       && d.text == Trim(TextSince(log[..d.at], i + 1, SessionNamed(m)))
       && !Blank(TextSince(log[..d.at], i + 1, SessionNamed(m)))
       && !CancelledSince(log[..d.at], i + 1, SessionNamed(m))
  }

  lemma TurnBefore(log: seq<Event>, n: nat, i: nat)
    requires i < n <= |log| && log[i].FromClient?
    ensures var m := log[i].message;
            var sid := SessionNamed(m);
            TurnFrom(log[..n], i)
                == Turn(CancelledSince(log[..n], i + 1, sid), RouteNamed(m), sid, TextSince(log[..n], i + 1, sid))
  {
    hide SessionNamed, RouteNamed, TextSince, CancelledSince;
    assert log[..n][i] == log[i];
  }

  lemma DueIsOwed(log: seq<Event>, d: Due)
    requires DueMatches(log, d)
    ensures OwedTo(log, d, LastPrompt(log[..d.at], d.key).value)
  {
    hide KeyForId, Trim, Blank, EndedWell, SessionNamed, RouteNamed, TextSince, CancelledSince, Answers, LastPrompt;
    hide TurnFrom;
    var i := LastPrompt(log[..d.at], d.key).value;
    assert log[..d.at][i] == log[i];
    TurnBefore(log, d.at, i);
    TrimBlank(TextSince(log[..d.at], i + 1, SessionNamed(log[i].message)));
  }

  /** The prompt at index i is the latest with its id before the reply's answer. */
  predicate NoPromptSince(log: seq<Event>, i: nat, d: Due) {
    d.at <= |log| && forall j :: i < j < d.at ==> !Prompts(log[j], d.key)
  }

  /** Every text handed to the publisher is owed to the latest prompt with its id. */
  lemma PublishedTextIsTurnText(cfg: Config, es: seq<Event>, d: Due)
    requires d in Run(cfg, es).due
    ensures exists i: nat :: OwedTo(Run(cfg, es).log, d, i) && NoPromptSince(Run(cfg, es).log, i, d)
  {
    hide Run, OwedTo, DueMatches, Prompts;
    RunMatches(cfg, es);
    var log := Run(cfg, es).log;
    var k :| 0 <= k < |Run(cfg, es).due| && Run(cfg, es).due[k] == d;
    assert DueMatches(log, d);
    DueIsOwed(log, d);
    DueHasPrompt(log, d);
    var i := LastPrompt(log[..d.at], d.key).value;
    LastPromptIsLast(log[..d.at], d.key);
    forall j | i < j < d.at ensures !Prompts(log[j], d.key) {
      assert log[..d.at][j] == log[j];
    }
  }

  lemma DueHasPrompt(log: seq<Event>, d: Due)
    requires DueMatches(log, d)
    ensures d.at < |log| && LastPrompt(log[..d.at], d.key).Some?
  {
  }

  lemma {:induction false} LastPromptIsLast(log: seq<Event>, k: string)
    ensures LastPrompt(log, k).Some? ==> forall j :: LastPrompt(log, k).value < j < |log| ==> !Prompts(log[j], k)
  {
    hide Prompts;
    if log != [] { LastPromptIsLast(log[..|log| - 1], k); }
  }

  lemma {:induction false} NoChunkNoText(log: seq<Event>, from: nat, sid: SessionRef)
    requires forall j :: from <= j < |log| ==> ChunkIn(log[j], sid) == ""
    ensures TextSince(log, from, sid) == ""
  {
    hide ChunkIn;
    if |log| > from { NoChunkNoText(log[..|log| - 1], from, sid); }
  }

  lemma OwedHasText(log: seq<Event>, d: Due, i: nat)
    requires OwedTo(log, d, i)
    ensures exists j :: i < j < d.at && ChunkIn(log[j], SessionNamed(log[i].message)) != ""
  {
    hide Answers, EndedWell, RouteNamed, KeyForId, SessionNamed, ChunkIn, CancelledSince, Trim;
    if forall j :: i < j < d.at ==> ChunkIn(log[j], SessionNamed(log[i].message)) == "" {
      forall j | i + 1 <= j < |log[..d.at]| ensures ChunkIn(log[..d.at][j], SessionNamed(log[i].message)) == "" {
        assert log[..d.at][j] == log[j];
      }
      NoChunkNoText(log[..d.at], i + 1, SessionNamed(log[i].message));
    }
  }

  /** A turn to which no agent text came, but tool calls or thoughts say, is never due. */
  lemma OtherUpdatesAreNeverDue(cfg: Config, es: seq<Event>, i: nat, n: nat, k: string)
    requires var log := Run(cfg, es).log;
             && i < n < |log| && Prompts(log[i], k) && Answers(log[n], k)
             && forall j :: i < j < n ==> !Prompts(log[j], k) && ChunkIn(log[j], SessionNamed(log[i].message)) == ""
    ensures forall d :: d in Run(cfg, es).due ==> d.at != n
  {
    hide Run, OwedTo, ChunkIn, KeyForId;
    var log := Run(cfg, es).log;
    forall d | d in Run(cfg, es).due ensures d.at != n {
      PublishedTextIsTurnText(cfg, es, d);
      var i': nat :| OwedTo(log, d, i') && NoPromptSince(log, i', d);
      OwedPrompt(log, d, i');
      OwedHasText(log, d, i');
    }
  }

  lemma OwedPrompt(log: seq<Event>, d: Due, i: nat)
    requires OwedTo(log, d, i)
    ensures i < d.at < |log| && Prompts(log[i], d.key) && Answers(log[d.at], d.key)
  {
  }

  /** The text being published is one of those. */
  lemma PublishingIsDue(cfg: Config, es: seq<Event>)
    ensures var s := Run(cfg, es);
            s.phase.Publishing? ==> Due(s.phase.at, s.phase.key, Some(s.phase.route), s.phase.text) in s.due
  {
    RunMatches(cfg, es);
  }
}
