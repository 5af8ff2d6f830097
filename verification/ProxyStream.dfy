/**
 Conservation of the two message streams, for every run: nothing is lost, invented, duplicated or
 reordered between the client and eve.
 */
module ProxyStream {
  import opened Wrappers
  import opened Text
  import opened Sequences
  import opened BuzzContext
  import opened ProxyModel
  import opened ProxyHistory
  import opened ProxyLedger
  import opened ProxyTurns

  // ------------------------------------------------------------ the streams of a run

  function ClientMessages(es: seq<Event>): seq<Message> {
    FlatMap(es, MessageOfClient)
  }

  function MessageOfClient(e: Event): seq<Message> { if e.FromClient? then [e.message] else [] }

  /** The indices of the messages from eve, in order. */
  function EveIndices(log: seq<Event>): seq<nat> {
    if log == [] then []
    else EveIndices(log[..|log| - 1]) + (if log[|log| - 1].FromEve? then [|log| - 1] else [])
  }

  /** What eve is owed for one client message. */
  function ForEve(cfg: Config): Message -> seq<Message> {
    (m: Message) => if AsksForPinned(cfg, m) then [] else [Rewrite(cfg, m)]
  }

  function RelayIndex(x: Sent): seq<nat> { if x.Relayed? then [x.at] else [] }

  function Pending(p: Phase): seq<nat> { if p.Publishing? then [p.at] else [] }

  // ------------------------------------------------------------ what eve gets to see

  /**
   Rewriting keeps a message's id, method, result and error. A prompt keeps its blocks and gets one more,
   so that parsed again it registers the same turn; a new session gets the connector's directory if no
   target is set; every other message is left as it is.
   */
  lemma RewriteIsTransparent(cfg: Config, m: Message)
    ensures var r := Rewrite(cfg, m);
            && r.id == m.id && r.action == m.action && r.result == m.result && r.error == m.error
            && (m.id != NoId && m.action == Some("session/prompt") ==>
                  && NewTurn(r) == NewTurn(m) && r.PromptOf().Blocks?
                  && r.PromptOf().blocks
                      == (if m.PromptOf().Blocks? then m.PromptOf().blocks else [])
                       + [TextBlock(["[eve Buzz ACP connector]", cfg.sinkText])])
            && (m.action == Some("session/new") && cfg.target.None? ==>
                  && r.params.Some? && r.params.value.cwd == Some(cfg.cwd)
                  && r.params.value.(cwd := ParamsOf(m).cwd) == ParamsOf(m))
            && (|| r == m || (m.id != NoId && m.action == Some("session/prompt"))
                || (m.action == Some("session/new") && cfg.target.None?))
  {
    hide ParseRoute, SinkInstruction;
    assert "session/new"[8] == 'n' && "session/prompt"[8] == 'p';
    SinkKeepsRoute(m.PromptOf(), cfg.sinkText);
    SinkIsWritten(cfg.sinkText);
  }

  // ------------------------------------------------------------ eve's side

  function LocalId(x: Sent): seq<Id> { if x.Local? then [x.message.id] else [] }

  function OwnId(cfg: Config): Message -> seq<Id> { (m: Message) => if AsksForPinned(cfg, m) then [m.id] else [] }

  /** A success that names the pinned model. */
  predicate NamesModel(cfg: Config, m: Message) {
    && m.id != NoId && m.action.None? && m.error.None? && m.result.Some?
    && m.result.value.fixedModel == cfg.modelId && cfg.modelId.Some? && cfg.modelId.value != ""
  }

  /** What eve and the client got for the client's messages ms. */
  predicate ForwardedAll(cfg: Config, s: Proxy, ms: seq<Message>) {
    && s.toEve == FlatMap(ms, ForEve(cfg))
    && FlatMap(s.toClient, LocalId) == FlatMap(ms, OwnId(cfg))
    && forall i :: 0 <= i < |s.toClient| && s.toClient[i].Local? ==> NamesModel(cfg, s.toClient[i].message)
  }

  lemma FlatMapSnoc<A, B>(xs: seq<A>, x: A, f: A -> seq<B>)
    ensures FlatMap(xs + [x], f) == FlatMap(xs, f) + f(x)
  {
    FlatMapConcat(xs, [x], f);
    assert [x][1..] == [];
    assert FlatMap([x], f) == f(x);
  }

  lemma LocalAnswerAnswers(cfg: Config, m: Message)
    requires AnsweredLocally(cfg, m)
    ensures NamesModel(cfg, LocalAnswer(cfg, m)) && LocalAnswer(cfg, m).id == m.id
  {
  }

  lemma ClientForwards(cfg: Config, s: Proxy, m: Message, ms: seq<Message>)
    requires ForwardedAll(cfg, s, ms)
    ensures ForwardedAll(cfg, OnClient(cfg, s, m), ms + [m])
  {
    if AnsweredLocally(cfg, m) { LocalAnswerAnswers(cfg, m); }
    AnsweredMeans(cfg, m);
    hide AnsweredLocally, AsksForPinned, LocalAnswer, Rewrite, TurnsAfterClient, KeyForId, NamesModel;
    FlatMapSnoc(ms, m, ForEve(cfg));
    FlatMapSnoc(ms, m, OwnId(cfg));
    FlatMapSnoc(s.toClient, Local(LocalAnswer(cfg, m)), LocalId);
  }

  /** A request for a model that is not the pinned one reaches eve as it is, and the proxy answers nothing. */
  lemma OtherModelReachesEve(cfg: Config, s: Proxy, m: Message)
    requires m.action == Some("session/set_model") && m.params.Some? && m.params.value.modelId != cfg.modelId
    ensures OnClient(cfg, s, m).toEve == s.toEve + [m] && OnClient(cfg, s, m).toClient == s.toClient
  {
    hide TurnsAfterClient, KeyForId;
    assert "session/set_model"[8] == 's' && "session/new"[8] == 'n' && "session/prompt"[8] == 'p';
    assert "session/set_config_option"[12] == 'c' && "session/set_model"[12] == 'm';
  }

  /** So does a choice of another option, or of another value for the option. */
  lemma OtherOptionReachesEve(cfg: Config, s: Proxy, m: Message)
    requires m.action == Some("session/set_config_option") && m.params.Some?
    requires m.params.value.configId != Some("eve.authored_model") || m.params.value.value != cfg.modelId
    ensures OnClient(cfg, s, m).toEve == s.toEve + [m] && OnClient(cfg, s, m).toClient == s.toClient
  {
    hide TurnsAfterClient, KeyForId;
    assert "session/set_config_option"[8] == 's' && "session/new"[8] == 'n' && "session/prompt"[8] == 'p';
    assert "session/set_config_option"[12] == 'c' && "session/set_model"[12] == 'm';
  }

  /** Eve and the end of a publication send the client at most one message, a relayed one, and eve none. */
  lemma OthersOnlyRelay(cfg: Config, s: Proxy, e: Event)
    requires !e.FromClient?
    ensures var t := Step(cfg, s, e);
            && t.toEve == s.toEve
            && (t.toClient == s.toClient || exists x: Sent :: x.Relayed? && t.toClient == s.toClient + [x])
  {
    hide KeyForId, Patch, TurnsAfterEve, Trim, PublicationError;
  }

  lemma OthersForwardNothing(cfg: Config, s: Proxy, e: Event, ms: seq<Message>)
    requires ForwardedAll(cfg, s, ms) && !e.FromClient?
    ensures ForwardedAll(cfg, Step(cfg, s, e), ms)
  {
    hide Step, NamesModel;
    var t := Step(cfg, s, e);
    OthersOnlyRelay(cfg, s, e);
    if t.toClient != s.toClient {
      var x: Sent :| x.Relayed? && t.toClient == s.toClient + [x];
      FlatMapSnoc(s.toClient, x, LocalId);
    }
  }

  /**
   Eve receives exactly the client's messages in their order, each rewritten as RewriteIsTransparent says,
   less the fixed-model requests. The proxy's own answers are one for each of those, in their order, with
   its id, and each is a success that names the pinned model.
   */
  lemma {:induction false} ClientStreamConserved(cfg: Config, es: seq<Event>)
    ensures ForwardedAll(cfg, Run(cfg, es), ClientMessages(es))
  {
    hide Step;
    if es != [] {
      var n := |es| - 1;
      ClientStreamConserved(cfg, es[..n]);
      assert es == es[..n] + [es[n]];
      FlatMapSnoc(es[..n], es[n], MessageOfClient);
      assert ClientMessages(es[..n]) + [] == ClientMessages(es[..n]);
      if es[n].FromClient? {
        ClientForwards(cfg, Run(cfg, es[..n]), es[n].message, ClientMessages(es[..n]));
        StepOfClient(cfg, Run(cfg, es[..n]), es[n]);
      } else {
        OthersForwardNothing(cfg, Run(cfg, es[..n]), es[n], ClientMessages(es[..n]));
      }
    }
  }

  lemma StepOfClient(cfg: Config, s: Proxy, e: Event)
    requires e.FromClient?
    ensures Step(cfg, s, e) == OnClient(cfg, s, e.message)
  {
  }

  // ------------------------------------------------------------ the client's side

  /** The internal error of JSON-RPC 2.0, section 5.1, in place of a result, under the id of the answer it replaces. */
  predicate IsPublicationError(m: Message, id: Id) {
    && m.id == id && m.action.None? && m.params.None? && m.result.None? && m.error.Some?
    && m.error.value.code == -32603 && "Buzz reply publication failed: " <= m.error.value.message
  }

  lemma ErrorsAreErrors(id: Id, detail: string)
    ensures IsPublicationError(PublicationError(id, detail), id)
  {
  }

  /**
   What the client may get for the eve message at index n: that message, with the pinned model if it
   answers a session/new, or a publication error with the same id if its reply was due.
   */
  predicate FaithfulRelay(cfg: Config, log: seq<Event>, due: seq<Due>, x: Sent) {
    x.Relayed? ==>
      && x.at < |log| && log[x.at].FromEve?
      && var m := log[x.at].message;
         var answer := if m.IsResponse() then Patch(cfg, PendingCall(cfg, log[..x.at], KeyForId(m.id)), m) else m;
         if DueAt(due, x.at)
         then x.message == answer || IsPublicationError(x.message, m.id)
         else x.message == answer
  }

  /** The answer held back while its reply is being published. */
  predicate HeldBack(cfg: Config, s: Proxy) {
    s.phase.Publishing? ==>
      && s.phase.at < |s.log| && s.log[s.phase.at].FromEve? && DueAt(s.due, s.phase.at)
      && var m := s.log[s.phase.at].message;
         m.IsResponse() && s.phase.answer.id == m.id
         && s.phase.answer == Patch(cfg, PendingCall(cfg, s.log[..s.phase.at], KeyForId(m.id)), m)
  }

  ghost predicate RelaysOk(cfg: Config, s: Proxy) {
    && FlatMap(s.toClient, RelayIndex) + Pending(s.phase) == EveIndices(s.log)
    && (forall i :: 0 <= i < |s.toClient| ==> FaithfulRelay(cfg, s.log, s.due, s.toClient[i]))
    && HeldBack(cfg, s)
  }

  lemma EveIndicesGrow(log: seq<Event>, e: Event)
    ensures EveIndices(log + [e]) == EveIndices(log) + (if e.FromEve? then [|log|] else [])
  {
    assert (log + [e])[..|log + [e]| - 1] == log;
  }

  /** Old relays stay faithful when the log grows and only newer replies become due. */
  lemma RelayStays(cfg: Config, log: seq<Event>, e: Event, due: seq<Due>, more: seq<Due>, x: Sent)
    requires FaithfulRelay(cfg, log, due, x)
    requires forall n: nat :: n < |log| ==> (DueAt(more, n) <==> DueAt(due, n))
    ensures FaithfulRelay(cfg, log + [e], more, x)
  {
    hide Patch, PendingCall, PublicationError, DueAt, KeyForId;
    if x.Relayed? {
      assert (log + [e])[..x.at] == log[..x.at];
    }
  }

  /** What is held back stays so when the log grows and only newer replies become due. */
  lemma HeldBackStays(cfg: Config, s: Proxy, t: Proxy, e: Event)
    requires HeldBack(cfg, s) && t.phase == s.phase && t.log == s.log + [e] && t.due == s.due
    ensures HeldBack(cfg, t)
  {
    hide Patch, PendingCall, DueAt, KeyForId;
    if s.phase.Publishing? {
      assert t.log[..s.phase.at] == s.log[..s.phase.at];
    }
  }

  lemma ClientStep(cfg: Config, s: Proxy, m: Message)
    ensures var t := OnClient(cfg, s, m);
            && t.phase == s.phase && t.log == s.log + [FromClient(m)] && t.due == s.due
            && (t.toClient == s.toClient || t.toClient == s.toClient + [Local(LocalAnswer(cfg, m))])
  {
    hide AnsweredLocally, LocalAnswer, Rewrite, TurnsAfterClient, KeyForId;
  }

  lemma ClientKeepsRelays(cfg: Config, s: Proxy, m: Message)
    requires RelaysOk(cfg, s)
    ensures RelaysOk(cfg, OnClient(cfg, s, m))
  {
    hide OnClient, LocalAnswer, FaithfulRelay, HeldBack, EveIndices, DueAt;
    var t := OnClient(cfg, s, m);
    ClientStep(cfg, s, m);
    EveIndicesGrow(s.log, FromClient(m));
    HeldBackStays(cfg, s, t, FromClient(m));
    FlatMapSnoc(s.toClient, Local(LocalAnswer(cfg, m)), RelayIndex);
    forall i | 0 <= i < |t.toClient| ensures FaithfulRelay(cfg, t.log, t.due, t.toClient[i]) {
      if i < |s.toClient| {
        RelayStays(cfg, s.log, FromClient(m), s.due, t.due, s.toClient[i]);
      } else {
        LocalIsFaithful(cfg, t.log, t.due, t.toClient[i]);
      }
    }
  }

  lemma LocalIsFaithful(cfg: Config, log: seq<Event>, due: seq<Due>, x: Sent)
    requires x.Local?
    ensures FaithfulRelay(cfg, log, due, x)
  {
  }

  /**
   What an answer to the given call becomes: the same message, or, if it is a success of session/new and a
   model is pinned, the same but for the model members of its result.
   */
  predicate Pinned(cfg: Config, call: Option<string>, m: Message, p: Message) {
    && p.id == m.id && p.action == m.action && p.params == m.params && p.error == m.error
    && (if call == Some("session/new") && m.error.None? && cfg.modelId.Some? && cfg.modelId.value != ""
        then p.result.Some? && p.result.value.fixedModel == cfg.modelId
             && (m.result.Some? ==> p.result.value.(fixedModel := m.result.value.fixedModel) == m.result.value)
        else p == m)
  }

  lemma PatchOnlyPins(cfg: Config, call: Option<string>, m: Message)
    ensures Pinned(cfg, call, m, Patch(cfg, call, m))
  {
  }

  lemma PatchKeepsId(cfg: Config, call: Option<string>, m: Message)
    ensures Patch(cfg, call, m).id == m.id
  {
    PatchOnlyPins(cfg, call, m);
  }

  /** What one message from eve adds: one relay for it, or the answer held back. */
  lemma EveRelay(cfg: Config, s: Proxy, m: Message)
    requires Matches(cfg, s) && s.phase.Reading?
    ensures var t := OnEve(cfg, s, m);
            && t.log == s.log + [FromEve(m)]
            && (t.phase.Reading? ==>
                  |t.toClient| == |s.toClient| + 1 && t.toClient[..|s.toClient|] == s.toClient
                  && t.toClient[|s.toClient|].Relayed? && t.toClient[|s.toClient|].at == |s.log|
                  && FaithfulRelay(cfg, t.log, t.due, t.toClient[|s.toClient|]))
            && (t.phase.Publishing? ==> t.toClient == s.toClient && t.phase.at == |s.log| && HeldBack(cfg, t))
  {
    hide KeyForId, Patch, PendingCall, TurnsAfterEve, Trim, TurnFrom, LastPrompt, PublicationError, TurnMatches;
    hide IsPublicationError;
    var t := OnEve(cfg, s, m);
    var k := KeyForId(m.id);
    assert RequestMatches(cfg, s, k);
    assert t.log[..|s.log|] == s.log && t.log[|s.log|] == FromEve(m);
    PatchKeepsId(cfg, Lookup(s.requests, k), m);
    ErrorsAreErrors(m.id, NO_ROUTE);
    assert forall i :: 0 <= i < |s.due| ==> DueMatches(s.log, s.due[i]);
    if t.due != s.due {
      assert t.due[|s.due|].at == |s.log|;
    }
  }

  /** One relay more, or one held back, keeps the order of eve's messages. */
  lemma EveKeepsOrder(s: Proxy, t: Proxy, m: Message)
    requires FlatMap(s.toClient, RelayIndex) + Pending(s.phase) == EveIndices(s.log) && s.phase.Reading?
    requires t.log == s.log + [FromEve(m)]
    requires t.phase.Reading? ==>
        && |t.toClient| == |s.toClient| + 1 && t.toClient[..|s.toClient|] == s.toClient
        && t.toClient[|s.toClient|].Relayed? && t.toClient[|s.toClient|].at == |s.log|
    requires t.phase.Publishing? ==> t.toClient == s.toClient && t.phase.at == |s.log|
    ensures FlatMap(t.toClient, RelayIndex) + Pending(t.phase) == EveIndices(t.log)
  {
    hide EveIndices, FlatMap;
    EveIndicesGrow(s.log, FromEve(m));
    if t.phase.Reading? {
      assert t.toClient == s.toClient + [t.toClient[|s.toClient|]];
      FlatMapSnoc(s.toClient, t.toClient[|s.toClient|], RelayIndex);
    }
  }

  lemma EveKeepsRelays(cfg: Config, s: Proxy, m: Message)
    requires Matches(cfg, s) && RelaysOk(cfg, s) && s.phase.Reading?
    ensures RelaysOk(cfg, OnEve(cfg, s, m))
  {
    hide OnEve, FaithfulRelay, HeldBack, DueAt, Matches, EveIndices, FlatMap;
    var t := OnEve(cfg, s, m);
    EveRelay(cfg, s, m);
    EveKeepsOrder(s, t, m);
    forall n: nat | n < |s.log| ensures DueAt(t.due, n) <==> DueAt(s.due, n) {
      EveDueBefore(cfg, s, m, n);
    }
    forall i | 0 <= i < |t.toClient| ensures FaithfulRelay(cfg, t.log, t.due, t.toClient[i]) {
      if i < |s.toClient| {
        assert t.toClient[i] == t.toClient[..|s.toClient|][i];
        RelayStays(cfg, s.log, FromEve(m), s.due, t.due, s.toClient[i]);
      }
    }
    if t.phase.Reading? { NothingHeldBack(cfg, t); }
  }

  lemma NothingHeldBack(cfg: Config, s: Proxy)
    requires s.phase.Reading?
    ensures HeldBack(cfg, s)
  {
  }

  lemma PublishedKeepsRelays(cfg: Config, s: Proxy, p: Publication)
    requires RelaysOk(cfg, s) && s.phase.Publishing?
    ensures RelaysOk(cfg, OnPublished(s, p))
  {
    hide Patch, PendingCall, PublicationError, IsPublicationError, DueAt, KeyForId;
    if p.Failed? { ErrorsAreErrors(s.phase.answer.id, p.detail); }
    var t := OnPublished(s, p);
    var x := t.toClient[|s.toClient|];
    FlatMapSnoc(s.toClient, x, RelayIndex);
    assert FaithfulRelay(cfg, t.log, t.due, x);
  }

  lemma StepKeepsRelays(cfg: Config, s: Proxy, e: Event)
    requires Matches(cfg, s) && RelaysOk(cfg, s)
    ensures RelaysOk(cfg, Step(cfg, s, e))
  {
    hide OnClient, OnEve, OnPublished, RelaysOk, Matches;
    match e
    case FromClient(m) => ClientKeepsRelays(cfg, s, m);
    case FromEve(m) => if s.phase.Reading? { EveKeepsRelays(cfg, s, m); }
    case Published(p) => if s.phase.Publishing? { PublishedKeepsRelays(cfg, s, p); }
  }

  lemma {:induction false} RunRelaysOk(cfg: Config, es: seq<Event>)
    ensures RelaysOk(cfg, Run(cfg, es))
  {
    hide RelaysOk, Matches, Step;
    if es == [] {
      assert RelaysOk(cfg, START) by { StartRelaysOk(cfg); }
    } else {
      var n := |es| - 1;
      RunRelaysOk(cfg, es[..n]);
      RunMatches(cfg, es[..n]);
      StepKeepsRelays(cfg, Run(cfg, es[..n]), es[n]);
    }
  }

  lemma StartRelaysOk(cfg: Config)
    ensures RelaysOk(cfg, START)
  {
  }

  // ------------------------------------------------------------ main theorem

  /** EveIndices lists every message from eve once, in order. */
  lemma {:induction false} EveIndicesAreEveMessages(log: seq<Event>)
    ensures forall i :: 0 <= i < |EveIndices(log)| ==> EveIndices(log)[i] < |log| && log[EveIndices(log)[i]].FromEve?
    ensures forall i, j :: 0 <= i < j < |EveIndices(log)| ==> EveIndices(log)[i] < EveIndices(log)[j]
    ensures forall i :: 0 <= i < |log| && log[i].FromEve? ==> i in EveIndices(log)
  {
    if log != [] {
      var n := |log| - 1;
      var before := EveIndices(log[..n]);
      EveIndicesAreEveMessages(log[..n]);
      forall i | 0 <= i < |log| && log[i].FromEve? ensures i in EveIndices(log) {
        if i < n { assert log[..n][i].FromEve? && i in before; }
      }
    }
  }

  /** The call that an answer at log index `at` was pending for; other messages answer none. */
  function CallAnswered(cfg: Config, log: seq<Event>, at: nat): Option<string>
    requires at < |log| && log[at].FromEve?
  {
    var m := log[at].message;
    if m.IsResponse() then PendingCall(cfg, log[..at], KeyForId(m.id)) else None
  }

  /**
   The messages passed on to the client are, in order, one for each message from eve, except that the
   latest may still be held back for its publication. Each is that message itself, with the pinned model
   if it is a success of session/new, or, only if its reply was due, a publication error; always with the
   same id.
   */
  lemma EveStreamConserved(cfg: Config, es: seq<Event>)
    ensures var s := Run(cfg, es);
            && FlatMap(s.toClient, RelayIndex) + Pending(s.phase) == EveIndices(s.log)
            && forall i :: 0 <= i < |s.toClient| && s.toClient[i].Relayed? ==>
                 var x := s.toClient[i];
                 && x.at < |s.log| && s.log[x.at].FromEve? && x.message.id == s.log[x.at].message.id
                 && (|| Pinned(cfg, CallAnswered(cfg, s.log, x.at), s.log[x.at].message, x.message)
                     || (DueAt(s.due, x.at) && IsPublicationError(x.message, s.log[x.at].message.id)))
  {
    hide Patch, PendingCall, DueAt, KeyForId, Pinned;
    var s := Run(cfg, es);
    RunRelaysOk(cfg, es);
    forall i | 0 <= i < |s.toClient| && s.toClient[i].Relayed?
      ensures var x := s.toClient[i];
              && x.at < |s.log| && s.log[x.at].FromEve? && x.message.id == s.log[x.at].message.id
              && (|| Pinned(cfg, CallAnswered(cfg, s.log, x.at), s.log[x.at].message, x.message)
                  || (DueAt(s.due, x.at) && IsPublicationError(x.message, s.log[x.at].message.id)))
    {
      RelayIsPinnedOrError(cfg, s.log, s.due, s.toClient[i]);
    }
  }

  lemma RelayIsPinnedOrError(cfg: Config, log: seq<Event>, due: seq<Due>, x: Sent)
    requires x.Relayed? && FaithfulRelay(cfg, log, due, x)
    ensures x.at < |log| && log[x.at].FromEve? && x.message.id == log[x.at].message.id
    ensures || Pinned(cfg, CallAnswered(cfg, log, x.at), log[x.at].message, x.message)
            || (DueAt(due, x.at) && IsPublicationError(x.message, log[x.at].message.id))
  {
    hide PendingCall, DueAt, KeyForId, Patch, Pinned;
    var m := log[x.at].message;
    var call := CallAnswered(cfg, log, x.at);
    PatchKeepsId(cfg, call, m);
    PatchOnlyPins(cfg, call, m);
    VerbatimIsPinned(cfg, m);
  }

  lemma VerbatimIsPinned(cfg: Config, m: Message)
    ensures Pinned(cfg, None, m, m)
  {
  }
}
