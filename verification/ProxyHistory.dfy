/**
 What the proxy's tables must hold, read off the history of messages alone: which calls are pending,
 which prompts are open, what text a turn has gathered and whether it was cancelled.
 */
module ProxyHistory {
  import opened Wrappers
  import opened BuzzContext
  import opened ProxyModel

  /** A request to select the very model that is pinned, by either of the two methods for it. */
  predicate AsksForPinned(cfg: Config, m: Message) {
    && m.id != NoId && cfg.modelId.Some? && cfg.modelId.value != "" && m.params.Some?
    && ((m.action == Some("session/set_config_option")
         && m.params.value.configId == Some("eve.authored_model") && m.params.value.value == cfg.modelId)
        || (m.action == Some("session/set_model") && m.params.value.modelId == cfg.modelId))
  }

  /** Those are the requests that the proxy answers by itself. */
  lemma AnsweredMeans(cfg: Config, m: Message)
    ensures AnsweredLocally(cfg, m) <==> AsksForPinned(cfg, m)
  {
  }

  /** Event e is a client request forwarded to eve under key k. */
  predicate Forwards(cfg: Config, e: Event, k: string) {
    && e.FromClient? && e.message.id != NoId && e.message.action.Some? && !AsksForPinned(cfg, e.message)
    && KeyForId(e.message.id) == k
  }

  predicate Prompts(e: Event, k: string) {
    e.FromClient? && e.message.id != NoId && e.message.action == Some("session/prompt") && KeyForId(e.message.id) == k
  }

  predicate Answers(e: Event, k: string) {
    e.FromEve? && e.message.id != NoId && e.message.action.None? && KeyForId(e.message.id) == k
  }

  /** The latest forwarded request under k, unless it was answered since. */
  function PendingCall(cfg: Config, log: seq<Event>, k: string): Option<string> {
    if log == [] then None
    else
      var e := log[|log| - 1];
      if Forwards(cfg, e, k) then Some(e.message.action.value)
      else if Answers(e, k) then None
      else PendingCall(cfg, log[..|log| - 1], k)
  }

  /** A prompt under k was registered and has not been answered since. */
  function OpenPrompt(log: seq<Event>, k: string): bool {
    if log == [] then false
    else
      var e := log[|log| - 1];
      Prompts(e, k) || (!Answers(e, k) && OpenPrompt(log[..|log| - 1], k))
  }

  function LastPrompt(log: seq<Event>, k: string): (r: Option<nat>)
    ensures r.Some? ==> r.value < |log| && Prompts(log[r.value], k)
  {
    if log == [] then None
    else if Prompts(log[|log| - 1], k) then Some(|log| - 1)
    else LastPrompt(log[..|log| - 1], k)
  }

  /** All agent text for a session in log[from..], in order of arrival. */
  function TextSince(log: seq<Event>, from: nat, sid: SessionRef): string {
    if |log| <= from then ""
    else TextSince(log[..|log| - 1], from, sid) + ChunkIn(log[|log| - 1], sid)
  }

  /** Only an agent_message_chunk of the session, with a text, contributes: that text. */
  function ChunkIn(e: Event, sid: SessionRef): string {
    if e.FromEve? && e.message.action == Some("session/update") && e.message.params.Some?
    then
      var p := e.message.params.value;
      if p.sessionId == sid && p.update.Update? && p.update.kind == Some("agent_message_chunk")
        && p.update.contentType == Some("text") && p.update.text.Some?
      then p.update.text.value
      else ""
    else ""
  }

  predicate CancelsSession(e: Event, sid: SessionRef) {
    && e.FromClient? && e.message.action == Some("session/cancel") && sid.Session?
    && e.message.params.Some? && e.message.params.value.sessionId == sid
  }

  predicate CancelledSince(log: seq<Event>, from: nat, sid: SessionRef) {
    exists j :: from <= j < |log| && CancelsSession(log[j], sid)
  }

  /** The session that a prompt names, if it is a string. */
  function SessionNamed(m: Message): SessionRef {
    if m.params.Some? && m.params.value.sessionId.Session? then m.params.value.sessionId else NoSession
  }

  function RouteNamed(m: Message): Option<BuzzRoute> {
    if m.params.Some? && m.params.value.prompt.Some? then ParseRoute(m.params.value.prompt.value) else None
  }

  /** The turn registered by the prompt at index i, as the rest of the log left it. */
  function TurnFrom(log: seq<Event>, i: nat): Turn
    requires i < |log| && log[i].FromClient?
  {
    var m := log[i].message;
    Turn(CancelledSince(log, i + 1, SessionNamed(m)), RouteNamed(m), SessionNamed(m),
        TextSince(log, i + 1, SessionNamed(m)))
  }

  /** A result, not an error, whose stop reason is end_turn. */
  predicate EndedWell(m: Message) {
    m.error.None? && m.result.Some? && m.result.value.stopReason == Some("end_turn")
  }

  // ------------------------------------------------------------ the same, with indices

  /** The request at index i was forwarded under k; neither a request nor an answer under k came after it. */
  predicate LatestCall(cfg: Config, log: seq<Event>, i: nat, k: string) {
    && i < |log| && Forwards(cfg, log[i], k)
    && forall j :: i < j < |log| ==> !Forwards(cfg, log[j], k) && !Answers(log[j], k)
  }

  /** The prompt at index i was registered under k; no answer under k came after it. */
  predicate UnansweredPrompt(log: seq<Event>, i: nat, k: string) {
    i < |log| && Prompts(log[i], k) && forall j :: i < j < |log| ==> !Answers(log[j], k)
  }

  lemma NeverBoth(cfg: Config, e: Event, k: string)
    ensures !(Forwards(cfg, e, k) && Answers(e, k))
  {
  }

  /** A call is pending exactly when it is the latest forwarded request under its id and still unanswered. */
  lemma {:induction false} PendingCallMeans(cfg: Config, log: seq<Event>, k: string)
    ensures PendingCall(cfg, log, k).Some? <==> exists i: nat :: LatestCall(cfg, log, i, k)
    ensures forall i: nat :: LatestCall(cfg, log, i, k) ==>
        PendingCall(cfg, log, k) == Some(log[i].message.action.value)
  {
    hide Forwards, Answers;
    if log != [] {
      var n := |log| - 1;
      var before := log[..n];
      PendingCallMeans(cfg, before, k);
      NeverBoth(cfg, log[n], k);
      if Forwards(cfg, log[n], k) {
        assert LatestCall(cfg, log, n, k);
        assert forall i: nat :: i < n ==> !LatestCall(cfg, log, i, k);
      } else if !Answers(log[n], k) {
        forall i: nat ensures LatestCall(cfg, log, i, k) <==> LatestCall(cfg, before, i, k) {
          if LatestCall(cfg, before, i, k) {
            forall j | i < j < |log| ensures !Forwards(cfg, log[j], k) && !Answers(log[j], k) {
              assert j < n ==> before[j] == log[j];
            }
          }
        }
      }
    }
  }

  /** A prompt is open exactly when it stands in the log with no answer to its id after it. */
  lemma {:induction false} OpenPromptMeans(log: seq<Event>, k: string)
    ensures OpenPrompt(log, k) <==> exists i: nat :: UnansweredPrompt(log, i, k)
  {
    hide Prompts, Answers;
    if log != [] {
      var n := |log| - 1;
      var before := log[..n];
      OpenPromptMeans(before, k);
      if Prompts(log[n], k) {
        assert UnansweredPrompt(log, n, k);
      } else if !Answers(log[n], k) {
        forall i: nat ensures UnansweredPrompt(log, i, k) <==> UnansweredPrompt(before, i, k) {
          if UnansweredPrompt(before, i, k) {
            forall j | i < j < |log| ensures !Answers(log[j], k) {
              assert j < n ==> before[j] == log[j];
            }
          }
        }
      }
    }
  }

  // ------------------------------------------------------------ the same, by ids

  /** The request at index i was forwarded with this id; no request or answer with the same id came after it. */
  predicate LatestCallOf(cfg: Config, log: seq<Event>, i: nat, id: Id) {
    && i < |log| && ForwardsId(cfg, log[i], id)
    && forall j :: i < j < |log| ==> !ForwardsId(cfg, log[j], id) && !AnswersId(log[j], id)
  }

  /** The prompt at index i was registered with this id; no answer with the same id came after it. */
  predicate UnansweredPromptOf(log: seq<Event>, i: nat, id: Id) {
    i < |log| && PromptsId(log[i], id) && forall j :: i < j < |log| ==> !AnswersId(log[j], id)
  }

  predicate ForwardsId(cfg: Config, e: Event, id: Id) {
    && e.FromClient? && e.message.id != NoId && e.message.action.Some? && !AsksForPinned(cfg, e.message)
    && e.message.id == id
  }

  predicate PromptsId(e: Event, id: Id) {
    e.FromClient? && e.message.id != NoId && e.message.action == Some("session/prompt") && e.message.id == id
  }

  predicate AnswersId(e: Event, id: Id) {
    e.FromEve? && e.message.id != NoId && e.message.action.None? && e.message.id == id
  }

  /** Two messages have the same key only if they have the same id, so the tables' keys stand for ids. */
  lemma KeysAreIds(cfg: Config, e: Event, id: Id)
    ensures Forwards(cfg, e, KeyForId(id)) <==> ForwardsId(cfg, e, id)
    ensures Prompts(e, KeyForId(id)) <==> PromptsId(e, id)
    ensures Answers(e, KeyForId(id)) <==> AnswersId(e, id)
  {
    hide AsksForPinned, KeyForId;
    if !e.Published? && KeyForId(e.message.id) == KeyForId(id) { KeyForIdInjective(e.message.id, id); }
  }

  lemma LatestCallById(cfg: Config, log: seq<Event>, i: nat, id: Id)
    ensures LatestCall(cfg, log, i, KeyForId(id)) <==> LatestCallOf(cfg, log, i, id)
  {
    hide Forwards, Answers, ForwardsId, AnswersId, KeyForId;
    forall j | 0 <= j < |log|
      ensures Forwards(cfg, log[j], KeyForId(id)) <==> ForwardsId(cfg, log[j], id)
      ensures Answers(log[j], KeyForId(id)) <==> AnswersId(log[j], id)
    {
      KeysAreIds(cfg, log[j], id);
    }
  }

  lemma UnansweredPromptById(cfg: Config, log: seq<Event>, i: nat, id: Id)
    ensures UnansweredPrompt(log, i, KeyForId(id)) <==> UnansweredPromptOf(log, i, id)
  {
    hide Prompts, Answers, PromptsId, AnswersId, KeyForId;
    forall j | 0 <= j < |log|
      ensures Prompts(log[j], KeyForId(id)) <==> PromptsId(log[j], id)
      ensures Answers(log[j], KeyForId(id)) <==> AnswersId(log[j], id)
    {
      KeysAreIds(cfg, log[j], id);
    }
  }

  // ------------------------------------------------------------ one more message

  lemma TurnFromGrows(log: seq<Event>, i: nat, e: Event)
    requires i < |log| && log[i].FromClient?
    ensures var t := TurnFrom(log, i);
            TurnFrom(log + [e], i)
                == t.(cancelled := t.cancelled || CancelsSession(e, t.session), text := t.text + ChunkIn(e, t.session))
  {
    var more := log + [e];
    var sid := SessionNamed(log[i].message);
    assert more[..|more| - 1] == log;
    if CancelledSince(log, i + 1, sid) {
      var j :| i + 1 <= j < |log| && CancelsSession(log[j], sid);
      assert CancelsSession(more[j], sid);
    }
    if CancelsSession(e, sid) {
      assert CancelsSession(more[|log|], sid);
    }
    if CancelledSince(more, i + 1, sid) && !CancelsSession(e, sid) {
      var j :| i + 1 <= j < |more| && CancelsSession(more[j], sid);
      assert CancelsSession(log[j], sid);
    }
  }

  lemma FreshTurn(log: seq<Event>, m: Message)
    requires m.IsPrompt()
    ensures TurnFrom(log + [FromClient(m)], |log|) == NewTurn(m)
  {
    assert (log + [FromClient(m)])[|log|] == FromClient(m);
  }
}
