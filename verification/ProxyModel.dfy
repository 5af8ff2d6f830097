/**
 The two loops of the adapter's proxy as a machine over messages. Each client message is handled in
 one step. A message from eve is handled in one step too, unless its turn must be published: then the
 output loop stands in the phase Publishing, client messages go on being handled, and nothing more
 is read from eve until the publication ends.
 */
module ProxyModel {
  import opened Wrappers
  import opened Text
  import opened BuzzContext

  // ------------------------------------------------------------ messages

  datatype Id = NoId | StringId(text: string) | NumberId(value: int) | NullId

  /** params.sessionId: absent, a string, or some other JSON value, which equals nothing. */
  datatype SessionRef = NoSession | Session(id: string) | OddSession

  /**
   params.update: absent, an object with the members that isAgentTextUpdate looks at, or some other JSON value.
   `kind` is its sessionUpdate, the next two are members of its content; none stands for what is no string.
   */
  datatype Update =
    | NoUpdate
    | Update(kind: Option<string>, contentType: Option<string>, text: Option<string>, rest: string)
    | OddUpdate(json: string)

  /** The params object; `rest` stands for every member the proxy does not look at. */
  datatype Params = Params(
    sessionId: SessionRef,
    cwd: Option<string>,
    prompt: Option<Prompt>,
    update: Update,
    configId: Option<string>,
    value: Option<string>,
    modelId: Option<string>,
    rest: string)

  /** The result object; `fixedModel` stands for the two members of fixedModelResult. */
  datatype Result = Result(stopReason: Option<string>, fixedModel: Option<string>, rest: string)

  datatype Error = Error(code: int, message: string)

  /** A JSON-RPC 2.0 message: sections 4 (request, notification) and 5 (response). */
  datatype Message = Message(
    id: Id,
    action: Option<string>,
    params: Option<Params>,
    result: Option<Result>,
    error: Option<Error>)
  {
    predicate IsRequest() { id != NoId && action.Some? }
    predicate IsResponse() { id != NoId && action.None? }
    predicate Calls(name: string) { action == Some(name) }
    predicate IsPrompt() { id != NoId && Calls("session/prompt") }
    function SessionOf(): SessionRef { if params.Some? then params.value.sessionId else NoSession }
    function PromptOf(): Prompt {
      if params.Some? && params.value.prompt.Some? then params.value.prompt.value else NotAnArray
    }
    /** Line 167: a result, not an error, whose stop reason is end_turn. */
    predicate Completed() { error.None? && result.Some? && result.value.stopReason == Some("end_turn") }
  }

  const EMPTY_PARAMS := Params(NoSession, None, None, NoUpdate, None, None, None, "")
  const EMPTY_RESULT := Result(None, None, "")

  /** `sinkText` is the wording of the instruction that the connector adds to a prompt. */
  datatype Config = Config(modelId: Option<string>, cwd: string, target: Option<string>, sinkText: Line)
  {
    /** An empty model id counts as none. */
    predicate PinsModel() { modelId.Some? && modelId.value != "" }
  }

  function TypeOf(id: Id): string {
    match id
    case NoId => "undefined"
    case StringId(_) => "string"
    case NumberId(_) => "number"
    case NullId => "object"
  }

  function StringOf(id: Id): string {
    match id
    case NoId => "undefined"
    case StringId(s) => s
    case NumberId(n) => PrintInt(n)
    case NullId => "null"
  }

  /** Line 48. */
  function KeyForId(id: Id): string { TypeOf(id) + ":" + StringOf(id) }

  /** Ids of different type or value never share a key. */
  lemma KeyForIdInjective(a: Id, b: Id)
    requires KeyForId(a) == KeyForId(b)
    ensures a == b
  {
    var m, n := |TypeOf(a)|, |TypeOf(b)|;
    assert KeyForId(a)[m] == ':' && KeyForId(b)[n] == ':';
    assert forall i :: 0 <= i < m ==> KeyForId(a)[i] == TypeOf(a)[i];
    assert forall i :: 0 <= i < n ==> KeyForId(b)[i] == TypeOf(b)[i];
    assert m == n && KeyForId(a)[..m] == TypeOf(a) && KeyForId(b)[..m] == TypeOf(b);
    assert KeyForId(a)[m + 1..] == StringOf(a) && KeyForId(b)[m + 1..] == StringOf(b);
    FirstLetters(a);
    FirstLetters(b);
    if a.NumberId? && b.NumberId? {
      PrintIntInjective(a.value, b.value);
    }
  }

  lemma FirstLetters(id: Id)
    ensures TypeOf(id)[0]
        == (match id case NoId => 'u' case StringId(_) => 's' case NumberId(_) => 'n' case NullId => 'o')
  {
  }

  // ------------------------------------------------------------ fixed model, rewriting

  const EVE_MODEL_CONFIG_ID := "eve.authored_model"

  /** model.ts:23-34. */
  predicate AsksForFixedModel(cfg: Config, m: Message) {
    && cfg.PinsModel()
    && m.params.Some?
    && ((m.Calls("session/set_config_option") && m.params.value.configId == Some(EVE_MODEL_CONFIG_ID)
        && m.params.value.value == cfg.modelId)
        || (m.Calls("session/set_model") && m.params.value.modelId == cfg.modelId))
  }

  /** Requests the proxy answers by itself, lines 87-98. */
  predicate AnsweredLocally(cfg: Config, m: Message) { m.IsRequest() && AsksForFixedModel(cfg, m) }

  function LocalAnswer(cfg: Config, m: Message): Message {
    Message(m.id, None, None, Some(EMPTY_RESULT.(fixedModel := cfg.modelId)), None)
  }

  function ParamsOf(m: Message): Params { if m.params.Some? then m.params.value else EMPTY_PARAMS }

  /** Lines 102-119: what eve gets to see of a client message. */
  function Rewrite(cfg: Config, m: Message): Message {
    if m.Calls("session/new") && cfg.target.None? then m.(params := Some(ParamsOf(m).(cwd := Some(cfg.cwd))))
    else if m.IsPrompt() then m.(params := Some(ParamsOf(m).(prompt := Some(AddReplySink(m.PromptOf(), cfg.sinkText)))))
    else m
  }

  /** Lines 155-160: the answer to session/new carries the pinned model. */
  function Patch(cfg: Config, call: Option<string>, m: Message): Message {
    if call == Some("session/new") && m.error.None? && cfg.PinsModel()
    then m.(result := Some((if m.result.Some? then m.result.value else EMPTY_RESULT).(fixedModel := cfg.modelId)))
    else m
  }

  /** Lines 222-226: the internal-error code of JSON-RPC 2.0, section 5.1. */
  function PublicationError(id: Id, detail: string): Message {
    Message(id, None, None, None, Some(Error(-32603, "Buzz reply publication failed: " + detail)))
  }

  // ------------------------------------------------------------ the machine

  /** An ActiveTurn; its session is a string or absent. */
  datatype Turn = Turn(cancelled: bool, route: Option<BuzzRoute>, session: SessionRef, text: string)

  function NewTurn(m: Message): Turn {
    Turn(false, ParseRoute(m.PromptOf()), if m.SessionOf().Session? then m.SessionOf() else NoSession, "")
  }

  function CancelTurn(t: Turn, sid: SessionRef): Turn { if t.session == sid then t.(cancelled := true) else t }

  /** Lines 139-145. An update without a session matches a turn without one. */
  function ExtendTurn(t: Turn, sid: SessionRef, chunk: string): Turn {
    if t.session == sid then t.(text := t.text + chunk) else t
  }

  /** A message on its way to the client: made by the input loop, or passed on for the eve message at log index `at`. */
  datatype Sent = Local(message: Message) | Relayed(message: Message, at: nat)

  datatype Phase = Reading | Publishing(answer: Message, key: string, route: BuzzRoute, text: string, at: nat)

  /** A turn that ended well, uncancelled and with text: its reply is due for publication. */
  datatype Due = Due(at: nat, key: string, route: Option<BuzzRoute>, text: string)

  /** How the publish sequence ended, lines 184-227. */
  datatype Publication = Passed | Failed(detail: string)

  datatype Event = FromClient(message: Message) | FromEve(message: Message) | Published(publication: Publication)

  /** `log` is the history of the messages handled; `due` records every reply taken up for publication. */
  datatype Proxy = Proxy(
    requests: map<string, string>,
    turns: map<string, Turn>,
    toClient: seq<Sent>,
    toEve: seq<Message>,
    phase: Phase,
    log: seq<Event>,
    due: seq<Due>)

  const START := Proxy(map[], map[], [], [], Reading, [], [])

  function Lookup<V>(m: map<string, V>, k: string): Option<V> { if k in m then Some(m[k]) else None }

  /** Lines 109-127, the effect of a client message on the turns. */
  function TurnsAfterClient(turns: map<string, Turn>, m: Message): map<string, Turn> {
    if m.IsPrompt() then turns[KeyForId(m.id) := NewTurn(m)]
    else if m.Calls("session/cancel") && m.SessionOf().Session?
    then map k | k in turns :: CancelTurn(turns[k], m.SessionOf())
    else turns
  }

  /** proxy.ts:259-272. */
  predicate IsAgentText(u: Update) {
    u.Update? && u.kind == Some("agent_message_chunk") && u.contentType == Some("text") && u.text.Some?
  }

  function ChunkOf(m: Message): Option<string> {
    if m.Calls("session/update") && m.params.Some? && IsAgentText(m.params.value.update)
    then m.params.value.update.text
    else None
  }

  function TurnsAfterEve(turns: map<string, Turn>, m: Message): map<string, Turn> {
    if ChunkOf(m).Some? then map k | k in turns :: ExtendTurn(turns[k], m.SessionOf(), ChunkOf(m).value) else turns
  }

  /** Lines 86-128. */
  function OnClient(cfg: Config, s: Proxy, m: Message): Proxy {
    var t := s.(log := s.log + [FromClient(m)]);
    if AnsweredLocally(cfg, m) then t.(toClient := s.toClient + [Local(LocalAnswer(cfg, m))])
    else t.(requests := if m.IsRequest() then s.requests[KeyForId(m.id) := m.action.value] else s.requests,
            turns := TurnsAfterClient(s.turns, m),
            toEve := s.toEve + [Rewrite(cfg, m)])
  }

  const NO_ROUTE := "Buzz prompt did not contain a valid [Context] route"

  /** Lines 152-178, for the answer at log index `at`: pass it on, or start to publish its turn's reply. */
  function OnAnswer(cfg: Config, s: Proxy, m: Message, at: nat): Proxy {
    var k := KeyForId(m.id);
    var answer := Patch(cfg, Lookup(s.requests, k), m);
    var u := s.(requests := s.requests - {k});
    if k !in s.turns then u.(toClient := s.toClient + [Relayed(answer, at)])
    else
      var turn := s.turns[k];
      var text := Trim(turn.text);
      if !m.Completed() || turn.cancelled || text == ""
      then u.(turns := s.turns - {k}, toClient := s.toClient + [Relayed(answer, at)])
      else
        var v := u.(due := s.due + [Due(at, k, turn.route, text)]);
        if turn.route.None?
        then v.(turns := s.turns - {k}, toClient := s.toClient + [Relayed(PublicationError(m.id, NO_ROUTE), at)])
        else v.(phase := Publishing(answer, k, turn.route.value, text, at))
  }

  /** Lines 138-178: up to the point where the output loop passes the message on or starts to publish. */
  function OnEve(cfg: Config, s: Proxy, m: Message): Proxy {
    var at := |s.log|;
    var t := s.(log := s.log + [FromEve(m)], turns := TurnsAfterEve(s.turns, m));
    if m.IsResponse() then OnAnswer(cfg, t, m, at) else t.(toClient := s.toClient + [Relayed(m, at)])
  }

  /** Lines 184-227, once the publish sequence has ended. */
  function OnPublished(s: Proxy, p: Publication): Proxy
    requires s.phase.Publishing?
  {
    var message := match p case Passed => s.phase.answer case Failed(d) => PublicationError(s.phase.answer.id, d);
    s.(turns := s.turns - {s.phase.key}, toClient := s.toClient + [Relayed(message, s.phase.at)], phase := Reading)
  }

  /** While publishing, nothing is read from eve; an event that is not enabled changes nothing. */
  function Step(cfg: Config, s: Proxy, e: Event): Proxy {
    match e
    case FromClient(m) => OnClient(cfg, s, m)
    case FromEve(m) => if s.phase.Reading? then OnEve(cfg, s, m) else s
    case Published(p) => if s.phase.Publishing? then OnPublished(s, p) else s
  }

  function Run(cfg: Config, es: seq<Event>): Proxy {
    if es == [] then START else Step(cfg, Run(cfg, es[..|es| - 1]), es[|es| - 1])
  }
}
