/**
 An open key can always be published: from any state in which an adapter is idle and the key has neither
 lock nor marker, one undisturbed turn posts its text exactly once more and passes its success on.
 */
module CleanTurn {
  import opened Wrappers
  import opened Text
  import opened Counting
  import opened BuzzContext
  import opened ProxyModel
  import opened ProxyLedger
  import opened ProxyTurns
  import opened ProxyStream
  import opened AdapterSystem

  function Act(cfg: Proc -> Config, s: System, actions: seq<Action>): System
    decreases |actions|
  {
    if actions == [] then s else Act(cfg, Advance(cfg, s, actions[0]), actions[1..])
  }

  /** The publish sequence of process p with attempt a, from the first look at the markers to the commit. */
  function PublishSteps(p: Proc, a: nat): seq<Protocol.Event> {
    [Protocol.FileOp(p), Protocol.FileOp(p), Protocol.FileOp(p), Protocol.FileOp(p),
     Protocol.Spawn(p), Protocol.CliDelivers(a),
     Protocol.Settle(p, Protocol.ReportDelivered)]
  }

  function Worlds(es: seq<Protocol.Event>): seq<Action> {
    if es == [] then [] else [World(es[0], "")] + Worlds(es[1..])
  }

  /** Eve's text for a session, chunk by chunk. */
  function Chunks(p: Proc, sid: SessionRef, chunks: seq<string>): seq<Action> {
    if chunks == [] then [] else [Eve(p, ChunkMessage(sid, chunks[0]))] + Chunks(p, sid, chunks[1..])
  }

  function Joined(chunks: seq<string>): string { if chunks == [] then "" else chunks[0] + Joined(chunks[1..]) }

  /** A prompt, its text in any number of chunks, and its end. */
  function MessageActions(p: Proc, id: Id, sid: SessionRef, prompt: Prompt, chunks: seq<string>): seq<Action> {
    [Client(p, PromptMessage(id, sid, prompt))] + Chunks(p, sid, chunks) + [Eve(p, EndOfTurn(id))]
  }

  /** The publish sequence with attempt a, with its commit. */
  function PublishActions(p: Proc, a: nat): seq<Action> {
    Worlds(PublishSteps(p, a)) + [World(Protocol.FileOp(p), "")]
  }

  function TurnActions(p: Proc, id: Id, sid: SessionRef, prompt: Prompt, chunks: seq<string>, a: nat): seq<Action> {
    MessageActions(p, id, sid, prompt, chunks) + PublishActions(p, a)
  }

  lemma {:induction false} ActConcat(cfg: Proc -> Config, s: System, xs: seq<Action>, ys: seq<Action>)
    ensures Act(cfg, s, xs + ys) == Act(cfg, Act(cfg, s, xs), ys)
    decreases |xs|
  {
    hide Advance;
    if xs == [] {
      assert xs + ys == ys;
    } else {
      assert (xs + ys)[1..] == xs[1..] + ys;
      ActConcat(cfg, Advance(cfg, s, xs[0]), xs[1..], ys);
    }
  }

  lemma ActOne(cfg: Proc -> Config, s: System, a: Action)
    ensures Act(cfg, s, [a]) == Advance(cfg, s, a)
  {
    hide Advance;
    assert [a][1..] == [];
  }

  // ------------------------------------------------------------ the proxy's part

  /** The proxy of a state to which the whole turn was fed, as its reply is about to be published. */
  predicate AboutToPublish(x: Proxy, id: Id, route: BuzzRoute, text: string) {
    && x.phase.Publishing? && x.phase.route == route && x.phase.text == Trim(text)
    && x.phase.answer.id == id != NoId && x.phase.answer.action.None? && x.phase.answer.error.None?
    && x.phase.answer.result.Some? && x.phase.answer.result.value.stopReason == Some("end_turn")
  }

  lemma EndPublishes(cfg: Config, s: Proxy, id: Id, sid: SessionRef, route: BuzzRoute, text: string)
    requires id != NoId && s.phase.Reading? && KeyForId(id) in s.turns
    requires s.turns[KeyForId(id)] == Turn(false, Some(route), sid, text) && Trim(text) != ""
    ensures AboutToPublish(OnEve(cfg, s, EndOfTurn(id)), id, route, text)
  {
    hide KeyForId, Patch, Trim;
    SameTurns(s.turns, EndOfTurn(id), KeyForId(id));
    PatchOnlyPins(cfg, Lookup(s.requests, KeyForId(id)), EndOfTurn(id));
  }

  lemma ClientFeeds(cfg: Proc -> Config, s: System, p: Proc, m: Message)
    requires !s.protocol.PcOf(p).Crashed?
    ensures var t := Advance(cfg, s, Client(p, m));
            t.ProxyOf(p) == OnClient(cfg(p), s.ProxyOf(p), m) && t.protocol == s.protocol
  {
    hide OnClient;
  }

  lemma EveFeeds(cfg: Proc -> Config, s: System, p: Proc, m: Message)
    requires s.protocol.PcOf(p).Idle? && s.ProxyOf(p).phase.Reading?
    ensures var t, x := Advance(cfg, s, Eve(p, m)), OnEve(cfg(p), s.ProxyOf(p), m);
            && t.ProxyOf(p) == x
            && t.protocol == if x.phase.Publishing?
                             then s.protocol.Goto(p, Protocol.CheckPublished(PublicationKey(x.phase.route)))
                             else s.protocol
  {
    hide OnEve, PublicationKey;
  }

  /** The proxy gathers the chunks of a turn's session and nothing else happens. */
  lemma {:induction false} ChunksGather(
      cfg: Proc -> Config, s: System, p: Proc, k: string, sid: SessionRef, chunks: seq<string>)
    requires s.protocol.PcOf(p).Idle? && s.ProxyOf(p).phase.Reading?
    requires k in s.ProxyOf(p).turns && s.ProxyOf(p).turns[k].session == sid
    ensures var t := Act(cfg, s, Chunks(p, sid, chunks));
            var turn := s.ProxyOf(p).turns[k];
            && t.protocol == s.protocol && t.ProxyOf(p).phase.Reading?
            && k in t.ProxyOf(p).turns && t.ProxyOf(p).turns[k] == turn.(text := turn.text + Joined(chunks))
    decreases |chunks|
  {
    hide OnEve, ChunkMessage, Advance;
    if chunks == [] {
      assert s.ProxyOf(p).turns[k].text + "" == s.ProxyOf(p).turns[k].text;
    } else {
      var all := Chunks(p, sid, chunks);
      assert all[0] == Eve(p, ChunkMessage(sid, chunks[0])) && all[1..] == Chunks(p, sid, chunks[1..]);
      ChunkStep(cfg(p), s.ProxyOf(p), k, sid, chunks[0]);
      var next := Advance(cfg, s, all[0]);
      EveFeeds(cfg, s, p, ChunkMessage(sid, chunks[0]));
      ChunksGather(cfg, next, p, k, sid, chunks[1..]);
      var text := s.ProxyOf(p).turns[k].text;
      assert text + chunks[0] + Joined(chunks[1..]) == text + Joined(chunks);
    }
  }

  // ------------------------------------------------------------ the directory's part

  /** Process p stands at pc, the key has these files, and a last attempt, if any, is p's. */
  predicate Stage(b: Protocol.State, t: Protocol.State, p: Proc, k: string, pc: Protocol.Pc, locked: bool,
      cli: Option<Protocol.Cli>) {
    && t.PcOf(p) == pc && t.answers == b.answers
    && !t.FilesOf(k).Closed() && t.FilesOf(k).lock.Lock? == locked
    && t.attempts == b.attempts + (if cli.Some? then [Protocol.Attempt(k, p, b.now, cli.value, false)] else [])
    && t.now == b.now
  }

  lemma LooksPass(b: Protocol.State, t: Protocol.State, p: Proc, k: string)
    ensures Stage(b, t, p, k, Protocol.CheckPublished(k), false, None)
            ==> Stage(b, Protocol.Apply(t, Protocol.FileOp(p)), p, k, Protocol.CheckUnknown(k), false, None)
    ensures Stage(b, t, p, k, Protocol.CheckUnknown(k), false, None)
            ==> Stage(b, Protocol.Apply(t, Protocol.FileOp(p)), p, k, Protocol.CreateLock(k), false, None)
  {
    hide Protocol.Create, Protocol.Write, Protocol.Remove, Protocol.Rename, Protocol.Release;
  }

  lemma CreatePasses(b: Protocol.State, t: Protocol.State, p: Proc, k: string)
    requires Stage(b, t, p, k, Protocol.CreateLock(k), false, None)
    ensures Stage(b, Protocol.Apply(t, Protocol.FileOp(p)), p, k, Protocol.WriteLock(k, |b.attempts|), true,
        Some(Protocol.Unused))
  {
    assert t.attempts == b.attempts;
  }

  lemma WritePasses(b: Protocol.State, t: Protocol.State, p: Proc, k: string, a: nat)
    requires Stage(b, t, p, k, Protocol.WriteLock(k, a), true, Some(Protocol.Unused))
    ensures Stage(b, Protocol.Apply(t, Protocol.FileOp(p)), p, k, Protocol.Reserved(k, a), true, Some(Protocol.Unused))
  {
  }

  lemma SpawnPasses(b: Protocol.State, t: Protocol.State, p: Proc, k: string)
    requires Stage(b, t, p, k, Protocol.Reserved(k, |b.attempts|), true, Some(Protocol.Unused))
    ensures Stage(b, Protocol.Apply(t, Protocol.Spawn(p)), p, k, Protocol.Publishing(k, |b.attempts|), true,
        Some(Protocol.Running))
  {
  }

  lemma CliPasses(b: Protocol.State, t: Protocol.State, p: Proc, k: string)
    requires Stage(b, t, p, k, Protocol.Publishing(k, |b.attempts|), true, Some(Protocol.Running))
    ensures Stage(b, Protocol.Apply(t, Protocol.CliDelivers(|b.attempts|)), p, k,
        Protocol.Publishing(k, |b.attempts|), true, Some(Protocol.Delivered))
  {
  }

  lemma SettlePasses(b: Protocol.State, t: Protocol.State, p: Proc, k: string)
    requires Stage(b, t, p, k, Protocol.Publishing(k, |b.attempts|), true, Some(Protocol.Delivered))
    ensures Stage(b, Protocol.Apply(t, Protocol.Settle(p, Protocol.ReportDelivered)), p, k,
        Protocol.Committing(k, |b.attempts|), true, Some(Protocol.Delivered))
  {
  }

  lemma CommitPasses(b: Protocol.State, t: Protocol.State, p: Proc, k: string)
    requires Stage(b, t, p, k, Protocol.Committing(k, |b.attempts|), true, Some(Protocol.Delivered))
    ensures var u := Protocol.Apply(t, Protocol.FileOp(p));
            && u.answers == b.answers + [Protocol.Answer(p, k, Protocol.Passed)] && u.attempts == t.attempts
            && u.FilesOf(k).published && u.FilesOf(k).lock.NoLock?
  {
  }

  /** A step of the world that gives no answer moves the directory and no proxy. */
  lemma WorldMoves(cfg: Proc -> Config, s: System, e: Protocol.Event)
    requires !e.Start? && Protocol.Apply(s.protocol, e).answers == s.protocol.answers
    ensures var t := Advance(cfg, s, World(e, ""));
            t.protocol == Protocol.Apply(s.protocol, e) && t.proxies == s.proxies
  {
    hide Protocol.Apply;
  }

  lemma {:induction false} WorldsMove(cfg: Proc -> Config, s: System, es: seq<Protocol.Event>,
      stages: seq<Protocol.State>)
    requires |stages| == |es| + 1 && stages[0] == s.protocol
    requires forall i :: 0 <= i < |es| ==>
        !es[i].Start? && stages[i + 1] == Protocol.Apply(stages[i], es[i]) && stages[i + 1].answers == stages[i].answers
    ensures var t := Act(cfg, s, Worlds(es)); t.protocol == stages[|es|] && t.proxies == s.proxies
    decreases |es|
  {
    hide Protocol.Apply, Advance;
    if es != [] {
      assert stages[1] == Protocol.Apply(stages[0], es[0]);
      WorldMoves(cfg, s, es[0]);
      forall i | 0 <= i < |es[1..]|
        ensures !es[1..][i].Start? && stages[1..][i + 1] == Protocol.Apply(stages[1..][i], es[1..][i])
            && stages[1..][i + 1].answers == stages[1..][i].answers
      {
        assert stages[i + 2] == Protocol.Apply(stages[i + 1], es[i + 1]);
      }
      WorldsMove(cfg, Advance(cfg, s, World(es[0], "")), es[1..], stages[1..]);
      assert Worlds(es)[0] == World(es[0], "") && Worlds(es)[1..] == Worlds(es[1..]);
    }
  }

  /** The directory before and after each of the first steps. */
  function States(b: Protocol.State, es: seq<Protocol.Event>): (r: seq<Protocol.State>)
    ensures |r| == |es| + 1 && r[0] == b
    ensures forall i :: 0 <= i < |es| ==> r[i + 1] == Protocol.Apply(r[i], es[i])
    decreases |es|
  {
    if es == [] then [b] else [b] + States(Protocol.Apply(b, es[0]), es[1..])
  }

  lemma ReservationPasses(b: Protocol.State, p: Proc, k: string)
    requires Stage(b, b, p, k, Protocol.CheckPublished(k), false, None)
    ensures var ss := States(b, PublishSteps(p, |b.attempts|));
            && Stage(b, ss[4], p, k, Protocol.Reserved(k, |b.attempts|), true, Some(Protocol.Unused))
            && ss[1].answers == ss[2].answers == ss[3].answers == ss[4].answers == b.answers
  {
    hide Protocol.Apply, States, Stage;
    var ss := States(b, PublishSteps(p, |b.attempts|));
    LooksPass(b, ss[0], p, k);
    StageAnswers(b, ss[1], p, k, Protocol.CheckUnknown(k), false, None);
    LooksPass(b, ss[1], p, k);
    StageAnswers(b, ss[2], p, k, Protocol.CreateLock(k), false, None);
    CreatePasses(b, ss[2], p, k);
    StageAnswers(b, ss[3], p, k, Protocol.WriteLock(k, |b.attempts|), true, Some(Protocol.Unused));
    WritePasses(b, ss[3], p, k, |b.attempts|);
    StageAnswers(b, ss[4], p, k, Protocol.Reserved(k, |b.attempts|), true, Some(Protocol.Unused));
  }

  lemma StageAnswers(b: Protocol.State, t: Protocol.State, p: Proc, k: string, pc: Protocol.Pc, locked: bool,
      cli: Option<Protocol.Cli>)
    requires Stage(b, t, p, k, pc, locked, cli)
    ensures t.answers == b.answers
  {
  }

  lemma PublishingPasses(b: Protocol.State, p: Proc, k: string)
    requires Stage(b, b, p, k, Protocol.CheckPublished(k), false, None)
    ensures var ss := States(b, PublishSteps(p, |b.attempts|));
            && Stage(b, ss[7], p, k, Protocol.Committing(k, |b.attempts|), true, Some(Protocol.Delivered))
            && forall i :: 0 <= i <= 7 ==> ss[i].answers == b.answers
  {
    hide Protocol.Apply, States, Stage;
    var ss := States(b, PublishSteps(p, |b.attempts|));
    ReservationPasses(b, p, k);
    SpawnPasses(b, ss[4], p, k);
    StageAnswers(b, ss[5], p, k, Protocol.Publishing(k, |b.attempts|), true, Some(Protocol.Running));
    CliPasses(b, ss[5], p, k);
    StageAnswers(b, ss[6], p, k, Protocol.Publishing(k, |b.attempts|), true, Some(Protocol.Delivered));
    SettlePasses(b, ss[6], p, k);
    StageAnswers(b, ss[7], p, k, Protocol.Committing(k, |b.attempts|), true, Some(Protocol.Delivered));
  }

  /** The publish sequence up to the commit, undisturbed. */
  lemma SequencePasses(cfg: Proc -> Config, s: System, p: Proc, k: string)
    requires Stage(s.protocol, s.protocol, p, k, Protocol.CheckPublished(k), false, None)
    ensures var t := Act(cfg, s, Worlds(PublishSteps(p, |s.protocol.attempts|)));
            && t.proxies == s.proxies
            && Stage(s.protocol, t.protocol, p, k, Protocol.Committing(k, |s.protocol.attempts|), true,
                Some(Protocol.Delivered))
  {
    hide Protocol.Apply, Worlds, Act, States, Stage;
    var es := PublishSteps(p, |s.protocol.attempts|);
    PublishingPasses(s.protocol, p, k);
    WorldsMove(cfg, s, es, States(s.protocol, es));
  }

  // ------------------------------------------------------------ the whole turn

  /** The adapter is neither crashed nor in a publish sequence. */
  predicate Resting(s: System, p: Proc) { s.protocol.PcOf(p).Idle? && s.ProxyOf(p).phase.Reading? }

  /** Idle adapter, open key: nothing stands in the way of a publication. */
  predicate Ready(s: System, p: Proc, k: string) {
    Resting(s, p) && s.protocol.FilesOf(k).lock.NoLock? && !s.protocol.FilesOf(k).Closed()
  }

  /** The messages of the turn lead to the first look at the markers. */
  lemma MessagesStart(
      cfg: Proc -> Config, s: System, p: Proc, id: Id, sid: SessionRef, prompt: Prompt, chunks: seq<string>)
    requires id != NoId && !sid.OddSession? && ParseRoute(prompt).Some? && !Blank(Joined(chunks))
    requires Resting(s, p)
    ensures var k := PublicationKey(ParseRoute(prompt).value);
            var t := Act(cfg, s, MessageActions(p, id, sid, prompt, chunks));
            && AboutToPublish(t.ProxyOf(p), id, ParseRoute(prompt).value, Joined(chunks))
            && t.protocol == s.protocol.Goto(p, Protocol.CheckPublished(k))
  {
    hide Advance, OnClient, OnEve, AboutToPublish, PublicationKey, ParseRoute, Blank, Trim, PromptMessage;
    hide MessageActions, EndOfTurn, Chunks, Act, KeyForId, Joined;
    var route, text := ParseRoute(prompt).value, Joined(chunks);
    var s1 := Advance(cfg, s, Client(p, PromptMessage(id, sid, prompt)));
    ClientFeeds(cfg, s, p, PromptMessage(id, sid, prompt));
    PromptStep(cfg(p), s.ProxyOf(p), id, sid, prompt);
    ChunksGather(cfg, s1, p, KeyForId(id), sid, chunks);
    assert "" + text == text;
    var s2 := Act(cfg, s1, Chunks(p, sid, chunks));
    TrimBlank(text);
    EndPublishes(cfg(p), s2.ProxyOf(p), id, sid, route, text);
    EveFeeds(cfg, s2, p, EndOfTurn(id));
    PublishingRoute(OnEve(cfg(p), s2.ProxyOf(p), EndOfTurn(id)), id, route, text);
    MessagesRun(cfg, s, p, id, sid, prompt, chunks);
  }

  /** The messages, one by one. */
  lemma MessagesRun(
      cfg: Proc -> Config, s: System, p: Proc, id: Id, sid: SessionRef, prompt: Prompt, chunks: seq<string>)
    ensures var s2 := Act(cfg, Advance(cfg, s, Client(p, PromptMessage(id, sid, prompt))), Chunks(p, sid, chunks));
            Act(cfg, s, MessageActions(p, id, sid, prompt, chunks)) == Advance(cfg, s2, Eve(p, EndOfTurn(id)))
  {
    hide Advance, Act, PromptMessage, EndOfTurn, Chunks;
    var c, ms, e := Client(p, PromptMessage(id, sid, prompt)), Chunks(p, sid, chunks), Eve(p, EndOfTurn(id));
    ActConcat(cfg, s, [c] + ms, [e]);
    ActConcat(cfg, s, [c], ms);
    ActOne(cfg, s, c);
    ActOne(cfg, Act(cfg, Advance(cfg, s, c), ms), e);
  }

  lemma PublishingRoute(x: Proxy, id: Id, route: BuzzRoute, text: string)
    requires AboutToPublish(x, id, route, text)
    ensures x.phase.Publishing? && x.phase.route == route
  {
  }

  /** The commit passes the answer that was held back on to the client. */
  lemma CommitAnswers(cfg: Proc -> Config, b: Protocol.State, s: System, p: Proc, k: string, id: Id, route: BuzzRoute,
      text: string)
    requires Stage(b, s.protocol, p, k, Protocol.Committing(k, |b.attempts|), true, Some(Protocol.Delivered))
    requires AboutToPublish(s.ProxyOf(p), id, route, text)
    ensures var t := Advance(cfg, s, World(Protocol.FileOp(p), ""));
            && t.ProxyOf(p).phase.Reading?
            && t.ProxyOf(p).toClient
                == s.ProxyOf(p).toClient + [Relayed(s.ProxyOf(p).phase.answer, s.ProxyOf(p).phase.at)]
            && t.protocol == Protocol.Apply(s.protocol, Protocol.FileOp(p))
  {
    hide Protocol.Apply, Stage, AboutToPublish, OnClient, OnEve, PublicationError;
    StageAnswers(b, s.protocol, p, k, Protocol.Committing(k, |b.attempts|), true, Some(Protocol.Delivered));
    PublishingRoute(s.ProxyOf(p), id, route, text);
    CommitPasses(b, s.protocol, p, k);
  }

  /** The end of a turn as eve reports it: a result with stop reason end_turn and no error. */
  predicate IsSuccess(m: Message, id: Id) {
    && m.id == id && m.action.None? && m.error.None?
    && m.result.Some? && m.result.value.stopReason == Some("end_turn")
  }

  /**
   The turn posted once more, the key is published and unlocked, the adapter reads on, and the client's
   latest message is eve's success with the prompt's id.
   */
  predicate PostedOnceMore(s: System, t: System, p: Proc, k: string, id: Id) {
    && Protocol.Deliveries(t.protocol, k) == Protocol.Deliveries(s.protocol, k) + 1
    && t.protocol.FilesOf(k).published && t.protocol.FilesOf(k).lock.NoLock?
    && t.ProxyOf(p).phase.Reading? && t.ProxyOf(p).toClient != []
    && var last := t.ProxyOf(p).toClient[|t.ProxyOf(p).toClient| - 1];
       last.Relayed? && IsSuccess(last.message, id)
  }

  /** A held-back reply whose process looks at an open key is posted by the publish sequence. */
  lemma SequencePublishes(
      cfg: Proc -> Config, s: System, p: Proc, k: string, id: Id, route: BuzzRoute, text: string)
    requires AboutToPublish(s.ProxyOf(p), id, route, text)
    requires Stage(s.protocol, s.protocol, p, k, Protocol.CheckPublished(k), false, None)
    ensures PostedOnceMore(s, Act(cfg, s, PublishActions(p, |s.protocol.attempts|)), p, k, id)
  {
    hide Advance, Act, Worlds, PublishSteps, Protocol.Apply, AboutToPublish, Stage, Protocol.Deliveries;
    var steps := Worlds(PublishSteps(p, |s.protocol.attempts|));
    var t := Act(cfg, s, steps);
    ActConcat(cfg, s, steps, [World(Protocol.FileOp(p), "")]);
    ActOne(cfg, t, World(Protocol.FileOp(p), ""));
    SequencePasses(cfg, s, p, k);
    CommitAnswers(cfg, s.protocol, t, p, k, id, route, text);
    CommitPasses(s.protocol, t.protocol, p, k);
    AnswerIsSuccess(t.ProxyOf(p), id, route, text);
    PostedOnce(s.protocol, t.protocol, p, k);
  }

  /** From every state, reachable or not, in which the adapter is idle and the key open, the turn posts once more. */
  lemma CleanTurnPublishes(
      cfg: Proc -> Config, s: System, p: Proc, id: Id, sid: SessionRef, prompt: Prompt, chunks: seq<string>)
    requires id != NoId && !sid.OddSession? && ParseRoute(prompt).Some? && !Blank(Joined(chunks))
    requires Ready(s, p, PublicationKey(ParseRoute(prompt).value))
    ensures var k := PublicationKey(ParseRoute(prompt).value);
            PostedOnceMore(s, Act(cfg, s, TurnActions(p, id, sid, prompt, chunks, |s.protocol.attempts|)), p, k, id)
  {
    hide Act, MessageActions, PublishActions, PublicationKey, ParseRoute, Blank, Joined, AboutToPublish, Stage;
    hide Protocol.Deliveries;
    var route := ParseRoute(prompt).value;
    var k := PublicationKey(route);
    var t := Act(cfg, s, MessageActions(p, id, sid, prompt, chunks));
    ActConcat(cfg, s, MessageActions(p, id, sid, prompt, chunks), PublishActions(p, |s.protocol.attempts|));
    MessagesStart(cfg, s, p, id, sid, prompt, chunks);
    ReadyToLook(s, t.protocol, p, k);
    SequencePublishes(cfg, t, p, k, id, route, Joined(chunks));
  }

  lemma ReadyToLook(s: System, t: Protocol.State, p: Proc, k: string)
    requires Ready(s, p, k) && t == s.protocol.Goto(p, Protocol.CheckPublished(k))
    ensures Stage(t, t, p, k, Protocol.CheckPublished(k), false, None)
    ensures |t.attempts| == |s.protocol.attempts| && Protocol.Deliveries(t, k) == Protocol.Deliveries(s.protocol, k)
  {
  }

  lemma AnswerIsSuccess(x: Proxy, id: Id, route: BuzzRoute, text: string)
    requires AboutToPublish(x, id, route, text)
    ensures x.phase.Publishing? && IsSuccess(x.phase.answer, id) && x.phase.answer.id == id
  {
  }

  lemma PostedOnce(b: Protocol.State, t: Protocol.State, p: Proc, k: string)
    requires Stage(b, t, p, k, Protocol.Committing(k, |b.attempts|), true, Some(Protocol.Delivered))
    ensures Protocol.Deliveries(Protocol.Apply(t, Protocol.FileOp(p)), k) == Protocol.Deliveries(b, k) + 1
  {
    CommitPasses(b, t, p, k);
    hide Protocol.Apply;
    CountAppend(b.attempts, Protocol.Attempt(k, p, b.now, Protocol.Delivered, false), Protocol.DeliveredFor(k));
  }

  /** Acting from the start is a run of the whole system. */
  lemma {:induction false} ActIsRun(cfg: Proc -> Config, timeout: nat, actions: seq<Action>)
    ensures Act(cfg, Start(timeout), actions) == RunAll(cfg, timeout, actions)
    decreases |actions|
  {
    hide Advance, Start;
    if actions != [] {
      var n := |actions| - 1;
      assert actions == actions[..n] + [actions[n]];
      ActIsRun(cfg, timeout, actions[..n]);
      ActConcat(cfg, Start(timeout), actions[..n], [actions[n]]);
      ActOne(cfg, RunAll(cfg, timeout, actions[..n]), actions[n]);
    }
  }

  /** A system that has just started is ready for every adapter and every key. */
  lemma StartIsReady(timeout: nat, p: Proc, k: string)
    ensures Ready(Start(timeout), p, k)
  {
  }

  /** So a run of the whole system in which one adapter handles one clean turn posts it exactly once. */
  lemma FirstTurnPublishes(
      cfg: Proc -> Config, timeout: nat, p: Proc, id: Id, sid: SessionRef, prompt: Prompt, chunks: seq<string>)
    requires id != NoId && !sid.OddSession? && ParseRoute(prompt).Some? && !Blank(Joined(chunks))
    ensures var k := PublicationKey(ParseRoute(prompt).value);
            var t := RunAll(cfg, timeout, TurnActions(p, id, sid, prompt, chunks, 0));
            Protocol.Deliveries(t.protocol, k) == 1 && t.protocol.FilesOf(k).published
  {
    hide Act, RunAll, TurnActions, PublicationKey, ParseRoute, Blank, Joined, Ready;
    var k := PublicationKey(ParseRoute(prompt).value);
    StartIsReady(timeout, p, k);
    CleanTurnPublishes(cfg, Start(timeout), p, id, sid, prompt, chunks);
    ActIsRun(cfg, timeout, TurnActions(p, id, sid, prompt, chunks, 0));
    assert Protocol.Deliveries(Start(timeout).protocol, k) == 0;
  }
}
