/**
 Turns for a key that is closed, or held by another process: what the client hears when nothing is posted. A
 published key passes eve's success on, and an unknown or contested one is answered with an error; in every case no
 attempt is made and the files stay as they are.
 */
module ClosedTurn {
  import opened Text
  import opened BuzzContext
  import opened ProxyModel
  import opened ProxyStream
  import opened AdapterSystem
  import opened CleanTurn

  /** n file operations of process p; `detail` is what an error would say. */
  function Ops(p: Proc, n: nat, detail: string): seq<Action> {
    if n == 0 then [] else [World(Protocol.FileOp(p), detail)] + Ops(p, n - 1, detail)
  }

  /** The files, the attempts and the clock are those of b; process p stands at pc. */
  predicate Untouched(b: Protocol.State, t: Protocol.State, p: Proc, pc: Protocol.Pc) {
    t.disk == b.disk && t.attempts == b.attempts && t.now == b.now && t.timeout == b.timeout && t.PcOf(p) == pc
  }

  /** The client got one more message, nothing was tried or posted, no file changed, and the adapter reads on. */
  predicate Heard(s: System, t: System, p: Proc) {
    && t.protocol.disk == s.protocol.disk && t.protocol.attempts == s.protocol.attempts
    && t.ProxyOf(p).phase.Reading? && t.protocol.PcOf(p).Idle?
    && |t.ProxyOf(p).toClient| == |s.ProxyOf(p).toClient| + 1
    && t.ProxyOf(p).toClient[..|s.ProxyOf(p).toClient|] == s.ProxyOf(p).toClient
    && t.ProxyOf(p).toClient[|s.ProxyOf(p).toClient|].Relayed?
  }

  function Latest(t: System, p: Proc): Message
    requires t.ProxyOf(p).toClient != []
  {
    t.ProxyOf(p).toClient[|t.ProxyOf(p).toClient| - 1].message
  }

  /** That message is the success under the prompt's id. */
  predicate HeardSuccess(s: System, t: System, p: Proc, id: Id) { Heard(s, t, p) && IsSuccess(Latest(t, p), id) }

  /** That message is a publication error under the prompt's id. */
  predicate HeardError(s: System, t: System, p: Proc, id: Id) { Heard(s, t, p) && IsPublicationError(Latest(t, p), id) }

  // ------------------------------------------------------------ one file operation

  /** A verdict on the held-back answer relays it, or an error in its place. */
  lemma VerdictRelays(cfg: Config, x: Proxy, v: Protocol.Verdict, detail: string, id: Id, route: BuzzRoute,
      text: string)
    requires AboutToPublish(x, id, route, text)
    ensures var y := Step(cfg, x, Published(if v.Passed? then Passed else Failed(detail)));
            && y.phase.Reading? && |y.toClient| == |x.toClient| + 1 && y.toClient[..|x.toClient|] == x.toClient
            && y.toClient[|x.toClient|].Relayed?
            && (if v.Passed? then IsSuccess(y.toClient[|x.toClient|].message, id)
                else IsPublicationError(y.toClient[|x.toClient|].message, id))
  {
    hide OnClient, OnEve, PublicationError, IsPublicationError, IsSuccess, AboutToPublish;
    AnswerIsSuccess(x, id, route, text);
    ErrorsAreErrors(id, detail);
  }

  lemma EndingAdvances(cfg: Proc -> Config, s: System, p: Proc, k: string, v: Protocol.Verdict, detail: string)
    requires Protocol.DoFileOp(s.protocol, p) == s.protocol.Finish(p, k, v)
    ensures var t := Advance(cfg, s, World(Protocol.FileOp(p), detail));
            && t.protocol == s.protocol.Finish(p, k, v)
            && t.ProxyOf(p) == Step(cfg(p), s.ProxyOf(p), Published(if v.Passed? then Passed else Failed(detail)))
  {
    hide Protocol.DoFileOp, Step;
  }

  /** A file operation that ends the sequence relays the success that was held back, or an error in its place. */
  lemma EndingRelays(cfg: Proc -> Config, s: System, p: Proc, k: string, v: Protocol.Verdict, detail: string, id: Id,
      route: BuzzRoute, text: string)
    requires AboutToPublish(s.ProxyOf(p), id, route, text)
    requires Protocol.DoFileOp(s.protocol, p) == s.protocol.Finish(p, k, v)
    ensures var t := Advance(cfg, s, World(Protocol.FileOp(p), detail));
            if v.Passed? then HeardSuccess(s, t, p, id) else HeardError(s, t, p, id)
  {
    hide Protocol.DoFileOp, Step, Advance, AboutToPublish, IsSuccess, IsPublicationError;
    EndingAdvances(cfg, s, p, k, v, detail);
    VerdictRelays(cfg(p), s.ProxyOf(p), v, detail, id, route, text);
  }

  /** One that does not end it leaves the proxy alone. */
  lemma LookingOn(cfg: Proc -> Config, s: System, p: Proc, pc: Protocol.Pc, detail: string)
    requires Protocol.DoFileOp(s.protocol, p) == s.protocol.Goto(p, pc)
    ensures var t := Advance(cfg, s, World(Protocol.FileOp(p), detail));
            t.proxies == s.proxies && Untouched(s.protocol, t.protocol, p, pc)
  {
    hide Protocol.DoFileOp;
  }

  // ------------------------------------------------------------ the looks, first and second

  /** The held-back answer of process p, which stands at pc. */
  predicate HoldsAt(s: System, p: Proc, pc: Protocol.Pc, id: Id, route: BuzzRoute, text: string) {
    AboutToPublish(s.ProxyOf(p), id, route, text) && s.protocol.PcOf(p) == pc
  }

  lemma PublishedLook(cfg: Proc -> Config, s: System, p: Proc, k: string, pc: Protocol.Pc, detail: string, id: Id,
      route: BuzzRoute, text: string)
    requires HoldsAt(s, p, pc, id, route, text) && s.protocol.FilesOf(k).published
    requires pc == Protocol.CheckPublished(k) || pc == Protocol.RecheckPublished(k)
    ensures HeardSuccess(s, Advance(cfg, s, World(Protocol.FileOp(p), detail)), p, id)
  {
    hide AboutToPublish, Advance, HeardSuccess, HeardError;
    EndingRelays(cfg, s, p, k, Protocol.Passed, detail, id, route, text);
  }

  lemma UnknownLook(cfg: Proc -> Config, s: System, p: Proc, k: string, pc: Protocol.Pc, detail: string, id: Id,
      route: BuzzRoute, text: string)
    requires HoldsAt(s, p, pc, id, route, text) && s.protocol.FilesOf(k).unknown
    requires pc == Protocol.CheckUnknown(k) || pc == Protocol.RecheckUnknown(k)
    ensures HeardError(s, Advance(cfg, s, World(Protocol.FileOp(p), detail)), p, id)
  {
    hide AboutToPublish, Advance, HeardSuccess, HeardError;
    EndingRelays(cfg, s, p, k, Protocol.Failed, detail, id, route, text);
  }

  lemma YoungLockLook(cfg: Proc -> Config, s: System, p: Proc, k: string, detail: string, id: Id, route: BuzzRoute,
      text: string)
    requires HoldsAt(s, p, Protocol.StatLock(k), id, route, text) && s.protocol.FilesOf(k).lock.Lock?
    requires s.protocol.now - s.protocol.FilesOf(k).lock.mtime < 2 * s.protocol.timeout
    ensures HeardError(s, Advance(cfg, s, World(Protocol.FileOp(p), detail)), p, id)
  {
    hide AboutToPublish, Advance, HeardSuccess, HeardError;
    EndingRelays(cfg, s, p, k, Protocol.Failed, detail, id, route, text);
  }

  /** Where a look that finds nothing leads; for a create, one that finds the lock. */
  function AfterLook(pc: Protocol.Pc): Protocol.Pc {
    match pc
    case CheckPublished(k) => Protocol.CheckUnknown(k)
    case CheckUnknown(k) => Protocol.CreateLock(k)
    case CreateLock(k) => Protocol.RecheckPublished(k)
    case RecheckPublished(k) => Protocol.RecheckUnknown(k)
    case RecheckUnknown(k) => Protocol.StatLock(k)
    case _ => pc
  }

  /** A look at pc for k that finds no marker it looks for and, if it is the create, a lock. */
  predicate FindsNothing(s: Protocol.State, k: string, pc: Protocol.Pc) {
    || (pc == Protocol.CheckPublished(k) && !s.FilesOf(k).published)
    || (pc == Protocol.RecheckPublished(k) && !s.FilesOf(k).published)
    || (pc == Protocol.CheckUnknown(k) && !s.FilesOf(k).unknown)
    || (pc == Protocol.RecheckUnknown(k) && !s.FilesOf(k).unknown)
    || (pc == Protocol.CreateLock(k) && s.FilesOf(k).lock.Lock?)
  }

  lemma EmptyLook(cfg: Proc -> Config, s: System, p: Proc, k: string, pc: Protocol.Pc, detail: string)
    requires s.protocol.PcOf(p) == pc && FindsNothing(s.protocol, k, pc)
    ensures var t := Advance(cfg, s, World(Protocol.FileOp(p), detail));
            t.proxies == s.proxies && Untouched(s.protocol, t.protocol, p, AfterLook(pc))
  {
    hide Advance;
    LookingOn(cfg, s, p, AfterLook(pc), detail);
  }

  // ------------------------------------------------------------ the three sequences

  lemma OpsStep(cfg: Proc -> Config, s: System, p: Proc, n: nat, detail: string)
    requires n > 0
    ensures Act(cfg, s, Ops(p, n, detail))
         == Act(cfg, Advance(cfg, s, World(Protocol.FileOp(p), detail)), Ops(p, n - 1, detail))
  {
    hide Advance;
    assert Ops(p, n, detail)[1..] == Ops(p, n - 1, detail);
  }

  lemma OpsDone(cfg: Proc -> Config, s: System, p: Proc, detail: string)
    ensures Act(cfg, s, Ops(p, 0, detail)) == s
  {
  }

  /** What is heard after looks that found nothing is heard since before them. */
  lemma HeardSince(s: System, u: System, t: System, p: Proc, pc: Protocol.Pc, id: Id)
    requires u.proxies == s.proxies && Untouched(s.protocol, u.protocol, p, pc)
    ensures HeardSuccess(u, t, p, id) ==> HeardSuccess(s, t, p, id)
    ensures HeardError(u, t, p, id) ==> HeardError(s, t, p, id)
  {
  }

  /** A first or second look that finds the published marker relays the success. */
  lemma PublishedIsRelayed(cfg: Proc -> Config, s: System, p: Proc, k: string, pc: Protocol.Pc, detail: string, id: Id,
      route: BuzzRoute, text: string)
    requires HoldsAt(s, p, pc, id, route, text) && s.protocol.FilesOf(k).published
    requires pc == Protocol.CheckPublished(k) || pc == Protocol.RecheckPublished(k)
    ensures HeardSuccess(s, Act(cfg, s, Ops(p, 1, detail)), p, id)
  {
    hide Advance, Act, HoldsAt, HeardSuccess;
    OpsStep(cfg, s, p, 1, detail);
    OpsDone(cfg, Advance(cfg, s, World(Protocol.FileOp(p), detail)), p, detail);
    PublishedLook(cfg, s, p, k, pc, detail, id, route, text);
  }

  lemma StillHolds(s: System, u: System, p: Proc, pc: Protocol.Pc, next: Protocol.Pc, k: string, id: Id,
      route: BuzzRoute, text: string)
    requires HoldsAt(s, p, pc, id, route, text) && u.proxies == s.proxies && Untouched(s.protocol, u.protocol, p, next)
    ensures HoldsAt(u, p, next, id, route, text) && u.protocol.FilesOf(k) == s.protocol.FilesOf(k)
        && u.protocol.now == s.protocol.now && u.protocol.timeout == s.protocol.timeout
  {
    hide AboutToPublish;
  }

  /** With the unknown marker alone the two looks, first or second, end in an error. */
  lemma UnknownIsRefused(cfg: Proc -> Config, s: System, p: Proc, k: string, pc: Protocol.Pc, detail: string, id: Id,
      route: BuzzRoute, text: string)
    requires HoldsAt(s, p, pc, id, route, text) && !s.protocol.FilesOf(k).published && s.protocol.FilesOf(k).unknown
    requires pc == Protocol.CheckPublished(k) || pc == Protocol.RecheckPublished(k)
    ensures HeardError(s, Act(cfg, s, Ops(p, 2, detail)), p, id)
  {
    hide Advance, Act, HeardError, AboutToPublish, Untouched;
    var u := Advance(cfg, s, World(Protocol.FileOp(p), detail));
    OpsStep(cfg, s, p, 2, detail);
    OpsStep(cfg, u, p, 1, detail);
    OpsDone(cfg, Advance(cfg, u, World(Protocol.FileOp(p), detail)), p, detail);
    EmptyLook(cfg, s, p, k, pc, detail);
    StillHolds(s, u, p, pc, AfterLook(pc), k, id, route, text);
    UnknownLook(cfg, u, p, k, AfterLook(pc), detail, id, route, text);
    HeardSince(s, u, Act(cfg, s, Ops(p, 2, detail)), p, AfterLook(pc), id);
  }

  /** One look that finds nothing, and the rest of the sequence after it. */
  lemma LooksOn(cfg: Proc -> Config, s: System, p: Proc, k: string, pc: Protocol.Pc, n: nat, detail: string, id: Id,
      route: BuzzRoute, text: string)
    returns (u: System)
    requires n > 0 && HoldsAt(s, p, pc, id, route, text) && FindsNothing(s.protocol, k, pc)
    ensures Act(cfg, s, Ops(p, n, detail)) == Act(cfg, u, Ops(p, n - 1, detail))
    ensures HoldsAt(u, p, AfterLook(pc), id, route, text) && u.protocol.FilesOf(k) == s.protocol.FilesOf(k)
        && u.protocol.now == s.protocol.now && u.protocol.timeout == s.protocol.timeout
    ensures u.proxies == s.proxies && Untouched(s.protocol, u.protocol, p, AfterLook(pc))
  {
    hide Advance, Act, AboutToPublish;
    u := Advance(cfg, s, World(Protocol.FileOp(p), detail));
    OpsStep(cfg, s, p, n, detail);
    EmptyLook(cfg, s, p, k, pc, detail);
    StillHolds(s, u, p, pc, AfterLook(pc), k, id, route, text);
  }

  /** A key without a marker whose lock is younger than the limit. */
  predicate Contested(s: Protocol.State, k: string) {
    !s.FilesOf(k).Closed() && s.FilesOf(k).lock.Lock? && s.now - s.FilesOf(k).lock.mtime < 2 * s.timeout
  }

  /** The second looks at a contested key, and the age of its lock. */
  lemma SecondLooksRefuse(cfg: Proc -> Config, s: System, p: Proc, k: string, detail: string, id: Id,
      route: BuzzRoute, text: string)
    requires HoldsAt(s, p, Protocol.RecheckPublished(k), id, route, text) && Contested(s.protocol, k)
    ensures HeardError(s, Act(cfg, s, Ops(p, 3, detail)), p, id)
  {
    hide Advance, Act, HeardError, HoldsAt, Untouched;
    var t := Act(cfg, s, Ops(p, 3, detail));
    var s1 := LooksOn(cfg, s, p, k, Protocol.RecheckPublished(k), 3, detail, id, route, text);
    HeardSince(s, s1, t, p, Protocol.RecheckUnknown(k), id);
    var s2 := LooksOn(cfg, s1, p, k, Protocol.RecheckUnknown(k), 2, detail, id, route, text);
    HeardSince(s1, s2, t, p, Protocol.StatLock(k), id);
    OpsStep(cfg, s2, p, 1, detail);
    OpsDone(cfg, Advance(cfg, s2, World(Protocol.FileOp(p), detail)), p, detail);
    YoungLockLook(cfg, s2, p, k, detail, id, route, text);
  }

  /** Where another process holds the key, the sequence ends in an error after six looks. */
  lemma ContestedIsRefused(cfg: Proc -> Config, s: System, p: Proc, k: string, detail: string, id: Id,
      route: BuzzRoute, text: string)
    requires HoldsAt(s, p, Protocol.CheckPublished(k), id, route, text) && Contested(s.protocol, k)
    ensures HeardError(s, Act(cfg, s, Ops(p, 6, detail)), p, id)
  {
    hide Advance, Act, HeardError, HoldsAt, Untouched;
    var t := Act(cfg, s, Ops(p, 6, detail));
    var s1 := LooksOn(cfg, s, p, k, Protocol.CheckPublished(k), 6, detail, id, route, text);
    HeardSince(s, s1, t, p, Protocol.CheckUnknown(k), id);
    var s2 := LooksOn(cfg, s1, p, k, Protocol.CheckUnknown(k), 5, detail, id, route, text);
    HeardSince(s1, s2, t, p, Protocol.CreateLock(k), id);
    var s3 := LooksOn(cfg, s2, p, k, Protocol.CreateLock(k), 4, detail, id, route, text);
    HeardSince(s2, s3, t, p, Protocol.RecheckPublished(k), id);
    SecondLooksRefuse(cfg, s3, p, k, detail, id, route, text);
  }

  // ------------------------------------------------------------ whole turns

  /** A turn that ends well, and then n file operations. */
  function TurnThen(p: Proc, id: Id, sid: SessionRef, prompt: Prompt, chunks: seq<string>, n: nat, detail: string)
    : seq<Action>
  {
    MessageActions(p, id, sid, prompt, chunks) + Ops(p, n, detail)
  }

  /** The messages of a turn bring the process to its first look, on the same files. */
  lemma TurnLooks(cfg: Proc -> Config, s: System, p: Proc, id: Id, sid: SessionRef, prompt: Prompt,
      chunks: seq<string>)
    requires id != NoId && !sid.OddSession? && ParseRoute(prompt).Some? && !Blank(Joined(chunks)) && Resting(s, p)
    ensures var k := PublicationKey(ParseRoute(prompt).value);
            var u := Act(cfg, s, MessageActions(p, id, sid, prompt, chunks));
            && HoldsAt(u, p, Protocol.CheckPublished(k), id, ParseRoute(prompt).value, Joined(chunks))
            && u.protocol.disk == s.protocol.disk && u.protocol.attempts == s.protocol.attempts
            && u.protocol.now == s.protocol.now && u.protocol.timeout == s.protocol.timeout
  {
    hide Act, MessageActions, ParseRoute, Blank, Joined, PublicationKey, AboutToPublish;
    MessagesStart(cfg, s, p, id, sid, prompt, chunks);
  }

  /** The turn is over: nothing was tried or posted, no file changed, and the adapter reads on. */
  predicate Over(s: System, t: System, p: Proc) {
    && t.protocol.disk == s.protocol.disk && t.protocol.attempts == s.protocol.attempts
    && t.ProxyOf(p).phase.Reading? && t.protocol.PcOf(p).Idle?
    && t.ProxyOf(p).toClient != [] && t.ProxyOf(p).toClient[|t.ProxyOf(p).toClient| - 1].Relayed?
  }

  lemma HeardIsOver(s: System, u: System, t: System, p: Proc)
    requires u.protocol.disk == s.protocol.disk && u.protocol.attempts == s.protocol.attempts && Heard(u, t, p)
    ensures Over(s, t, p)
  {
  }

  /**
   From every state in which an adapter rests and a key is published: a turn for that key ends with eve's success
   under the prompt's id, after one look, and nothing is posted again.
   */
  lemma PublishedTurnPasses(cfg: Proc -> Config, s: System, p: Proc, id: Id, sid: SessionRef, prompt: Prompt,
      chunks: seq<string>, detail: string)
    requires id != NoId && !sid.OddSession? && ParseRoute(prompt).Some? && !Blank(Joined(chunks)) && Resting(s, p)
    requires s.protocol.FilesOf(PublicationKey(ParseRoute(prompt).value)).published
    ensures var t := Act(cfg, s, TurnThen(p, id, sid, prompt, chunks, 1, detail));
            Over(s, t, p) && IsSuccess(Latest(t, p), id)
  {
    hide Act, MessageActions, ParseRoute, Blank, Joined, PublicationKey, HoldsAt, Ops, Over, Heard, IsSuccess;
    var k := PublicationKey(ParseRoute(prompt).value);
    var u := Act(cfg, s, MessageActions(p, id, sid, prompt, chunks));
    ActConcat(cfg, s, MessageActions(p, id, sid, prompt, chunks), Ops(p, 1, detail));
    TurnLooks(cfg, s, p, id, sid, prompt, chunks);
    PublishedIsRelayed(cfg, u, p, k, Protocol.CheckPublished(k), detail, id, ParseRoute(prompt).value, Joined(chunks));
    HeardIsOver(s, u, Act(cfg, u, Ops(p, 1, detail)), p);
  }

  /** With only the unknown marker the turn ends with an error under that id, after two looks. */
  lemma UnknownTurnFails(cfg: Proc -> Config, s: System, p: Proc, id: Id, sid: SessionRef, prompt: Prompt,
      chunks: seq<string>, detail: string)
    requires id != NoId && !sid.OddSession? && ParseRoute(prompt).Some? && !Blank(Joined(chunks)) && Resting(s, p)
    requires var f := s.protocol.FilesOf(PublicationKey(ParseRoute(prompt).value)); f.unknown && !f.published
    ensures var t := Act(cfg, s, TurnThen(p, id, sid, prompt, chunks, 2, detail));
            Over(s, t, p) && IsPublicationError(Latest(t, p), id)
  {
    hide Act, MessageActions, ParseRoute, Blank, Joined, PublicationKey, HoldsAt, Ops, Over, Heard;
    hide IsPublicationError;
    var k := PublicationKey(ParseRoute(prompt).value);
    var u := Act(cfg, s, MessageActions(p, id, sid, prompt, chunks));
    ActConcat(cfg, s, MessageActions(p, id, sid, prompt, chunks), Ops(p, 2, detail));
    TurnLooks(cfg, s, p, id, sid, prompt, chunks);
    UnknownIsRefused(cfg, u, p, k, Protocol.CheckPublished(k), detail, id, ParseRoute(prompt).value, Joined(chunks));
    HeardIsOver(s, u, Act(cfg, u, Ops(p, 2, detail)), p);
  }

  /** Without a marker but with a young lock the turn ends with an error under that id, after six looks. */
  lemma ContestedTurnFails(cfg: Proc -> Config, s: System, p: Proc, id: Id, sid: SessionRef, prompt: Prompt,
      chunks: seq<string>, detail: string)
    requires id != NoId && !sid.OddSession? && ParseRoute(prompt).Some? && !Blank(Joined(chunks)) && Resting(s, p)
    requires Contested(s.protocol, PublicationKey(ParseRoute(prompt).value))
    ensures var t := Act(cfg, s, TurnThen(p, id, sid, prompt, chunks, 6, detail));
            Over(s, t, p) && IsPublicationError(Latest(t, p), id)
  {
    hide Act, MessageActions, ParseRoute, Blank, Joined, PublicationKey, HoldsAt, Ops, Over, Heard;
    hide IsPublicationError;
    var k := PublicationKey(ParseRoute(prompt).value);
    var u := Act(cfg, s, MessageActions(p, id, sid, prompt, chunks));
    ActConcat(cfg, s, MessageActions(p, id, sid, prompt, chunks), Ops(p, 6, detail));
    TurnLooks(cfg, s, p, id, sid, prompt, chunks);
    ContestedIsRefused(cfg, u, p, k, detail, id, ParseRoute(prompt).value, Joined(chunks));
    HeardIsOver(s, u, Act(cfg, u, Ops(p, 6, detail)), p);
  }
}
