/**
 A crash never blocks a key for good: once the lock that it left behind is twice the timeout old, one
 undisturbed turn of any idle adapter removes it and posts its text.
 */
module CrashRecovery {
  import opened Wrappers
  import opened Text
  import opened BuzzContext
  import opened ProxyModel
  import opened AdapterSystem
  import opened CleanTurn
  import Timing = ProtocolTiming

  /** The looks that find the lock and judge it stale, and its removal. */
  function RecoverySteps(p: Proc): seq<Protocol.Event> {
    [Protocol.FileOp(p), Protocol.FileOp(p), Protocol.FileOp(p), Protocol.FileOp(p),
     Protocol.FileOp(p), Protocol.FileOp(p), Protocol.FileOp(p)]
  }

  /** Time passes, then a turn comes, and its publish sequence first clears the lock away. */
  function RecoveryTurn(p: Proc, ms: nat, id: Id, sid: SessionRef, prompt: Prompt, chunks: seq<string>, a: nat)
    : seq<Action>
  {
    [World(Protocol.Tick(ms), "")] + MessageActions(p, id, sid, prompt, chunks) + Worlds(RecoverySteps(p))
    + PublishActions(p, a)
  }

  /** The key has no marker, and its lock was written at least twice the timeout ago. */
  predicate Stale(b: Protocol.State, k: string) {
    !b.FilesOf(k).Closed() && b.FilesOf(k).lock.Lock? && b.now - b.FilesOf(k).lock.mtime >= 2 * b.timeout
  }

  /** Process p stands at pc, and nothing else that it looks at has changed since b. */
  predicate Looking(b: Protocol.State, t: Protocol.State, p: Proc, k: string, pc: Protocol.Pc) {
    && t.PcOf(p) == pc && t.FilesOf(k) == b.FilesOf(k)
    && t.answers == b.answers && t.attempts == b.attempts && t.now == b.now && t.timeout == b.timeout
  }

  /** Where a look at a stale lock leads. */
  function NextLook(pc: Protocol.Pc, seen: nat): Protocol.Pc {
    match pc
    case CheckPublished(k) => Protocol.CheckUnknown(k)
    case CheckUnknown(k) => Protocol.CreateLock(k)
    case CreateLock(k) => Protocol.RecheckPublished(k)
    case RecheckPublished(k) => Protocol.RecheckUnknown(k)
    case RecheckUnknown(k) => Protocol.StatLock(k)
    case StatLock(k) => Protocol.RemoveStale(k, seen)
    case _ => pc
  }

  lemma LookGoesOn(b: Protocol.State, t: Protocol.State, p: Proc, k: string, pc: Protocol.Pc)
    requires Stale(b, k) && Looking(b, t, p, k, pc)
    requires pc in {Protocol.CheckPublished(k), Protocol.CheckUnknown(k), Protocol.CreateLock(k),
                    Protocol.RecheckPublished(k), Protocol.RecheckUnknown(k), Protocol.StatLock(k)}
    ensures Looking(b, Protocol.Apply(t, Protocol.FileOp(p)), p, k, NextLook(pc, b.FilesOf(k).lock.attempt))
  {
    hide Protocol.Create, Protocol.Write, Protocol.Remove, Protocol.Rename, Protocol.Release;
  }

  lemma RemovalOpens(b: Protocol.State, t: Protocol.State, p: Proc, k: string, seen: nat)
    requires Stale(b, k) && Looking(b, t, p, k, Protocol.RemoveStale(k, seen))
    ensures var u := Protocol.Apply(t, Protocol.FileOp(p));
            && Stage(u, u, p, k, Protocol.CheckPublished(k), false, None)
            && u.answers == b.answers && u.attempts == b.attempts
  {
  }

  lemma LookingAnswers(b: Protocol.State, t: Protocol.State, p: Proc, k: string, pc: Protocol.Pc)
    requires Looking(b, t, p, k, pc)
    ensures t.answers == b.answers
  {
  }

  lemma RecoveryPasses(b: Protocol.State, p: Proc, k: string)
    requires Stale(b, k) && Looking(b, b, p, k, Protocol.CheckPublished(k))
    ensures var ss := States(b, RecoverySteps(p));
            && Stage(ss[7], ss[7], p, k, Protocol.CheckPublished(k), false, None)
            && ss[7].attempts == b.attempts && forall i :: 0 <= i <= 7 ==> ss[i].answers == b.answers
  {
    hide Protocol.Apply, States, Stage, Looking, Stale;
    var ss := States(b, RecoverySteps(p));
    var seen := LockAttempt(b, k);
    LookGoesOn(b, ss[0], p, k, Protocol.CheckPublished(k));
    LookGoesOn(b, ss[1], p, k, Protocol.CheckUnknown(k));
    LookGoesOn(b, ss[2], p, k, Protocol.CreateLock(k));
    LookGoesOn(b, ss[3], p, k, Protocol.RecheckPublished(k));
    LookGoesOn(b, ss[4], p, k, Protocol.RecheckUnknown(k));
    LookGoesOn(b, ss[5], p, k, Protocol.StatLock(k));
    RemovalOpens(b, ss[6], p, k, seen);
    LookingAnswers(b, ss[1], p, k, Protocol.CheckUnknown(k));
    LookingAnswers(b, ss[2], p, k, Protocol.CreateLock(k));
    LookingAnswers(b, ss[3], p, k, Protocol.RecheckPublished(k));
    LookingAnswers(b, ss[4], p, k, Protocol.RecheckUnknown(k));
    LookingAnswers(b, ss[5], p, k, Protocol.StatLock(k));
    LookingAnswers(b, ss[6], p, k, Protocol.RemoveStale(k, seen));
  }

  function LockAttempt(b: Protocol.State, k: string): nat
    requires Stale(b, k)
  {
    b.FilesOf(k).lock.attempt
  }

  /** The looks and the removal, undisturbed. */
  lemma RecoveryOpens(cfg: Proc -> Config, s: System, p: Proc, k: string)
    requires Stale(s.protocol, k) && s.protocol.PcOf(p) == Protocol.CheckPublished(k)
    ensures var t := Act(cfg, s, Worlds(RecoverySteps(p)));
            && t.proxies == s.proxies && t.protocol.attempts == s.protocol.attempts
            && Stage(t.protocol, t.protocol, p, k, Protocol.CheckPublished(k), false, None)
  {
    hide Protocol.Apply, Worlds, Act, States, Stage, Stale;
    var es := RecoverySteps(p);
    RecoveryPasses(s.protocol, p, k);
    WorldsMove(cfg, s, es, States(s.protocol, es));
  }

  /** An idle adapter and a locked key without a marker, whoever holds the lock or left it behind. */
  predicate Blocked(s: System, p: Proc, k: string) {
    && Resting(s, p) && !s.protocol.FilesOf(k).Closed()
    && s.protocol.FilesOf(k).lock.Lock? && s.protocol.FilesOf(k).lock.mtime <= s.protocol.now
  }

  lemma WaitMakesStale(cfg: Proc -> Config, s: System, p: Proc, k: string, ms: nat)
    requires Blocked(s, p, k) && ms >= 2 * s.protocol.timeout
    ensures var t := Advance(cfg, s, World(Protocol.Tick(ms), ""));
            && Resting(t, p) && t.protocol.attempts == s.protocol.attempts
            && Stale(t.protocol.Goto(p, Protocol.CheckPublished(k)), k)
  {
    WorldMoves(cfg, s, Protocol.Tick(ms));
  }

  /** The turn in its four parts. */
  lemma RecoveryParts(cfg: Proc -> Config, s: System, p: Proc, ms: nat, id: Id, sid: SessionRef, prompt: Prompt,
      chunks: seq<string>, a: nat)
    ensures var s1 := Advance(cfg, s, World(Protocol.Tick(ms), ""));
            var t := Act(cfg, s1, MessageActions(p, id, sid, prompt, chunks));
            Act(cfg, s, RecoveryTurn(p, ms, id, sid, prompt, chunks, a))
            == Act(cfg, Act(cfg, t, Worlds(RecoverySteps(p))), PublishActions(p, a))
  {
    hide Act, Advance, MessageActions, PublishActions, Worlds, RecoverySteps;
    var tick, ms, looks := [World(Protocol.Tick(ms), "")], MessageActions(p, id, sid, prompt, chunks),
        Worlds(RecoverySteps(p));
    ActConcat(cfg, s, tick + ms + looks, PublishActions(p, a));
    ActConcat(cfg, s, tick + ms, looks);
    ActConcat(cfg, s, tick, ms);
    ActOne(cfg, s, tick[0]);
  }

  /**
   From every state in which an adapter is idle and a key locked without a marker: when twice the timeout has
   passed, one undisturbed turn removes the lock, posts once more and leaves the key published.
   */
  lemma RecoveryTurnPublishes(cfg: Proc -> Config, s: System, p: Proc, ms: nat, id: Id, sid: SessionRef,
      prompt: Prompt, chunks: seq<string>)
    requires id != NoId && !sid.OddSession? && ParseRoute(prompt).Some? && !Blank(Joined(chunks))
    requires Blocked(s, p, PublicationKey(ParseRoute(prompt).value)) && ms >= 2 * s.protocol.timeout
    ensures var k := PublicationKey(ParseRoute(prompt).value);
            var t := Act(cfg, s, RecoveryTurn(p, ms, id, sid, prompt, chunks, |s.protocol.attempts|));
            PostedOnceMore(s, t, p, k, id)
  {
    hide Act, Advance, MessageActions, PublishActions, PublicationKey, ParseRoute, Blank, Joined, AboutToPublish, Stage;
    hide RecoveryTurn, RecoverySteps, Worlds, Stale, Resting, Blocked, PostedOnceMore;
    var route := ParseRoute(prompt).value;
    var k, a := PublicationKey(route), |s.protocol.attempts|;
    var s1 := Advance(cfg, s, World(Protocol.Tick(ms), ""));
    var s2 := Act(cfg, s1, MessageActions(p, id, sid, prompt, chunks));
    var s3 := Act(cfg, s2, Worlds(RecoverySteps(p)));
    RecoveryParts(cfg, s, p, ms, id, sid, prompt, chunks, a);
    WaitMakesStale(cfg, s, p, k, ms);
    MessagesStart(cfg, s1, p, id, sid, prompt, chunks);
    RecoveryOpens(cfg, s2, p, k);
    SequencePublishes(cfg, s3, p, k, id, route, Joined(chunks));
    SameCount(s, s3, Act(cfg, s3, PublishActions(p, a)), p, k, id);
  }

  lemma SameCount(s: System, s3: System, t: System, p: Proc, k: string, id: Id)
    requires PostedOnceMore(s3, t, p, k, id) && s3.protocol.attempts == s.protocol.attempts
    ensures PostedOnceMore(s, t, p, k, id)
  {
  }

  // ------------------------------------------------------------ every reachable state

  predicate DatedAt(s: Protocol.State, k: string) {
    s.FilesOf(k).lock.Lock? ==> s.FilesOf(k).lock.mtime <= s.now
  }

  /** No lock file was written in the future. */
  ghost predicate Dated(s: Protocol.State) { forall k: string :: DatedAt(s, k) }

  lemma LockOpsKeepDates(s: Protocol.State, p: Proc, k': string, a: nat, k: string)
    requires DatedAt(s, k)
    ensures DatedAt(Protocol.Create(s, p, k'), k) && DatedAt(Protocol.Write(s, p, k', a), k)
        && DatedAt(Protocol.Remove(s, p, k'), k) && DatedAt(Protocol.Release(s, p, k', a), k)
  {
  }

  lemma RenameKeepsDates(s: Protocol.State, p: Proc, k': string, marked: Protocol.Files, v: Protocol.Verdict, k: string)
    requires DatedAt(s, k) && marked.lock.NoLock?
    ensures DatedAt(Protocol.Rename(s, p, k', marked, v), k)
  {
  }

  lemma FileOpKeepsDates(s: Protocol.State, p: Proc, k: string)
    requires DatedAt(s, k)
    ensures DatedAt(Protocol.DoFileOp(s, p), k)
  {
    hide Protocol.Create, Protocol.Write, Protocol.Remove, Protocol.Rename, Protocol.Release;
    match s.PcOf(p)
    case CreateLock(k') => LockOpsKeepDates(s, p, k', 0, k);
    case WriteLock(k', a) => LockOpsKeepDates(s, p, k', a, k);
    case RemoveStale(k', a) => LockOpsKeepDates(s, p, k', a, k);
    case Releasing(k', a) => LockOpsKeepDates(s, p, k', a, k);
    case Committing(k', _) =>
      RenameKeepsDates(s, p, k', s.FilesOf(k').(lock := Protocol.NoLock, published := true), Protocol.Passed, k);
    case MarkingUnknown(k', _) =>
      RenameKeepsDates(s, p, k', s.FilesOf(k').(lock := Protocol.NoLock, unknown := true), Protocol.Failed, k);
    case _ =>
  }

  lemma StepKeepsDates(s: Protocol.State, e: Protocol.Event)
    requires Dated(s)
    ensures Dated(Protocol.Apply(s, e))
  {
    hide Protocol.DoFileOp;
    forall k: string ensures DatedAt(Protocol.Apply(s, e), k) {
      assert DatedAt(s, k);
      if e.FileOp? { FileOpKeepsDates(s, e.proc, k); }
    }
  }

  lemma {:induction false} RunsAreDated(timeout: nat, es: seq<Protocol.Event>)
    ensures var s := Protocol.Exec(Protocol.Init(timeout), es); Dated(s) && s.timeout == timeout
  {
    hide Protocol.Apply, Dated;
    if es == [] {
      StartIsDated(timeout);
    } else {
      var n := |es| - 1;
      RunsAreDated(timeout, es[..n]);
      StepKeepsDates(Protocol.Exec(Protocol.Init(timeout), es[..n]), es[n]);
      Timing.StepKeepsTimeout(Protocol.Exec(Protocol.Init(timeout), es[..n]), es[n]);
    }
  }

  lemma StartIsDated(timeout: nat)
    ensures Dated(Protocol.Init(timeout))
  {
  }

  /** Acting on is a longer run. */
  lemma ActExtendsRun(cfg: Proc -> Config, timeout: nat, actions: seq<Action>, more: seq<Action>)
    ensures Act(cfg, RunAll(cfg, timeout, actions), more) == RunAll(cfg, timeout, actions + more)
  {
    hide Act, RunAll, Start;
    ActIsRun(cfg, timeout, actions);
    ActIsRun(cfg, timeout, actions + more);
    ActConcat(cfg, Start(timeout), actions, more);
  }

  /** In every reachable state a live adapter that reads eve's messages is idle in the lock protocol. */
  lemma ReaderIsIdle(cfg: Proc -> Config, timeout: nat, actions: seq<Action>, p: Proc)
    requires var s := RunAll(cfg, timeout, actions); !s.protocol.PcOf(p).Crashed? && s.ProxyOf(p).phase.Reading?
    ensures Resting(RunAll(cfg, timeout, actions), p)
  {
    hide RunAll;
    RunSound(cfg, timeout, actions);
    assert Coupled(RunAll(cfg, timeout, actions), p);
  }

  lemma LocksAreDated(cfg: Proc -> Config, timeout: nat, actions: seq<Action>)
    ensures var s := RunAll(cfg, timeout, actions).protocol; Dated(s) && s.timeout == timeout
  {
    hide RunAll, Protocol.Exec, Dated;
    RunSound(cfg, timeout, actions);
    RunsAreDated(timeout, RunAll(cfg, timeout, actions).trace);
  }

  /** The turn that posts in state s: at once if the key has no lock, and otherwise when the lock has grown stale. */
  function PostingTurn(s: System, p: Proc, k: string, id: Id, sid: SessionRef, prompt: Prompt, chunks: seq<string>)
    : seq<Action>
  {
    if s.protocol.FilesOf(k).lock.Lock?
    then RecoveryTurn(p, 2 * s.protocol.timeout, id, sid, prompt, chunks, |s.protocol.attempts|)
    else TurnActions(p, id, sid, prompt, chunks, |s.protocol.attempts|)
  }

  /**
   After every run of every number of adapters, with crashes anywhere: a key without a marker is never lost.
   Any live adapter that is not publishing can go on to post for it within twice the timeout, and publish it.
   */
  lemma NoCrashBlocksForGood(cfg: Proc -> Config, timeout: nat, actions: seq<Action>, p: Proc, id: Id,
      sid: SessionRef, prompt: Prompt, chunks: seq<string>)
    requires id != NoId && !sid.OddSession? && ParseRoute(prompt).Some? && !Blank(Joined(chunks))
    requires var s := RunAll(cfg, timeout, actions);
             && !s.protocol.PcOf(p).Crashed? && s.ProxyOf(p).phase.Reading?
             && !s.protocol.FilesOf(PublicationKey(ParseRoute(prompt).value)).Closed()
    ensures var s, k := RunAll(cfg, timeout, actions), PublicationKey(ParseRoute(prompt).value);
            var t := RunAll(cfg, timeout, actions + PostingTurn(s, p, k, id, sid, prompt, chunks));
            PostedOnceMore(s, t, p, k, id)
  {
    hide RunAll, Act, RecoveryTurn, TurnActions, PublicationKey, ParseRoute, Blank, Joined, PostedOnceMore;
    var s, k := RunAll(cfg, timeout, actions), PublicationKey(ParseRoute(prompt).value);
    ReaderIsIdle(cfg, timeout, actions, p);
    LocksAreDated(cfg, timeout, actions);
    assert DatedAt(s.protocol, k);
    ActExtendsRun(cfg, timeout, actions, PostingTurn(s, p, k, id, sid, prompt, chunks));
    if s.protocol.FilesOf(k).lock.Lock? {
      RecoveryTurnPublishes(cfg, s, p, 2 * s.protocol.timeout, id, sid, prompt, chunks);
    } else {
      CleanTurnPublishes(cfg, s, p, id, sid, prompt, chunks);
    }
  }
}
