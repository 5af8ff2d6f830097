/**
 Timed runs of the publication lock. The stale limit is twice the publish timeout, and the
 publisher settles by its timer, so a holder is done within the timeout plus some file overhead.
 */
module ProtocolTiming {
  import opened PublicationProtocol

  predicate Holds(s: State, p: Proc, a: nat) {
    s.PcOf(p).Holding() && s.PcOf(p).attempt == a
  }

  /** Every live holder is still within the publish timeout plus the overhead of its file operations. */
  ghost predicate WithinDeadline(s: State, overhead: nat) {
    forall p: Proc, a: nat :: Holds(s, p, a) && a < |s.attempts| ==>
        s.now <= s.attempts[a].createdAt + s.timeout + overhead
  }

  /** An rm that is about to happen finds the very lock whose age was read, or none. */
  predicate RemovesWhatItSaw(s: State, e: Event) {
    match e
    case FileOp(p) => (
      match s.PcOf(p)
      case RemoveStale(k, seen) => s.FilesOf(k).lock.Lock? ==> s.FilesOf(k).lock.attempt == seen
      case _ => true
    )
    case _ => true
  }

  /** An rm that is about to happen finds the lock whose age was read, or none, or one that no live process holds. */
  ghost predicate HarmlessRemoval(s: State, e: Event) {
    match e
    case FileOp(p) => (
      match s.PcOf(p)
      case RemoveStale(k, seen) =>
        var l := s.FilesOf(k).lock;
        l.Lock? && l.attempt != seen ==> forall q: Proc :: !Holds(s, q, l.attempt)
      case _ => true
    )
    case _ => true
  }

  /** At every point of the run every live holder is within its deadline. */
  ghost predicate DeadlinesKept(timeout: nat, overhead: nat, es: seq<Event>)
    decreases |es|
  {
    WithinDeadline(Exec(Init(timeout), es), overhead) && (es != [] ==> DeadlinesKept(timeout, overhead, es[..|es| - 1]))
  }

  /** Every rm of the run finds the lock whose age was read, or none. */
  ghost predicate RemovesItsOwn(timeout: nat, es: seq<Event>)
    decreases |es|
  {
    es == [] || (&& RemovesItsOwn(timeout, es[..|es| - 1])
                 && RemovesWhatItSaw(Exec(Init(timeout), es[..|es| - 1]), es[|es| - 1]))
  }

  /** No rm of the run takes a lock, other than the one whose age was read, from a live process. */
  ghost predicate Harmless(timeout: nat, es: seq<Event>)
    decreases |es|
  {
    es == [] || (&& Harmless(timeout, es[..|es| - 1])
                 && HarmlessRemoval(Exec(Init(timeout), es[..|es| - 1]), es[|es| - 1]))
  }

  ghost predicate Timely(timeout: nat, overhead: nat, es: seq<Event>) {
    DeadlinesKept(timeout, overhead, es) && RemovesItsOwn(timeout, es)
  }

  lemma {:induction false} OwnRemovalsAreHarmless(timeout: nat, es: seq<Event>)
    requires RemovesItsOwn(timeout, es)
    ensures Harmless(timeout, es)
  {
    hide Exec;
    if es != [] { OwnRemovalsAreHarmless(timeout, es[..|es| - 1]); }
  }

  /** A lock file was made for its key and is not older than the create that made it. */
  predicate LockSound(s: State, k: Key) {
    var l := s.FilesOf(k).lock;
    l.Lock? ==> l.attempt < |s.attempts| && s.attempts[l.attempt].key == k && s.attempts[l.attempt].createdAt <= l.mtime
  }

  /** A live holder's lock file is still there, and it is the holder's own. */
  predicate OwnsLock(s: State, p: Proc) {
    s.PcOf(p).Holding() ==>
      var l := s.FilesOf(s.PcOf(p).key).lock; l.Lock? && l.attempt == s.PcOf(p).attempt
  }

  /** The lock a process is about to remove as stale has no live holder. */
  ghost predicate SawDead(s: State, p: Proc) {
    s.PcOf(p).RemoveStale? ==>
      s.PcOf(p).seen < |s.attempts| && forall q: Proc :: !Holds(s, q, s.PcOf(p).seen)
  }

  ghost predicate Exclusive(s: State) {
    && (forall k: Key :: LockSound(s, k))
    && (forall p: Proc :: OwnsLock(s, p))
    && (forall p: Proc :: SawDead(s, p))
    && (forall a :: 0 <= a < |s.attempts| ==> s.attempts[a].createdAt <= s.now)
  }

  /** A move of p: nobody else's program counter changes, and old attempts keep key and creation time. */
  ghost predicate MoveOf(p: Proc, s: State, t: State) {
    && (forall q: Proc :: q != p ==> t.PcOf(q) == s.PcOf(q))
    && |s.attempts| <= |t.attempts|
    && (forall a :: 0 <= a < |s.attempts| ==>
          t.attempts[a].key == s.attempts[a].key && t.attempts[a].createdAt == s.attempts[a].createdAt)
    && (forall a :: |s.attempts| <= a < |t.attempts| ==> t.attempts[a].createdAt <= t.now)
    && s.now <= t.now
    && (forall a: nat :: Holds(t, p, a) ==> Holds(s, p, a) || |s.attempts| <= a)
  }

  /** After a move of p only the locks, p's own claim and p's own verdict need a new look. */
  lemma MoveKeepsExclusive(p: Proc, s: State, t: State)
    requires Exclusive(s) && MoveOf(p, s, t)
    requires forall k: Key :: LockSound(t, k)
    requires forall q: Proc :: OwnsLock(t, q)
    requires SawDead(t, p)
    ensures Exclusive(t)
  {
    forall q: Proc ensures SawDead(t, q) {
      assert SawDead(s, q);
      if q != p && t.PcOf(q).RemoveStale? {
        forall r: Proc ensures !Holds(t, r, t.PcOf(q).seen) {
          assert !Holds(s, r, s.PcOf(q).seen);
        }
      }
    }
  }

  /** Moves that leave the disk alone and take no new hold. */
  lemma DiskUntouchedExclusive(p: Proc, s: State, t: State)
    requires Exclusive(s) && MoveOf(p, s, t) && t.disk == s.disk
    requires t.PcOf(p).Holding() ==>
        s.PcOf(p).Holding() && t.PcOf(p).key == s.PcOf(p).key && t.PcOf(p).attempt == s.PcOf(p).attempt
    requires SawDead(t, p)
    ensures Exclusive(t)
  {
    forall k: Key ensures LockSound(t, k) {
      assert LockSound(s, k);
    }
    forall q: Proc ensures OwnsLock(t, q) {
      assert OwnsLock(s, q);
    }
    MoveKeepsExclusive(p, s, t);
  }

  lemma CreateExclusive(s: State, p: Proc)
    requires Exclusive(s)
    requires s.PcOf(p).CreateLock? && s.FilesOf(s.PcOf(p).key).lock.NoLock?
    ensures Exclusive(DoFileOp(s, p))
  {
    var t := DoFileOp(s, p);
    forall k: Key ensures LockSound(t, k) {
      assert LockSound(s, k);
    }
    forall q: Proc ensures OwnsLock(t, q) {
      assert OwnsLock(s, q);
    }
    MoveKeepsExclusive(p, s, t);
  }

  lemma WriteExclusive(s: State, p: Proc)
    requires Structure(s) && Exclusive(s) && s.PcOf(p).WriteLock?
    ensures Exclusive(DoFileOp(s, p))
  {
    var t := DoFileOp(s, p);
    assert PcOk(s, p) && OwnsLock(s, p);
    forall k: Key ensures LockSound(t, k) {
      assert LockSound(s, k);
    }
    forall q: Proc ensures OwnsLock(t, q) {
      assert OwnsLock(s, q);
    }
    MoveKeepsExclusive(p, s, t);
  }

  /** Reading an age of twice the timeout shows that the lock's holder is gone. */
  lemma StatExclusive(s: State, p: Proc, overhead: nat)
    requires Structure(s) && Exclusive(s) && WithinDeadline(s, overhead) && overhead < s.timeout
    requires s.PcOf(p).StatLock?
    ensures Exclusive(DoFileOp(s, p))
  {
    var t := DoFileOp(s, p);
    assert LockSound(s, s.PcOf(p).key);
    if t.PcOf(p).RemoveStale? {
      forall q: Proc ensures !Holds(t, q, t.PcOf(p).seen) {
        assert Holds(t, q, t.PcOf(p).seen) ==> Holds(s, q, t.PcOf(p).seen);
      }
    }
    DiskUntouchedExclusive(p, s, t);
  }

  /** Taking away a lock that nobody but p lives on. */
  lemma TakeAwayExclusive(s: State, t: State, p: Proc, k: Key)
    requires Exclusive(s) && MoveOf(p, s, t)
    requires forall j: Key :: j != k ==> t.FilesOf(j) == s.FilesOf(j)
    requires t.FilesOf(k).lock.NoLock?
    requires !t.PcOf(p).Holding() && !t.PcOf(p).RemoveStale?
    requires forall q: Proc :: q != p && s.PcOf(q).Holding() ==> s.PcOf(q).key != k
    ensures Exclusive(t)
  {
    forall j: Key ensures LockSound(t, j) {
      assert LockSound(s, j);
    }
    forall q: Proc ensures OwnsLock(t, q) {
      assert OwnsLock(s, q);
    }
    MoveKeepsExclusive(p, s, t);
  }

  /** Two live holders of one key would own the same lock, hence be the same process. */
  lemma OneHolderPerKey(s: State, p: Proc, q: Proc)
    requires Structure(s) && Exclusive(s)
    requires s.PcOf(p).Holding() && s.PcOf(q).Holding() && s.PcOf(p).key == s.PcOf(q).key
    ensures p == q
  {
    assert PcOk(s, p) && PcOk(s, q) && OwnsLock(s, p) && OwnsLock(s, q);
  }

  lemma HolderTakesAway(s: State, p: Proc)
    requires Structure(s) && Exclusive(s)
    requires s.PcOf(p).Committing? || s.PcOf(p).MarkingUnknown? || s.PcOf(p).Releasing?
    ensures Exclusive(DoFileOp(s, p))
  {
    assert PcOk(s, p) && OwnsLock(s, p);
    forall q: Proc | q != p && s.PcOf(q).Holding() ensures s.PcOf(q).key != s.PcOf(p).key {
      if s.PcOf(q).key == s.PcOf(p).key { OneHolderPerKey(s, p, q); }
    }
    TakeAwayExclusive(s, DoFileOp(s, p), p, s.PcOf(p).key);
  }

  /** The lock about to be removed has no live holder: the age read shows it, or the step is harmless anyway. */
  lemma RemovedLockIsDead(s: State, p: Proc)
    requires Exclusive(s) && s.PcOf(p).RemoveStale? && HarmlessRemoval(s, FileOp(p))
    ensures var l := s.FilesOf(s.PcOf(p).key).lock; l.Lock? ==> forall q: Proc :: !Holds(s, q, l.attempt)
  {
    assert SawDead(s, p);
  }

  lemma StaleTakesAway(s: State, p: Proc)
    requires Exclusive(s) && s.PcOf(p).RemoveStale? && HarmlessRemoval(s, FileOp(p))
    ensures Exclusive(DoFileOp(s, p))
  {
    RemovedLockIsDead(s, p);
    hide HarmlessRemoval;
    forall q: Proc | q != p && s.PcOf(q).Holding() ensures s.PcOf(q).key != s.PcOf(p).key {
      var l := s.FilesOf(s.PcOf(p).key).lock;
      assert OwnsLock(s, q) && (l.Lock? ==> !Holds(s, q, l.attempt));
    }
    TakeAwayExclusive(s, DoFileOp(s, p), p, s.PcOf(p).key);
  }

  lemma GotoExclusive(s: State, p: Proc, pc: Pc)
    requires Exclusive(s) && !pc.Holding() && !pc.RemoveStale?
    ensures Exclusive(s.Goto(p, pc))
  {
    DiskUntouchedExclusive(p, s, s.Goto(p, pc));
  }

  lemma FinishExclusive(s: State, p: Proc, k: Key, v: Verdict)
    requires Exclusive(s)
    ensures Exclusive(s.Finish(p, k, v))
  {
    DiskUntouchedExclusive(p, s, s.Finish(p, k, v));
  }

  /** Marker checks, and a create that finds the lock, only move p's program counter. */
  lemma LookExclusive(s: State, p: Proc)
    requires Exclusive(s)
    requires var pc := s.PcOf(p);
             || pc.CheckPublished? || pc.CheckUnknown? || pc.RecheckPublished? || pc.RecheckUnknown?
             || (pc.CreateLock? && s.FilesOf(pc.key).lock.Lock?)
    ensures Exclusive(DoFileOp(s, p))
  {
    hide Exclusive, Create, Write, Remove, Rename, Release;
    var k := s.PcOf(p).key;
    FinishExclusive(s, p, k, Passed);
    FinishExclusive(s, p, k, Failed);
    match s.PcOf(p)
    case CheckPublished(_) => GotoExclusive(s, p, CheckUnknown(k));
    case CheckUnknown(_) => GotoExclusive(s, p, CreateLock(k));
    case CreateLock(_) => GotoExclusive(s, p, RecheckPublished(k));
    case RecheckPublished(_) => GotoExclusive(s, p, RecheckUnknown(k));
    case RecheckUnknown(_) => GotoExclusive(s, p, StatLock(k));
  }

  lemma FileOpExclusive(s: State, p: Proc, overhead: nat)
    requires Structure(s) && Exclusive(s) && WithinDeadline(s, overhead) && overhead < s.timeout
    requires HarmlessRemoval(s, FileOp(p))
    ensures Exclusive(DoFileOp(s, p))
  {
    hide Structure, Exclusive, WithinDeadline, Create, Write, Remove, Rename, Release, HarmlessRemoval;
    match s.PcOf(p)
    case CheckPublished(_) => LookExclusive(s, p);
    case CheckUnknown(_) => LookExclusive(s, p);
    case RecheckPublished(_) => LookExclusive(s, p);
    case RecheckUnknown(_) => LookExclusive(s, p);
    case CreateLock(k) =>
      if s.FilesOf(k).lock.NoLock? { CreateExclusive(s, p); } else { LookExclusive(s, p); }
    case WriteLock(_, _) => WriteExclusive(s, p);
    case StatLock(_) => StatExclusive(s, p, overhead);
    case RemoveStale(_, _) => StaleTakesAway(s, p);
    case Committing(_, _) => HolderTakesAway(s, p);
    case MarkingUnknown(_, _) => HolderTakesAway(s, p);
    case Releasing(_, _) => HolderTakesAway(s, p);
    case _ =>
  }

  /** Time and the CLI move no process. */
  lemma WorldMoveExclusive(s: State, t: State)
    requires Exclusive(s) && t.disk == s.disk && t.procs == s.procs && s.now <= t.now && |t.attempts| == |s.attempts|
    requires forall a :: 0 <= a < |s.attempts| ==>
                           t.attempts[a].key == s.attempts[a].key && t.attempts[a].createdAt == s.attempts[a].createdAt
    ensures Exclusive(t)
  {
    assert SawDead(s, 0);
    forall q: Proc ensures t.PcOf(q) == s.PcOf(q) {
    }
    forall q: Proc, a: nat ensures Holds(t, q, a) == Holds(s, q, a) {
    }
    DiskUntouchedExclusive(0, s, t);
  }

  lemma SpawnExclusive(s: State, p: Proc)
    requires Exclusive(s)
    ensures Exclusive(Apply(s, Spawn(p)))
  {
    if s.PcOf(p).Reserved? {
      DiskUntouchedExclusive(p, s, Apply(s, Spawn(p)));
    }
  }

  lemma SettleExclusive(s: State, p: Proc, report: Report)
    requires Exclusive(s)
    ensures Exclusive(Apply(s, Settle(p, report)))
  {
    if s.PcOf(p).Publishing? {
      DiskUntouchedExclusive(p, s, Apply(s, Settle(p, report)));
    }
  }

  lemma StepExclusive(s: State, e: Event, overhead: nat)
    requires Structure(s) && Exclusive(s) && WithinDeadline(s, overhead) && overhead < s.timeout
    requires HarmlessRemoval(s, e)
    ensures Exclusive(Apply(s, e))
  {
    match e
    case FileOp(p) => FileOpExclusive(s, p, overhead);
    case Start(p, _) => DiskUntouchedExclusive(p, s, Apply(s, e));
    case Spawn(p) => SpawnExclusive(s, p);
    case Settle(p, report) => SettleExclusive(s, p, report);
    case Crash(p) => DiskUntouchedExclusive(p, s, Apply(s, e));
    case _ => WorldMoveExclusive(s, Apply(s, e));
  }

  lemma {:induction false} HarmlessRunsStayExclusive(timeout: nat, overhead: nat, es: seq<Event>)
    requires overhead < timeout && DeadlinesKept(timeout, overhead, es) && Harmless(timeout, es)
    ensures var s := Exec(Init(timeout), es); Structure(s) && Exclusive(s) && s.timeout == timeout
  {
    hide Apply, WithinDeadline, HarmlessRemoval, Structure;
    RunKeepsInvariant(timeout, es, "");
    if es == [] {
      StartIsExclusive(timeout);
    } else {
      var n := |es| - 1;
      HarmlessRunsStayExclusive(timeout, overhead, es[..n]);
      StepExclusive(Exec(Init(timeout), es[..n]), es[n], overhead);
      StepKeepsTimeout(Exec(Init(timeout), es[..n]), es[n]);
    }
  }

  lemma StartIsExclusive(timeout: nat)
    ensures Exclusive(Init(timeout))
  {
  }

  lemma StepKeepsTimeout(s: State, e: Event)
    ensures Apply(s, e).timeout == s.timeout
  {
  }

  /** In a timely run every live holder owns the lock on disk, and every lock about to be removed has no live holder. */
  lemma TimelyRunsStayExclusive(timeout: nat, overhead: nat, es: seq<Event>)
    requires overhead < timeout && Timely(timeout, overhead, es)
    ensures var s := Exec(Init(timeout), es); Structure(s) && Exclusive(s) && s.timeout == timeout
  {
    OwnRemovalsAreHarmless(timeout, es);
    HarmlessRunsStayExclusive(timeout, overhead, es);
  }

  /** Mutual exclusion: with deadlines kept and harmless removals, one process at a time holds a key. */
  lemma MutualExclusion(timeout: nat, overhead: nat, es: seq<Event>, p: Proc, q: Proc)
    requires overhead < timeout && DeadlinesKept(timeout, overhead, es) && Harmless(timeout, es)
    requires var s := Exec(Init(timeout), es);
             s.PcOf(p).Holding() && s.PcOf(q).Holding() && s.PcOf(p).key == s.PcOf(q).key
    ensures p == q
  {
    var s := Exec(Init(timeout), es);
    HarmlessRunsStayExclusive(timeout, overhead, es);
    OneHolderPerKey(s, p, q);
  }

  /** No stale removal of a timely run hits a live holder: the lock it takes away has nobody behind it. */
  lemma StaleRemovalHitsNoLiveHolder(timeout: nat, overhead: nat, es: seq<Event>, e: Event, k: Key)
    requires overhead < timeout && Timely(timeout, overhead, es + [e])
    requires Exec(Init(timeout), es + [e]).StaleRemovals(k) > Exec(Init(timeout), es).StaleRemovals(k)
    ensures var s := Exec(Init(timeout), es);
            s.FilesOf(k).lock.Lock? && forall q: Proc :: !Holds(s, q, s.FilesOf(k).lock.attempt)
  {
    assert (es + [e])[..|es + [e]| - 1] == es;
    var s := Exec(Init(timeout), es);
    TimelyRunsStayExclusive(timeout, overhead, es);
    ExecSnoc(Init(timeout), es, e);
    assert RemovesWhatItSaw(s, e);
    hide Exec, Exclusive, DeadlinesKept, RemovesItsOwn;
    RemovalIsCounted(s, e, k);
    RemovedLockIsDead(s, e.proc);
  }

  /** Only an rm of a lock that is there counts as a stale removal. */
  lemma RemovalIsCounted(s: State, e: Event, k: Key)
    requires Apply(s, e).StaleRemovals(k) > s.StaleRemovals(k)
    ensures e.FileOp? && s.PcOf(e.proc).RemoveStale? && s.PcOf(e.proc).key == k && s.FilesOf(k).lock.Lock?
  {
  }

  // ------------------------------------------------------------ exactly when every holder keeps its lock

  ghost predicate AllOwn(s: State) { forall p: Proc :: OwnsLock(s, p) }

  /** At every point of the run every live holder's lock file is on disk and its own. */
  ghost predicate OwnedThroughout(timeout: nat, es: seq<Event>)
    decreases |es|
  {
    AllOwn(Exec(Init(timeout), es)) && (es != [] ==> OwnedThroughout(timeout, es[..|es| - 1]))
  }

  /** An rm that takes a lock from a live holder leaves that holder without its lock. */
  lemma HarmfulRemovalDisowns(s: State, p: Proc, q: Proc)
    requires Structure(s) && Exclusive(s) && s.PcOf(p).RemoveStale?
    requires var l := s.FilesOf(s.PcOf(p).key).lock; l.Lock? && Holds(s, q, l.attempt)
    ensures !OwnsLock(Apply(s, FileOp(p)), q)
  {
    hide Create, Write, Rename, Release;
    assert PcOk(s, q) && LockSound(s, s.PcOf(p).key);
  }

  lemma OwnedStepIsHarmless(s: State, e: Event)
    requires Structure(s) && Exclusive(s) && AllOwn(Apply(s, e))
    ensures HarmlessRemoval(s, e)
  {
    hide Apply, Structure, Exclusive, OwnsLock;
    if e.FileOp? && s.PcOf(e.proc).RemoveStale? && s.FilesOf(s.PcOf(e.proc).key).lock.Lock? {
      forall q: Proc ensures !Holds(s, q, s.FilesOf(s.PcOf(e.proc).key).lock.attempt) {
        assert OwnsLock(Apply(s, e), q);
        if Holds(s, q, s.FilesOf(s.PcOf(e.proc).key).lock.attempt) { HarmfulRemovalDisowns(s, e.proc, q); }
      }
    }
  }

  lemma {:induction false} OwnedRunsAreHarmless(timeout: nat, overhead: nat, es: seq<Event>)
    requires overhead < timeout && DeadlinesKept(timeout, overhead, es) && OwnedThroughout(timeout, es)
    ensures Harmless(timeout, es)
  {
    hide Apply, WithinDeadline, HarmlessRemoval, AllOwn, Structure, Exclusive;
    if es != [] {
      var n := |es| - 1;
      OwnedRunsAreHarmless(timeout, overhead, es[..n]);
      HarmlessRunsStayExclusive(timeout, overhead, es[..n]);
      OwnedStepIsHarmless(Exec(Init(timeout), es[..n]), es[n]);
    }
  }

  lemma {:induction false} HarmlessRunsAreOwned(timeout: nat, overhead: nat, es: seq<Event>)
    requires overhead < timeout && DeadlinesKept(timeout, overhead, es) && Harmless(timeout, es)
    ensures OwnedThroughout(timeout, es)
  {
    HarmlessRunsStayExclusive(timeout, overhead, es);
    hide Exec, OwnsLock, WithinDeadline, HarmlessRemoval;
    if es != [] { HarmlessRunsAreOwned(timeout, overhead, es[..|es| - 1]); }
  }

  /**
   With deadlines kept, every live holder keeps its lock throughout if and only if every rm that finds
   another lock than the one whose age was read finds one that nobody holds.
   */
  lemma LocksAreKeptIff(timeout: nat, overhead: nat, es: seq<Event>)
    requires overhead < timeout && DeadlinesKept(timeout, overhead, es)
    ensures OwnedThroughout(timeout, es) <==> Harmless(timeout, es)
  {
    if OwnedThroughout(timeout, es) { OwnedRunsAreHarmless(timeout, overhead, es); }
    if Harmless(timeout, es) { HarmlessRunsAreOwned(timeout, overhead, es); }
  }

  /** A lock on disk has its live holder. */
  predicate HasHolder(s: State, k: Key) {
    var l := s.FilesOf(k).lock;
    l.Lock? ==> l.attempt < |s.attempts| && Holds(s, s.attempts[l.attempt].holder, l.attempt)
  }

  /** Without crashes every lock has its live holder, so nothing is ever judged stale. */
  ghost predicate Attended(s: State) {
    && (forall k: Key :: HasHolder(s, k))
    && (forall p: Proc :: !s.PcOf(p).RemoveStale?)
    && (forall k: Key :: s.StaleRemovals(k) == 0)
  }

  /** A move of p keeps every lock attended when the locks it leaves on disk are p's own or unchanged. */
  lemma MoveKeepsAttended(p: Proc, s: State, t: State)
    requires Attended(s) && (forall q: Proc :: q != p ==> t.PcOf(q) == s.PcOf(q))
    requires |s.attempts| <= |t.attempts|
    requires forall a :: 0 <= a < |s.attempts| ==> t.attempts[a].holder == s.attempts[a].holder
    requires t.staleRemovals == s.staleRemovals && !t.PcOf(p).RemoveStale?
    requires forall k: Key ::
        HasHolder(t, k) || (t.FilesOf(k) == s.FilesOf(k) && !(s.PcOf(p).Holding() && s.PcOf(p).key == k))
    requires s.PcOf(p).Holding() ==> PcOk(s, p)
    requires forall k: Key :: LockSound(s, k)
    ensures Attended(t)
  {
    forall q: Proc ensures !t.PcOf(q).RemoveStale? {
      assert !s.PcOf(q).RemoveStale?;
    }
    forall k: Key ensures t.StaleRemovals(k) == 0 {
      assert s.StaleRemovals(k) == 0;
    }
    forall k: Key ensures HasHolder(t, k) {
      assert HasHolder(s, k) && LockSound(s, k);
    }
  }

  /** Events that leave disk and holds alone. */
  lemma HoldsKeptAttended(s: State, t: State)
    requires Attended(s) && t.disk == s.disk && t.staleRemovals == s.staleRemovals && |t.attempts| == |s.attempts|
    requires forall a :: 0 <= a < |s.attempts| ==> t.attempts[a].holder == s.attempts[a].holder
    requires forall q: Proc, a: nat :: Holds(s, q, a) ==> Holds(t, q, a)
    requires forall q: Proc :: t.PcOf(q).RemoveStale? ==> s.PcOf(q).RemoveStale?
    ensures Attended(t)
  {
    forall k: Key ensures t.StaleRemovals(k) == 0 {
      assert s.StaleRemovals(k) == 0;
    }
    forall k: Key ensures HasHolder(t, k) {
      assert HasHolder(s, k);
    }
  }

  lemma CreateAttended(s: State, p: Proc)
    requires Attended(s) && (forall k: Key :: LockSound(s, k)) && s.PcOf(p).CreateLock?
    ensures Attended(DoFileOp(s, p))
  {
    MoveKeepsAttended(p, s, DoFileOp(s, p));
  }

  lemma WriteAttended(s: State, p: Proc)
    requires Attended(s) && (forall k: Key :: LockSound(s, k)) && s.PcOf(p).WriteLock? && PcOk(s, p) && OwnsLock(s, p)
    ensures Attended(DoFileOp(s, p))
  {
    MoveKeepsAttended(p, s, DoFileOp(s, p));
  }

  lemma FinishAttended(s: State, p: Proc)
    requires Attended(s) && (forall k: Key :: LockSound(s, k)) && PcOk(s, p)
    requires s.PcOf(p).Committing? || s.PcOf(p).MarkingUnknown? || s.PcOf(p).Releasing?
    requires OwnsLock(s, p)
    ensures Attended(DoFileOp(s, p))
  {
    MoveKeepsAttended(p, s, DoFileOp(s, p));
  }

  lemma FileOpAttended(s: State, p: Proc, overhead: nat)
    requires Structure(s) && Exclusive(s) && Attended(s) && WithinDeadline(s, overhead) && overhead < s.timeout
    ensures Attended(DoFileOp(s, p))
  {
    assert PcOk(s, p) && OwnsLock(s, p) && !s.PcOf(p).RemoveStale?;
    if s.PcOf(p).StatLock? {
      assert LockSound(s, s.PcOf(p).key) && HasHolder(s, s.PcOf(p).key);
    }
    hide Structure, Exclusive, Create, Write, Remove, Rename, Release;
    match s.PcOf(p)
    case CreateLock(_) => CreateAttended(s, p);
    case WriteLock(_, _) => WriteAttended(s, p);
    case Committing(_, _) => FinishAttended(s, p);
    case MarkingUnknown(_, _) => FinishAttended(s, p);
    case Releasing(_, _) => FinishAttended(s, p);
    case StatLock(_) => HoldsKeptAttended(s, DoFileOp(s, p));
    case CheckPublished(_) => HoldsKeptAttended(s, DoFileOp(s, p));
    case CheckUnknown(_) => HoldsKeptAttended(s, DoFileOp(s, p));
    case RecheckPublished(_) => HoldsKeptAttended(s, DoFileOp(s, p));
    case RecheckUnknown(_) => HoldsKeptAttended(s, DoFileOp(s, p));
    case _ =>
  }

  lemma SpawnAttended(s: State, p: Proc)
    requires Attended(s)
    ensures Attended(Apply(s, Spawn(p)))
  {
    hide Attended, DoFileOp, DoSettle;
    HoldsKeptAttended(s, Apply(s, Spawn(p)));
  }

  lemma SettleAttended(s: State, p: Proc, report: Report)
    requires Attended(s)
    ensures Attended(Apply(s, Settle(p, report)))
  {
    hide Attended, DoFileOp;
    HoldsKeptAttended(s, Apply(s, Settle(p, report)));
  }

  lemma StepAttended(s: State, e: Event, overhead: nat)
    requires Structure(s) && Exclusive(s) && Attended(s) && WithinDeadline(s, overhead) && overhead < s.timeout
    requires !e.Crash?
    ensures Attended(Apply(s, e))
  {
    hide DoFileOp, DoSettle, Structure, Exclusive, Attended, WithinDeadline;
    match e
    case FileOp(p) => FileOpAttended(s, p, overhead);
    case Spawn(p) => SpawnAttended(s, p);
    case Settle(p, report) => SettleAttended(s, p, report);
    case _ => HoldsKeptAttended(s, Apply(s, e));
  }

  ghost predicate CrashFree(es: seq<Event>) { forall i :: 0 <= i < |es| ==> !es[i].Crash? }

  /** Where nothing is judged stale, no rm is about to happen at all. */
  lemma AttendedStepIsOwn(s: State, e: Event)
    requires Attended(s)
    ensures RemovesWhatItSaw(s, e)
  {
  }

  /** Without crashes the deadlines alone make a run timely: every lock keeps its live holder, so no rm ever happens. */
  lemma {:induction false} CrashFreeRunsAreTimely(timeout: nat, overhead: nat, es: seq<Event>)
    requires overhead < timeout && DeadlinesKept(timeout, overhead, es) && CrashFree(es)
    ensures Timely(timeout, overhead, es) && Attended(Exec(Init(timeout), es))
  {
    hide Apply, WithinDeadline, RemovesWhatItSaw, Structure, Exclusive;
    if es == [] {
      StartIsAttended(timeout);
    } else {
      var n := |es| - 1;
      CrashFreeRunsAreTimely(timeout, overhead, es[..n]);
      TimelyRunsStayExclusive(timeout, overhead, es[..n]);
      AttendedStepIsOwn(Exec(Init(timeout), es[..n]), es[n]);
      StepAttended(Exec(Init(timeout), es[..n]), es[n], overhead);
    }
  }

  lemma StartIsAttended(timeout: nat)
    ensures Attended(Init(timeout))
  {
  }

  /** Without crashes the deadlines alone exclude two holders of a key. */
  lemma CrashFreeMutualExclusion(timeout: nat, overhead: nat, es: seq<Event>, p: Proc, q: Proc)
    requires overhead < timeout && DeadlinesKept(timeout, overhead, es) && CrashFree(es)
    requires var s := Exec(Init(timeout), es);
             s.PcOf(p).Holding() && s.PcOf(q).Holding() && s.PcOf(p).key == s.PcOf(q).key
    ensures p == q
  {
    CrashFreeRunsAreTimely(timeout, overhead, es);
    OwnRemovalsAreHarmless(timeout, es);
    MutualExclusion(timeout, overhead, es, p, q);
  }

  /** A run without crashes that keeps its deadlines exceeds one delivery only by creates after a marker. */
  lemma CrashFreeDeliveriesBounded(timeout: nat, overhead: nat, es: seq<Event>, k: Key)
    requires overhead < timeout && DeadlinesKept(timeout, overhead, es) && CrashFree(es)
    ensures var s := Exec(Init(timeout), es); s.StaleRemovals(k) == 0 && Deliveries(s, k) <= 1 + s.LateCreates(k)
  {
    CrashFreeRunsAreTimely(timeout, overhead, es);
    DeliveriesBounded(timeout, es, k);
  }
}
