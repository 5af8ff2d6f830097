/**
 What cannot be improved. The delivery bound: for any numbers of stale removals and late creates there is
 a run with exactly that many of each whose deliveries are all of 1 + stale + late. Either race
 alone already posts a message twice, so "at most once" is not a property of the file protocol. And the
 hypotheses of timely runs: keeping every deadline does not by itself exclude two holders of a key.
 */
module ProtocolTightness {
  import opened Counting
  import opened PublicationProtocol
  import opened ProtocolTiming

  /** t differs from s only in what process q did with key k. */
  ghost predicate OnlyMoved(q: Proc, k: Key, s: State, t: State) {
    && t.timeout == s.timeout && s.now <= t.now
    && (forall p: Proc :: p != q ==> t.PcOf(p) == s.PcOf(p))
    && t.FilesOf(k).unknown == s.FilesOf(k).unknown
  }

  ghost predicate SameCounts(k: Key, s: State, t: State) {
    t.attempts == s.attempts && t.StaleRemovals(k) == s.StaleRemovals(k) && t.LateCreates(k) == s.LateCreates(k)
  }

  /** Run fs goes on from run es; no time passes and no process crashes. */
  predicate AtOnce(es: seq<Event>, fs: seq<Event>) {
    es <= fs && forall i :: |es| <= i < |fs| ==> !fs[i].Tick? && !fs[i].Crash?
  }

  function IsCrash(): Event -> bool { (e: Event) => e.Crash? }

  function Crashes(es: seq<Event>): nat { Count(es, IsCrash()) }

  lemma {:induction false} AtOnceCrashes(es: seq<Event>, fs: seq<Event>)
    requires AtOnce(es, fs)
    ensures Crashes(fs) == Crashes(es)
    decreases |fs|
  {
    if es != fs {
      assert AtOnce(es, fs[..|fs| - 1]);
      AtOnceCrashes(es, fs[..|fs| - 1]);
    }
  }

  /** One look at an open key's markers: only the program counter of q moves, to `next`. */
  lemma Look(b: State, q: Proc, k: Key, next: Pc)
    requires !b.FilesOf(k).Closed()
    requires || (b.PcOf(q) == CheckPublished(k) && next == CheckUnknown(k))
             || (b.PcOf(q) == CheckUnknown(k) && next == CreateLock(k))
             || (b.PcOf(q) == CreateLock(k) && b.FilesOf(k).lock.Lock? && next == RecheckPublished(k))
             || (b.PcOf(q) == RecheckPublished(k) && next == RecheckUnknown(k))
             || (b.PcOf(q) == RecheckUnknown(k) && next == StatLock(k))
             || (b.PcOf(q) == StatLock(k) && b.FilesOf(k).lock.Lock? && b.now - b.FilesOf(k).lock.mtime >= 2 * b.timeout
                 && next == RemoveStale(k, b.FilesOf(k).lock.attempt))
    ensures Apply(b, FileOp(q)) == b.Goto(q, next)
  {
  }

  ghost predicate SameKey(q: Proc, k: Key, s: State, t: State) {
    OnlyMoved(q, k, s, t) && SameCounts(k, s, t) && t.FilesOf(k) == s.FilesOf(k) && t.now == s.now
  }

  lemma LookOn(s: State, es: seq<Event>, q: Proc, k: Key, next: Pc) returns (fs: seq<Event>)
    requires Apply(Exec(s, es), FileOp(q)) == Exec(s, es).Goto(q, next)
    ensures SameKey(q, k, Exec(s, es), Exec(s, fs)) && Exec(s, fs).PcOf(q) == next && AtOnce(es, fs)
  {
    ExecSnoc(s, es, FileOp(q));
    fs := es + [FileOp(q)];
  }

  /** An idle process passes both marker checks of an open key. */
  lemma Approach(s: State, es: seq<Event>, q: Proc, k: Key) returns (fs: seq<Event>)
    requires Exec(s, es).PcOf(q) == Idle && !Exec(s, es).FilesOf(k).Closed()
    ensures SameKey(q, k, Exec(s, es), Exec(s, fs)) && Exec(s, fs).PcOf(q) == CreateLock(k) && AtOnce(es, fs)
  {
    ghost var b := Exec(s, es);
    ExecSnoc(s, es, Start(q, k));
    fs := es + [Start(q, k)];
    assert SameKey(q, k, b, Exec(s, fs)) && Exec(s, fs).PcOf(q) == CheckPublished(k);
    Look(Exec(s, fs), q, k, CheckUnknown(k));
    fs := LookOn(s, fs, q, k, CheckUnknown(k));
    Look(Exec(s, fs), q, k, CreateLock(k));
    fs := LookOn(s, fs, q, k, CreateLock(k));
  }

  /** A create that finds the lock and reads that it is stale. */
  lemma FindStale(s: State, es: seq<Event>, q: Proc, k: Key) returns (fs: seq<Event>)
    requires var b := Exec(s, es);
             && b.PcOf(q) == CreateLock(k) && !b.FilesOf(k).Closed()
             && b.FilesOf(k).lock.Lock? && b.now - b.FilesOf(k).lock.mtime >= 2 * b.timeout
    ensures SameKey(q, k, Exec(s, es), Exec(s, fs)) && AtOnce(es, fs)
    ensures Exec(s, fs).PcOf(q) == RemoveStale(k, Exec(s, es).FilesOf(k).lock.attempt)
  {
    Look(Exec(s, es), q, k, RecheckPublished(k));
    fs := LookOn(s, es, q, k, RecheckPublished(k));
    Look(Exec(s, fs), q, k, RecheckUnknown(k));
    fs := LookOn(s, fs, q, k, RecheckUnknown(k));
    Look(Exec(s, fs), q, k, StatLock(k));
    fs := LookOn(s, fs, q, k, StatLock(k));
    Look(Exec(s, fs), q, k, RemoveStale(k, Exec(s, fs).FilesOf(k).lock.attempt));
    fs := LookOn(s, fs, q, k, RemoveStale(k, Exec(s, fs).FilesOf(k).lock.attempt));
  }

  ghost predicate Stolen(q: Proc, k: Key, b: State, t: State) {
    && OnlyMoved(q, k, b, t)
    && t.FilesOf(k) == b.FilesOf(k).(lock := NoLock) && t.now == b.now
    && t.attempts == b.attempts && t.LateCreates(k) == b.LateCreates(k)
    && t.StaleRemovals(k) == b.StaleRemovals(k) + 1
  }

  lemma RemoveIt(b: State, q: Proc, k: Key)
    requires b.PcOf(q).RemoveStale? && b.PcOf(q).key == k && b.FilesOf(k).lock.Lock?
    ensures Stolen(q, k, b, Apply(b, FileOp(q))) && Apply(b, FileOp(q)).PcOf(q) == CheckPublished(k)
  {
  }

  /** A process about to remove a lock as stale removes whatever lock is there and comes back to the create. */
  lemma RemoveAndReturn(s: State, es: seq<Event>, q: Proc, k: Key) returns (fs: seq<Event>)
    requires var b := Exec(s, es);
             b.PcOf(q).RemoveStale? && b.PcOf(q).key == k && b.FilesOf(k).lock.Lock? && !b.FilesOf(k).Closed()
    ensures Stolen(q, k, Exec(s, es), Exec(s, fs)) && Exec(s, fs).PcOf(q) == CreateLock(k) && AtOnce(es, fs)
  {
    RemoveIt(Exec(s, es), q, k);
    ExecSnoc(s, es, FileOp(q));
    fs := es + [FileOp(q)];
    Look(Exec(s, fs), q, k, CheckUnknown(k));
    fs := LookOn(s, fs, q, k, CheckUnknown(k));
    Look(Exec(s, fs), q, k, CreateLock(k));
    fs := LookOn(s, fs, q, k, CreateLock(k));
  }

  /** A create that finds the lock, sees it stale and removes it, and comes back to the create. */
  lemma Steal(s: State, es: seq<Event>, q: Proc, k: Key) returns (fs: seq<Event>)
    requires var b := Exec(s, es);
             && b.PcOf(q) == CreateLock(k) && !b.FilesOf(k).Closed()
             && b.FilesOf(k).lock.Lock? && b.now - b.FilesOf(k).lock.mtime >= 2 * b.timeout
    ensures Stolen(q, k, Exec(s, es), Exec(s, fs)) && Exec(s, fs).PcOf(q) == CreateLock(k)
  {
    fs := FindStale(s, es, q, k);
    fs := RemoveAndReturn(s, fs, q, k);
  }

  /** The state after q created the lock at time b.now and its attempt got as far as `cli`. */
  ghost predicate Acquired(q: Proc, k: Key, b: State, t: State, cli: Cli, pc: Pc) {
    && OnlyMoved(q, k, b, t)
    && t.PcOf(q) == pc
    && t.attempts == b.attempts + [Attempt(k, q, b.now, cli, false)]
    && t.FilesOf(k).lock == Lock(|b.attempts|, b.now) && t.FilesOf(k).published == b.FilesOf(k).published
    && t.now == b.now && t.StaleRemovals(k) == b.StaleRemovals(k)
    && t.LateCreates(k) == b.LateCreates(k) + (if b.FilesOf(k).Closed() then 1 else 0)
  }

  lemma CreateAndWrite(b: State, q: Proc, k: Key)
    requires b.PcOf(q) == CreateLock(k) && b.FilesOf(k).lock.NoLock?
    ensures Acquired(q, k, b, Apply(b, FileOp(q)), Unused, WriteLock(k, |b.attempts|))
    ensures Acquired(q, k, b, Apply(Apply(b, FileOp(q)), FileOp(q)), Unused, Reserved(k, |b.attempts|))
  {
    hide Remove, Rename, Release;
    var t := Create(b, q, k);
    assert Apply(b, FileOp(q)) == t;
    assert Apply(t, FileOp(q)) == Write(t, q, k, |b.attempts|);
  }

  lemma StartCli(b: State, t: State, q: Proc, k: Key)
    requires Acquired(q, k, b, t, Unused, Reserved(k, |b.attempts|))
    ensures Acquired(q, k, b, Apply(t, Spawn(q)), Running, Publishing(k, |b.attempts|))
  {
  }

  lemma CliRuns(b: State, t: State, q: Proc, k: Key)
    requires Acquired(q, k, b, t, Running, Publishing(k, |b.attempts|))
    ensures Acquired(q, k, b, Apply(t, CliDelivers(|b.attempts|)), Delivered, Publishing(k, |b.attempts|))
  {
  }

  /** The create succeeds, the CLI starts and the message is delivered. */
  lemma Deliver(s: State, es: seq<Event>, q: Proc, k: Key) returns (fs: seq<Event>)
    requires Exec(s, es).PcOf(q) == CreateLock(k) && Exec(s, es).FilesOf(k).lock.NoLock?
    ensures Acquired(q, k, Exec(s, es), Exec(s, fs), Delivered, Publishing(k, |Exec(s, es).attempts|))
  {
    hide Apply, Acquired;
    ghost var b := Exec(s, es);
    CreateAndWrite(b, q, k);
    ExecSnoc(s, es, FileOp(q));
    fs := es + [FileOp(q)];
    ExecSnoc(s, fs, FileOp(q));
    fs := fs + [FileOp(q)];
    StartCli(b, Exec(s, fs), q, k);
    ExecSnoc(s, fs, Spawn(q));
    fs := fs + [Spawn(q)];
    CliRuns(b, Exec(s, fs), q, k);
    ExecSnoc(s, fs, CliDelivers(|b.attempts|));
    fs := fs + [CliDelivers(|b.attempts|)];
  }

  /** A delivered holder commits: the lock becomes the published marker. */
  lemma Commit(s: State, es: seq<Event>, q: Proc, k: Key) returns (fs: seq<Event>)
    requires var b := Exec(s, es);
             && b.PcOf(q).Publishing? && b.PcOf(q).key == k && b.PcOf(q).attempt < |b.attempts|
             && b.attempts[b.PcOf(q).attempt].cli == Delivered && b.FilesOf(k).lock.Lock?
    ensures var b, t := Exec(s, es), Exec(s, fs);
            && OnlyMoved(q, k, b, t) && SameCounts(k, b, t)
            && t.FilesOf(k).lock.NoLock? && t.FilesOf(k).published
  {
    ExecSnoc(s, es, Settle(q, ReportDelivered));
    fs := es + [Settle(q, ReportDelivered)];
    ExecSnoc(s, fs, FileOp(q));
    fs := fs + [FileOp(q)];
  }

  /** Processes below `late` have done their marker checks and stand before the create. */
  ghost predicate Parked(s: State, k: Key, from: nat, late: nat) {
    forall p: Proc :: from <= p < late ==> s.PcOf(p) == CreateLock(k)
  }

  lemma {:induction false} Park(timeout: nat, k: Key, late: nat) returns (es: seq<Event>)
    ensures var s := Exec(Init(timeout), es);
            && Parked(s, k, 0, late) && (forall p: Proc :: p >= late ==> s.PcOf(p) == Idle)
            && s.timeout == timeout
            && s.FilesOf(k) == Files(NoLock, false, false) && SameCounts(k, Init(timeout), s)
  {
    if late == 0 {
      es := [];
    } else {
      es := Park(timeout, k, late - 1);
      es := Approach(Init(timeout), es, late - 1, k);
    }
  }

  /** `stale` + 1 processes in turn deliver, each but the first by removing the lock of the one before. */
  lemma WaitKeepsAll(b: State, ms: nat, k: Key)
    ensures var t := Apply(b, Tick(ms));
            && (forall p: Proc :: t.PcOf(p) == b.PcOf(p))
            && t.FilesOf(k) == b.FilesOf(k) && t.now == b.now + ms && t.timeout == b.timeout && SameCounts(k, b, t)
  {
  }

  lemma {:induction false} StealRepeatedly(timeout: nat, k: Key, stale: nat, late: nat) returns (es: seq<Event>)
    ensures var s := Exec(Init(timeout), es);
            && Parked(s, k, 0, late) && (forall p: Proc :: p > late + stale ==> s.PcOf(p) == Idle)
            && s.timeout == timeout && !s.FilesOf(k).Closed()
            && s.FilesOf(k).lock.Lock? && s.FilesOf(k).lock.mtime <= s.now
            && s.PcOf(late + stale).Publishing? && s.PcOf(late + stale).key == k
            && s.PcOf(late + stale).attempt < |s.attempts| && s.attempts[s.PcOf(late + stale).attempt].cli == Delivered
            && s.StaleRemovals(k) == stale && s.LateCreates(k) == 0 && Deliveries(s, k) == 1 + stale
    decreases stale
  {
    hide Apply;
    var q := late + stale;
    if stale == 0 {
      es := Park(timeout, k, late);
      es := Approach(Init(timeout), es, q, k);
    } else {
      es := StealRepeatedly(timeout, k, stale - 1, late);
      ghost var s := Exec(Init(timeout), es);
      WaitKeepsAll(s, 2 * timeout, k);
      ExecSnoc(Init(timeout), es, Tick(2 * timeout));
      es := es + [Tick(2 * timeout)];
      es := Approach(Init(timeout), es, q, k);
      es := Steal(Init(timeout), es, q, k);
    }
    ghost var b := Exec(Init(timeout), es);
    es := Deliver(Init(timeout), es, q, k);
    CountAppend(b.attempts, Attempt(k, q, b.now, Delivered, false), DeliveredFor(k));
  }

  /** After the commit each parked process creates the lock anew and delivers once more. */
  lemma {:induction false} CreateLate(timeout: nat, k: Key, stale: nat, late: nat, done: nat) returns (es: seq<Event>)
    requires done <= late
    ensures var s := Exec(Init(timeout), es);
            && Parked(s, k, done, late) && s.FilesOf(k).lock.NoLock? && s.FilesOf(k).published
            && s.StaleRemovals(k) == stale && s.LateCreates(k) == done && Deliveries(s, k) == 1 + stale + done
    decreases done
  {
    if done == 0 {
      es := StealRepeatedly(timeout, k, stale, late);
      es := Commit(Init(timeout), es, late + stale, k);
    } else {
      var q := done - 1;
      es := CreateLate(timeout, k, stale, late, done - 1);
      ghost var b := Exec(Init(timeout), es);
      es := Deliver(Init(timeout), es, q, k);
      CountAppend(b.attempts, Attempt(k, q, b.now, Delivered, false), DeliveredFor(k));
      es := Commit(Init(timeout), es, q, k);
    }
  }

  /** The bound of DeliveriesBounded is reached for every number of races of either kind. */
  lemma BoundIsReached(timeout: nat, k: Key, stale: nat, late: nat)
    ensures exists es: seq<Event> ::
              var s := Exec(Init(timeout), es);
              s.StaleRemovals(k) == stale && s.LateCreates(k) == late && Deliveries(s, k) == 1 + stale + late
  {
    var es := CreateLate(timeout, k, stale, late, late);
  }

  // ------------------------------------------------------------ deadlines alone do not exclude two holders

  /** A step takes no hold of an older attempt. */
  ghost predicate HoldsAreOld(s: State, t: State) {
    && t.now == s.now && t.timeout == s.timeout
    && (forall p: Proc, a: nat :: Holds(t, p, a) && a < |t.attempts| ==>
          || (a < |s.attempts| && Holds(s, p, a) && t.attempts[a].createdAt == s.attempts[a].createdAt)
          || t.attempts[a].createdAt == t.now)
  }

  lemma CreateHoldsOld(s: State, p: Proc)
    requires s.PcOf(p).CreateLock?
    ensures HoldsAreOld(s, DoFileOp(s, p))
  {
    hide Write, Remove, Rename, Release;
  }

  lemma WriteHoldsOld(s: State, p: Proc)
    requires s.PcOf(p).WriteLock?
    ensures HoldsAreOld(s, DoFileOp(s, p))
  {
    hide Create, Remove, Rename, Release;
  }

  /** After a move of p nobody else moved, p holds nothing and no attempt is new. */
  ghost predicate LetsGo(s: State, t: State, p: Proc) {
    && t.now == s.now && t.timeout == s.timeout && !t.PcOf(p).Holding()
    && (forall q: Proc :: q != p ==> t.PcOf(q) == s.PcOf(q))
    && |t.attempts| == |s.attempts|
    && forall a :: 0 <= a < |s.attempts| ==> t.attempts[a].createdAt == s.attempts[a].createdAt
  }

  lemma RenameLetsGo(s: State, p: Proc, k: Key, marked: Files, v: Verdict)
    ensures LetsGo(s, Rename(s, p, k, marked, v), p)
  {
  }

  lemma ReleaseLetsGo(s: State, p: Proc, k: Key, a: nat)
    ensures LetsGo(s, Release(s, p, k, a), p)
  {
  }

  lemma RemoveLetsGo(s: State, p: Proc, k: Key)
    ensures LetsGo(s, Remove(s, p, k), p)
  {
  }

  /** Every operation but the create and the write leaves p without a hold. */
  lemma OtherOpsLetGo(s: State, p: Proc)
    requires !s.PcOf(p).CreateLock? && !s.PcOf(p).WriteLock? && DoFileOp(s, p) != s
    ensures LetsGo(s, DoFileOp(s, p), p)
  {
    hide Create, Write, Rename, Release, Remove;
    match s.PcOf(p)
    case RemoveStale(k, _) => RemoveLetsGo(s, p, k);
    case Committing(k, _) => RenameLetsGo(s, p, k, s.FilesOf(k).(lock := NoLock, published := true), Passed);
    case MarkingUnknown(k, _) => RenameLetsGo(s, p, k, s.FilesOf(k).(lock := NoLock, unknown := true), Failed);
    case Releasing(k, a) => ReleaseLetsGo(s, p, k, a);
    case _ =>
  }

  lemma FileOpHoldsOld(s: State, p: Proc)
    ensures HoldsAreOld(s, DoFileOp(s, p))
  {
    if s.PcOf(p).CreateLock? {
      CreateHoldsOld(s, p);
    } else if s.PcOf(p).WriteLock? {
      WriteHoldsOld(s, p);
    } else if DoFileOp(s, p) != s {
      OtherOpsLetGo(s, p);
      hide DoFileOp;
      assert HoldsAreOld(s, DoFileOp(s, p));
    }
  }

  lemma StepHoldsOld(s: State, e: Event)
    requires !e.Tick?
    ensures HoldsAreOld(s, Apply(s, e))
  {
    hide DoFileOp;
    if e.FileOp? { FileOpHoldsOld(s, e.proc); }
  }

  lemma StepKeepsDeadline(s: State, e: Event, overhead: nat)
    requires WithinDeadline(s, overhead) && !e.Tick?
    ensures WithinDeadline(Apply(s, e), overhead)
  {
    hide Apply;
    StepHoldsOld(s, e);
  }

  /** While no time passes no deadline is missed. */
  lemma {:induction false} AtOnceKeepsDeadlines(timeout: nat, overhead: nat, es: seq<Event>, fs: seq<Event>)
    requires DeadlinesKept(timeout, overhead, es) && AtOnce(es, fs)
    ensures DeadlinesKept(timeout, overhead, fs)
    decreases |fs|
  {
    hide WithinDeadline, Apply;
    if es != fs {
      var n := |fs| - 1;
      assert AtOnce(es, fs[..n]);
      AtOnceKeepsDeadlines(timeout, overhead, es, fs[..n]);
      StepKeepsDeadline(Exec(Init(timeout), fs[..n]), fs[n], overhead);
    }
  }

  lemma CreateOn(s: State, es: seq<Event>, q: Proc, k: Key) returns (fs: seq<Event>)
    requires Exec(s, es).PcOf(q) == CreateLock(k) && Exec(s, es).FilesOf(k).lock.NoLock?
    ensures Acquired(q, k, Exec(s, es), Exec(s, fs), Unused, WriteLock(k, |Exec(s, es).attempts|)) && AtOnce(es, fs)
  {
    hide Acquired, Apply;
    CreateAndWrite(Exec(s, es), q, k);
    ExecSnoc(s, es, FileOp(q));
    fs := es + [FileOp(q)];
  }

  /** Process 0 crashes right after its create. */
  lemma AbandonLock(timeout: nat, overhead: nat, k: Key) returns (es: seq<Event>)
    ensures DeadlinesKept(timeout, overhead, es) && Crashes(es) == 1
    ensures var s := Exec(Init(timeout), es);
            && s.timeout == timeout && (forall p: Proc :: s.PcOf(p) == if p == 0 then Crashed else Idle)
            && !s.FilesOf(k).Closed() && s.FilesOf(k).lock.Lock? && s.FilesOf(k).lock.mtime <= s.now
  {
    hide WithinDeadline;
    var s := Init(timeout);
    var created := Approach(s, [], 0, k);
    assert forall p: Proc :: p != 0 ==> Exec(s, created).PcOf(p) == Idle;
    created := CreateOn(s, created, 0, k);
    var b := Exec(s, created);
    CrashLeaves(b, 0, k);
    ExecSnoc(s, created, Crash(0));
    es := created + [Crash(0)];
    hide Apply, Acquired;
    assert es[..|es| - 1] == created;
    NoRunNoDeadline(timeout, overhead);
    AtOnceKeepsDeadlines(timeout, overhead, [], created);
    StepKeepsDeadline(b, Crash(0), overhead);
    AtOnceCrashes([], created);
    CountAppend(created, Crash(0), IsCrash());
  }

  lemma NoRunNoDeadline(timeout: nat, overhead: nat)
    ensures DeadlinesKept(timeout, overhead, [])
  {
  }

  lemma CrashLeaves(b: State, q: Proc, k: Key)
    ensures var t := Apply(b, Crash(q));
            && (forall p: Proc :: t.PcOf(p) == if p == q then Crashed else b.PcOf(p))
            && t.FilesOf(k) == b.FilesOf(k) && t.now == b.now && t.timeout == b.timeout
  {
  }

  /** And then twice the timeout passes. */
  lemma LeaveLockBehind(timeout: nat, overhead: nat, k: Key) returns (es: seq<Event>)
    ensures DeadlinesKept(timeout, overhead, es) && Crashes(es) == 1
    ensures var s := Exec(Init(timeout), es);
            && s.timeout == timeout && (forall p: Proc :: p != 0 ==> s.PcOf(p) == Idle) && !s.FilesOf(k).Closed()
            && s.FilesOf(k).lock.Lock? && s.now - s.FilesOf(k).lock.mtime >= 2 * timeout
  {
    hide Apply;
    es := AbandonLock(timeout, overhead, k);
    var b := Exec(Init(timeout), es);
    WaitKeepsAll(b, 2 * timeout, k);
    ExecSnoc(Init(timeout), es, Tick(2 * timeout));
    CountAppend(es, Tick(2 * timeout), IsCrash());
    assert (es + [Tick(2 * timeout)])[..|es|] == es;
    es := es + [Tick(2 * timeout)];
  }

  /** Two processes have read that the abandoned lock is stale. */
  lemma TwoStaleReaders(timeout: nat, overhead: nat, k: Key) returns (es: seq<Event>)
    ensures DeadlinesKept(timeout, overhead, es) && Crashes(es) == 1
    ensures var s := Exec(Init(timeout), es);
            && s.PcOf(1).RemoveStale? && s.PcOf(1).key == k && s.PcOf(2).RemoveStale? && s.PcOf(2).key == k
            && s.FilesOf(k).lock.Lock? && !s.FilesOf(k).Closed()
  {
    hide Apply, DeadlinesKept;
    var s := Init(timeout);
    var left := LeaveLockBehind(timeout, overhead, k);
    es := Approach(s, left, 1, k);
    es := FindStale(s, es, 1, k);
    es := Approach(s, es, 2, k);
    es := FindStale(s, es, 2, k);
    AtOnceKeepsDeadlines(timeout, overhead, left, es);
    AtOnceCrashes(left, es);
  }

  /**
   Whatever the run so far: if a process is about to remove as stale the lock of a live holder of an open
   key, then it and the holder can both hold the key at once, with every deadline kept.
   */
  lemma HarmfulRemovalAdmitsTwo(timeout: nat, overhead: nat, es: seq<Event>, p: Proc, q: Proc, k: Key)
    returns (fs: seq<Event>)
    requires DeadlinesKept(timeout, overhead, es) && p != q
    requires var s := Exec(Init(timeout), es);
             && s.PcOf(p).RemoveStale? && s.PcOf(p).key == k && s.PcOf(q).Holding() && s.PcOf(q).key == k
             && s.FilesOf(k).lock.Lock? && !s.FilesOf(k).Closed()
    ensures DeadlinesKept(timeout, overhead, fs) && AtOnce(es, fs)
    ensures var s := Exec(Init(timeout), fs);
            s.PcOf(p).Holding() && s.PcOf(q).Holding() && s.PcOf(p).key == s.PcOf(q).key == k
  {
    hide Apply, Acquired, DeadlinesKept;
    var s := Init(timeout);
    fs := RemoveAndReturn(s, es, p, k);
    var b := Exec(s, fs);
    fs := CreateOn(s, fs, p, k);
    AfterAcquired(p, k, b, Exec(s, fs));
    AtOnceKeepsDeadlines(timeout, overhead, es, fs);
  }

  /**
   From one crash on the deadlines alone do not exclude two holders: after a single crash two processes
   read the age of the abandoned lock; the second removes the fresh lock of the first, and both hold the key.
   */
  lemma OneCrashAdmitsTwoHolders(timeout: nat, overhead: nat, k: Key) returns (es: seq<Event>)
    ensures DeadlinesKept(timeout, overhead, es) && Crashes(es) == 1
    ensures var s := Exec(Init(timeout), es);
            s.PcOf(1).Holding() && s.PcOf(2).Holding() && s.PcOf(1).key == s.PcOf(2).key == k
  {
    hide Apply, Acquired, DeadlinesKept;
    var s := Init(timeout);
    var readers := TwoStaleReaders(timeout, overhead, k);
    var one := RemoveAndReturn(s, readers, 1, k);
    var b := Exec(s, one);
    one := CreateOn(s, one, 1, k);
    AfterAcquired(1, k, b, Exec(s, one));
    AtOnceKeepsDeadlines(timeout, overhead, readers, one);
    AtOnceCrashes(readers, one);
    es := HarmfulRemovalAdmitsTwo(timeout, overhead, one, 2, 1, k);
    AtOnceCrashes(one, es);
  }

  lemma AfterAcquired(q: Proc, k: Key, b: State, t: State)
    requires Acquired(q, k, b, t, Unused, WriteLock(k, |b.attempts|))
    ensures t.PcOf(q) == WriteLock(k, |b.attempts|) && forall p: Proc :: p != q ==> t.PcOf(p) == b.PcOf(p)
    ensures t.FilesOf(k).lock.Lock? && t.FilesOf(k).Closed() == b.FilesOf(k).Closed()
  {
  }

  /** Further crashes of a bystander change nothing for the holders. */
  lemma {:induction false} CrashesAdmitTwoHolders(timeout: nat, overhead: nat, k: Key, crashes: nat)
    returns (es: seq<Event>)
    requires crashes > 0
    ensures DeadlinesKept(timeout, overhead, es) && Crashes(es) == crashes
    ensures var s := Exec(Init(timeout), es);
            s.PcOf(1).Holding() && s.PcOf(2).Holding() && s.PcOf(1).key == s.PcOf(2).key == k
  {
    hide Apply, WithinDeadline;
    if crashes == 1 {
      es := OneCrashAdmitsTwoHolders(timeout, overhead, k);
    } else {
      var fewer := CrashesAdmitTwoHolders(timeout, overhead, k, crashes - 1);
      es := fewer + [Crash(3)];
      assert es[..|es| - 1] == fewer;
      ExecSnoc(Init(timeout), fewer, Crash(3));
      CrashLeaves(Exec(Init(timeout), fewer), 3, k);
      StepKeepsDeadline(Exec(Init(timeout), fewer), Crash(3), overhead);
      CountAppend(fewer, Crash(3), IsCrash());
    }
  }

  lemma {:induction false} NoCrashIsCrashFree(es: seq<Event>)
    requires Crashes(es) == 0
    ensures CrashFree(es)
  {
    if es != [] { NoCrashIsCrashFree(es[..|es| - 1]); }
  }

  ghost predicate AtMostOneHolder(s: State, k: Key) {
    forall p: Proc, q: Proc ::
      s.PcOf(p).Holding() && s.PcOf(q).Holding() && s.PcOf(p).key == s.PcOf(q).key == k ==> p == q
  }

  /**
   How many crashes the deadlines withstand: they exclude two holders of a key from all runs with the given
   number of crashes if and only if that number is zero.
   */
  lemma DeadlinesExcludeIff(timeout: nat, overhead: nat, k: Key, crashes: nat)
    requires overhead < timeout
    ensures (forall es: seq<Event> :: DeadlinesKept(timeout, overhead, es) && Crashes(es) == crashes ==>
               AtMostOneHolder(Exec(Init(timeout), es), k))
            <==> crashes == 0
  {
    hide Exec, DeadlinesKept;
    if crashes > 0 {
      var es := CrashesAdmitTwoHolders(timeout, overhead, k, crashes);
      assert !AtMostOneHolder(Exec(Init(timeout), es), k);
    } else {
      forall es: seq<Event> | DeadlinesKept(timeout, overhead, es) && Crashes(es) == 0
        ensures AtMostOneHolder(Exec(Init(timeout), es), k)
      {
        NoCrashMeansOneHolder(timeout, overhead, es, k);
      }
    }
  }

  lemma NoCrashMeansOneHolder(timeout: nat, overhead: nat, es: seq<Event>, k: Key)
    requires overhead < timeout && DeadlinesKept(timeout, overhead, es) && Crashes(es) == 0
    ensures AtMostOneHolder(Exec(Init(timeout), es), k)
  {
    hide Exec, DeadlinesKept;
    var s := Exec(Init(timeout), es);
    NoCrashIsCrashFree(es);
    forall p: Proc, q: Proc | s.PcOf(p).Holding() && s.PcOf(q).Holding() && s.PcOf(p).key == s.PcOf(q).key == k
      ensures p == q
    {
      CrashFreeMutualExclusion(timeout, overhead, es, p, q);
    }
  }
}
