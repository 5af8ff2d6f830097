/** One adapter process on its own directory: no other process moves and none crashes. */
module SoleProcess {
  import opened Counting
  import opened PublicationProtocol

  predicate By(p: Proc, e: Event) {
    match e
    case Tick(_) => true
    case CliDelivers(_) => true
    case CliFails(_) => true
    case Start(q, _) => q == p
    case FileOp(q) => q == p
    case Spawn(q) => q == p
    case Settle(q, _) => q == p
    case Crash(_) => false
  }

  predicate OnlyBy(p: Proc, es: seq<Event>) {
    forall i :: 0 <= i < |es| ==> By(p, es[i])
  }

  function ForKey(k: Key): Attempt -> bool { (a: Attempt) => a.key == k }

  function AttemptsFor(s: State, k: Key): nat { Count(s.attempts, ForKey(k)) }

  /** What one key looks like while p runs alone: the lock is p's own, and no race was ever counted. */
  predicate Alone(s: State, p: Proc, k: Key) {
    var f := s.FilesOf(k);
    var pc := s.PcOf(p);
    && (f.lock.Lock? <==> pc.Holding() && pc.key == k)
    && !(f.lock.Lock? && f.Closed())
    && (pc == CreateLock(k) ==> !f.Closed())
    && (pc == CheckUnknown(k) ==> !f.published)
    && s.StaleRemovals(k) == 0 && s.LateCreates(k) == 0
    && Unreleased(s, k) == (if f.lock.Lock? || f.Closed() then 1 else 0)
  }

  /** Alone, the process never sees a lock in its way. */
  predicate Unhindered(s: State, p: Proc) {
    var pc := s.PcOf(p);
    !pc.Crashed? && !pc.RecheckPublished? && !pc.RecheckUnknown? && !pc.StatLock? && !pc.RemoveStale?
  }

  lemma CreateAlone(s: State, p: Proc, k: Key)
    requires Structure(s) && Unhindered(s, p) && Alone(s, p, k)
    requires s.PcOf(p).CreateLock? && Alone(s, p, s.PcOf(p).key)
    ensures Unhindered(DoFileOp(s, p), p) && Alone(DoFileOp(s, p), p, k)
    ensures s.FilesOf(k).Closed() ==> AttemptsFor(DoFileOp(s, p), k) == AttemptsFor(s, k)
  {
    var k' := s.PcOf(p).key;
    CountAppend(s.attempts, Attempt(k', p, s.now, Unused, false), UnreleasedFor(k));
    CountAppend(s.attempts, Attempt(k', p, s.now, Unused, false), ForKey(k));
  }

  lemma ReleaseAlone(s: State, p: Proc, k: Key)
    requires Structure(s) && Unhindered(s, p) && Alone(s, p, k)
    requires s.PcOf(p).Releasing?
    ensures Unhindered(DoFileOp(s, p), p) && Alone(DoFileOp(s, p), p, k)
    ensures AttemptsFor(DoFileOp(s, p), k) == AttemptsFor(s, k)
  {
    assert PcOk(s, p);
    var a := s.PcOf(p).attempt;
    CountUpdate(s.attempts, a, s.attempts[a].(released := true), UnreleasedFor(k));
    CountUpdate(s.attempts, a, s.attempts[a].(released := true), ForKey(k));
  }

  lemma WriteAlone(s: State, p: Proc, k: Key)
    requires Alone(s, p, k) && s.PcOf(p).WriteLock?
    ensures Unhindered(DoFileOp(s, p), p) && Alone(DoFileOp(s, p), p, k)
    ensures AttemptsFor(DoFileOp(s, p), k) == AttemptsFor(s, k)
  {
  }

  lemma RenameAlone(s: State, p: Proc, k: Key)
    requires Alone(s, p, k) && (s.PcOf(p).Committing? || s.PcOf(p).MarkingUnknown?)
    ensures Unhindered(DoFileOp(s, p), p) && Alone(DoFileOp(s, p), p, k)
    ensures AttemptsFor(DoFileOp(s, p), k) == AttemptsFor(s, k)
  {
    hide Create, Write, Remove, Release;
  }

  lemma CheckAlone(s: State, p: Proc, k: Key)
    requires Alone(s, p, k) && (s.PcOf(p).CheckPublished? || s.PcOf(p).CheckUnknown?)
    ensures Unhindered(DoFileOp(s, p), p) && Alone(DoFileOp(s, p), p, k)
    ensures AttemptsFor(DoFileOp(s, p), k) == AttemptsFor(s, k)
  {
    hide Create, Write, Remove, Rename, Release;
  }

  lemma FileOpAlone(s: State, p: Proc, k: Key)
    requires Structure(s) && Unhindered(s, p) && Alone(s, p, k)
    requires s.PcOf(p).CreateLock? ==> Alone(s, p, s.PcOf(p).key)
    ensures Unhindered(DoFileOp(s, p), p) && Alone(DoFileOp(s, p), p, k)
    ensures s.FilesOf(k).Closed() ==> AttemptsFor(DoFileOp(s, p), k) == AttemptsFor(s, k)
  {
    match s.PcOf(p)
    case CheckPublished(_) => CheckAlone(s, p, k);
    case CheckUnknown(_) => CheckAlone(s, p, k);
    case CreateLock(_) => CreateAlone(s, p, k);
    case WriteLock(_, _) => WriteAlone(s, p, k);
    case Committing(_, _) => RenameAlone(s, p, k);
    case MarkingUnknown(_, _) => RenameAlone(s, p, k);
    case Releasing(_, _) => ReleaseAlone(s, p, k);
    case Idle =>
    case Reserved(_, _) =>
    case Publishing(_, _) =>
  }

  lemma CliAlone(s: State, p: Proc, a: nat, c: Cli, k: Key)
    requires Alone(s, p, k) && a < |s.attempts|
    ensures Alone(s.WithAttempt(a, s.attempts[a].(cli := c)), p, k)
    ensures AttemptsFor(s.WithAttempt(a, s.attempts[a].(cli := c)), k) == AttemptsFor(s, k)
  {
    CountUpdate(s.attempts, a, s.attempts[a].(cli := c), UnreleasedFor(k));
    CountUpdate(s.attempts, a, s.attempts[a].(cli := c), ForKey(k));
  }

  /** A step that only moves p's program counter between points that hold the same lock, or none. */
  lemma MoveAlone(s: State, t: State, p: Proc, k: Key)
    requires Alone(s, p, k) && Unhindered(t, p)
    requires t.disk == s.disk && t.attempts == s.attempts && t.staleRemovals == s.staleRemovals
        && t.lateCreates == s.lateCreates
    requires var pc, pc' := s.PcOf(p), t.PcOf(p);
             && pc'.Holding() == pc.Holding() && (pc.Holding() ==> pc'.key == pc.key)
             && (pc' == pc || (!pc'.CreateLock? && !pc'.CheckUnknown?))
    ensures Alone(t, p, k) && AttemptsFor(t, k) == AttemptsFor(s, k)
  {
  }

  lemma SpawnAlone(s: State, p: Proc, k: Key)
    requires Structure(s) && Unhindered(s, p) && Alone(s, p, k)
    ensures var t := Apply(s, Spawn(p)); Unhindered(t, p) && Alone(t, p, k) && AttemptsFor(t, k) == AttemptsFor(s, k)
  {
    hide Alone, AttemptsFor;
    assert PcOk(s, p);
    if s.PcOf(p).Reserved? {
      var a := s.PcOf(p).attempt;
      CliAlone(s, p, a, Running, k);
      MoveAlone(s.WithAttempt(a, s.attempts[a].(cli := Running)), Apply(s, Spawn(p)), p, k);
    }
  }

  lemma StepAlone(s: State, e: Event, p: Proc, k: Key)
    requires By(p, e) && Structure(s) && Unhindered(s, p) && Alone(s, p, k)
    requires s.PcOf(p).CreateLock? ==> Alone(s, p, s.PcOf(p).key)
    ensures Unhindered(Apply(s, e), p) && Alone(Apply(s, e), p, k)
    ensures s.FilesOf(k).Closed() ==> AttemptsFor(Apply(s, e), k) == AttemptsFor(s, k)
  {
    hide Alone, AttemptsFor, Structure, DoFileOp;
    match e
    case FileOp(_) => FileOpAlone(s, p, k);
    case Spawn(_) => SpawnAlone(s, p, k);
    case CliDelivers(a) => if a < |s.attempts| { CliAlone(s, p, a, Delivered, k); }
    case CliFails(a) => if a < |s.attempts| { CliAlone(s, p, a, Barred, k); }
    case _ => MoveAlone(s, Apply(s, e), p, k);
  }

  lemma {:induction false} RunAlone(timeout: nat, es: seq<Event>, p: Proc, k: Key)
    requires OnlyBy(p, es)
    ensures var s := Exec(Init(timeout), es); Structure(s) && Unhindered(s, p) && Alone(s, p, k)
    decreases |es|
  {
    RunKeepsInvariant(timeout, es, k);
    if es != [] {
      var n := |es| - 1;
      var s := Exec(Init(timeout), es[..n]);
      RunAlone(timeout, es[..n], p, k);
      if s.PcOf(p).CreateLock? { RunAlone(timeout, es[..n], p, s.PcOf(p).key); }
      StepAlone(s, es[n], p, k);
    }
  }

  /**
   With no other process, a key is delivered at most once however often it is tried. Between
   turns the key is open exactly when every attempt so far certainly failed.
   */
  lemma OneProcessDeliversOnce(timeout: nat, es: seq<Event>, p: Proc, k: Key)
    requires OnlyBy(p, es)
    ensures var s := Exec(Init(timeout), es);
            && Deliveries(s, k) <= 1
            && (s.PcOf(p) == Idle ==> s.FilesOf(k).lock.NoLock? && (!s.FilesOf(k).Closed() <==> Unreleased(s, k) == 0))
  {
    RunAlone(timeout, es, p, k);
    DeliveriesBounded(timeout, es, k);
  }

  lemma StepAfterRunAlone(timeout: nat, es: seq<Event>, e: Event, p: Proc, k: Key)
    requires OnlyBy(p, es) && By(p, e)
    requires Exec(Init(timeout), es).FilesOf(k).Closed()
    ensures AttemptsFor(Apply(Exec(Init(timeout), es), e), k) == AttemptsFor(Exec(Init(timeout), es), k)
  {
    var s := Exec(Init(timeout), es);
    RunAlone(timeout, es, p, k);
    if s.PcOf(p).CreateLock? { RunAlone(timeout, es, p, s.PcOf(p).key); }
    StepAlone(s, e, p, k);
  }

  /** A delivery or an uncertain outcome closes the key for good: it is never attempted again. */
  lemma {:induction false} ClosedKeyIsNeverTriedAgain(timeout: nat, es: seq<Event>, later: seq<Event>, p: Proc, k: Key)
    requires OnlyBy(p, es) && OnlyBy(p, later)
    requires Exec(Init(timeout), es).FilesOf(k).Closed()
    ensures AttemptsFor(Exec(Exec(Init(timeout), es), later), k) == AttemptsFor(Exec(Init(timeout), es), k)
    decreases |later|
  {
    if later != [] {
      var n := |later| - 1;
      ClosedKeyIsNeverTriedAgain(timeout, es, later[..n], p, k);
      MarkersStay(Exec(Init(timeout), es), later[..n], k);
      ExecConcat(Init(timeout), es, later[..n]);
      StepAfterRunAlone(timeout, es + later[..n], later[n], p, k);
    }
  }
}
