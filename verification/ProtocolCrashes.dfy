/**
 How many times a key can be posted in a timely run with crashes: each post beyond the first is paid for by
 a create after a marker, or by a process that crashed after its CLI had started. A crash before that, and
 the removal of the lock it left behind, cost nothing.
 */
module ProtocolCrashes {
  import opened Counting
  import opened PublicationProtocol
  import opened ProtocolTiming

  /** The process has started the CLI for k and has not dealt with its outcome. */
  predicate Posting(pc: Pc, k: Key) { (pc.Publishing? || pc.Committing? || pc.MarkingUnknown?) && pc.key == k }

  /** The process holds k and has not started the CLI. */
  predicate Preparing(pc: Pc, k: Key) { (pc.WriteLock? || pc.Reserved?) && pc.key == k }

  /** The crash that e is hits a process posting for k. */
  predicate CrashesPosting(s: State, e: Event, k: Key) { e.Crash? && Posting(s.PcOf(e.proc), k) }

  /** Processes of the run that crashed while posting for k. */
  function CrashedPosts(timeout: nat, es: seq<Event>, k: Key): nat
    decreases |es|
  {
    if es == [] then 0
    else
      var n := |es| - 1;
      CrashedPosts(timeout, es[..n], k) + (if CrashesPosting(Exec(Init(timeout), es[..n]), es[n], k) then 1 else 0)
  }

  function StartedFor(k: Key): Attempt -> bool {
    (a: Attempt) => a.key == k && (a.cli == Running || a.cli == Delivered)
  }

  /** Attempts for k whose CLI started and has posted, or may still. */
  function Started(s: State, k: Key): nat { Count(s.attempts, StartedFor(k)) }

  /** A live process is posting for k, and its CLI has posted or may still. */
  predicate LivePost(s: State, p: Proc, k: Key) {
    && Posting(s.PcOf(p), k) && s.PcOf(p).attempt < |s.attempts|
    && StartedFor(k)(s.attempts[s.PcOf(p).attempt])
  }

  ghost predicate Underway(s: State, k: Key) { exists p: Proc :: LivePost(s, p, k) }

  ghost predicate Prepared(s: State, k: Key) { exists p: Proc :: Preparing(s.PcOf(p), k) }

  /**
   Started posts are paid for by `paid`, except one: for that the key is closed, or its process still lives.
   While a process only prepares there is not even that one.
   */
  ghost predicate Paid(s: State, k: Key, paid: nat) {
    && Started(s, k) <= paid + 1
    && (Started(s, k) == paid + 1 ==> (s.FilesOf(k).Closed() || Underway(s, k)) && !Prepared(s, k))
  }

  /** What one step adds to the payments for k. */
  function Payment(s: State, e: Event, k: Key): int {
    Apply(s, e).LateCreates(k) - s.LateCreates(k) + (if CrashesPosting(s, e, k) then 1 else 0)
  }

  /** A move of p that starts no CLI, and after which p posts on as before or has closed the key. */
  lemma SteadyMoveKeepsPaid(p: Proc, s: State, t: State, k: Key, paid: nat)
    requires Paid(s, k, paid) && Started(t, k) == Started(s, k)
    requires forall q: Proc :: q != p ==> t.PcOf(q) == s.PcOf(q)
    requires |s.attempts| <= |t.attempts|
    requires forall a :: 0 <= a < |s.attempts| && StartedFor(k)(s.attempts[a]) ==> StartedFor(k)(t.attempts[a])
    requires Preparing(t.PcOf(p), k) ==> Preparing(s.PcOf(p), k)
    requires LivePost(s, p, k) ==> LivePost(t, p, k) || t.FilesOf(k).Closed()
    requires s.FilesOf(k).Closed() ==> t.FilesOf(k).Closed()
    ensures Paid(t, k, paid)
  {
    hide Started, StartedFor;
    if Started(s, k) == paid + 1 {
      forall q: Proc ensures !Preparing(t.PcOf(q), k) {
        assert !Preparing(s.PcOf(q), k);
      }
      if !s.FilesOf(k).Closed() {
        var q :| LivePost(s, q, k);
        assert q != p ==> LivePost(t, q, k);
      }
    }
  }

  /** A move of p that leaves the attempts alone. */
  lemma QuietMoveKeepsPaid(p: Proc, s: State, t: State, k: Key, paid: nat)
    requires Paid(s, k, paid) && t.attempts == s.attempts
    requires forall q: Proc :: q != p ==> t.PcOf(q) == s.PcOf(q)
    requires Preparing(t.PcOf(p), k) ==> Preparing(s.PcOf(p), k)
    requires LivePost(s, p, k) ==> LivePost(t, p, k) || t.FilesOf(k).Closed()
    requires s.FilesOf(k).Closed() ==> t.FilesOf(k).Closed()
    ensures Paid(t, k, paid)
  {
    SteadyMoveKeepsPaid(p, s, t, k, paid);
  }

  /** A key whose started posts are all paid for stays so while no CLI starts. */
  lemma AllPaidStaysPaid(s: State, t: State, k: Key, paid: nat)
    requires Started(t, k) <= Started(s, k) <= paid
    ensures Paid(t, k, paid)
  {
  }

  /** Nobody posts for a key that has no lock. */
  lemma FreeKeyIsNotUnderway(s: State, k: Key)
    requires Exclusive(s) && s.FilesOf(k).lock.NoLock?
    ensures !Underway(s, k)
  {
    forall p: Proc ensures !LivePost(s, p, k) {
      assert OwnsLock(s, p);
    }
  }

  lemma CreateKeepsPaid(s: State, p: Proc, k': Key, k: Key, paid: nat)
    requires Exclusive(s) && Paid(s, k, paid) && s.PcOf(p) == CreateLock(k') && s.FilesOf(k').lock.NoLock?
    ensures Paid(Create(s, p, k'), k, paid + (if k' == k && s.FilesOf(k).Closed() then 1 else 0))
  {
    var t := Create(s, p, k');
    CountAppend(s.attempts, Attempt(k', p, s.now, Unused, false), StartedFor(k));
    if k' == k {
      FreeKeyIsNotUnderway(s, k);
    } else {
      SteadyMoveKeepsPaid(p, s, t, k, paid);
    }
  }

  lemma ReleaseKeepsPaid(s: State, p: Proc, k': Key, a: nat, k: Key, paid: nat)
    requires Paid(s, k, paid) && s.PcOf(p) == Releasing(k', a) && a < |s.attempts|
    ensures Paid(Release(s, p, k', a), k, paid)
  {
    CountUpdate(s.attempts, a, s.attempts[a].(released := true), StartedFor(k));
    SteadyMoveKeepsPaid(p, s, Release(s, p, k', a), k, paid);
  }

  /** The poster still owns the lock, so its rename succeeds and closes the key. */
  lemma RenameKeepsPaid(s: State, p: Proc, k: Key, paid: nat)
    requires Exclusive(s) && Paid(s, k, paid) && (s.PcOf(p).Committing? || s.PcOf(p).MarkingUnknown?)
    ensures Paid(DoFileOp(s, p), k, paid)
  {
    assert OwnsLock(s, p);
    SteadyMoveKeepsPaid(p, s, DoFileOp(s, p), k, paid);
  }

  lemma LookKeepsPaid(s: State, p: Proc, k: Key, paid: nat)
    requires Paid(s, k, paid)
    requires var pc := s.PcOf(p);
             || pc.CheckPublished? || pc.CheckUnknown? || pc.RecheckPublished? || pc.RecheckUnknown? || pc.StatLock?
             || (pc.CreateLock? && s.FilesOf(pc.key).lock.Lock?)
    ensures Paid(DoFileOp(s, p), k, paid)
  {
    hide Paid, Create, Write, Remove, Rename, Release;
    QuietMoveKeepsPaid(p, s, DoFileOp(s, p), k, paid);
  }

  lemma WriteKeepsPaid(s: State, p: Proc, k': Key, a: nat, k: Key, paid: nat)
    requires Paid(s, k, paid) && s.PcOf(p) == WriteLock(k', a)
    ensures Paid(Write(s, p, k', a), k, paid)
  {
    hide Paid;
    QuietMoveKeepsPaid(p, s, Write(s, p, k', a), k, paid);
  }

  lemma RemoveKeepsPaid(s: State, p: Proc, k': Key, k: Key, paid: nat)
    requires Paid(s, k, paid) && s.PcOf(p).RemoveStale?
    ensures Paid(Remove(s, p, k'), k, paid)
  {
    hide Paid;
    QuietMoveKeepsPaid(p, s, Remove(s, p, k'), k, paid);
  }

  lemma FileOpGrowth(s: State, p: Proc, k: Key)
    ensures DoFileOp(s, p).LateCreates(k) - s.LateCreates(k) ==
            var pc := s.PcOf(p);
            if pc == CreateLock(k) && s.FilesOf(k).lock.NoLock? && s.FilesOf(k).Closed() then 1 else 0
  {
  }

  lemma FileOpKeepsPaid(s: State, p: Proc, k: Key, paid: nat)
    requires Structure(s) && Exclusive(s) && Paid(s, k, paid)
    ensures var grown := DoFileOp(s, p).LateCreates(k) - s.LateCreates(k);
            grown >= 0 && Paid(DoFileOp(s, p), k, paid + grown)
  {
    assert PcOk(s, p);
    FileOpGrowth(s, p, k);
    hide Structure, Exclusive, Paid, Create, Write, Remove, Rename, Release;
    match s.PcOf(p)
    case CreateLock(k') =>
      if s.FilesOf(k').lock.NoLock? { CreateKeepsPaid(s, p, k', k, paid); } else { LookKeepsPaid(s, p, k, paid); }
    case WriteLock(k', a) => WriteKeepsPaid(s, p, k', a, k, paid);
    case RemoveStale(k', _) => RemoveKeepsPaid(s, p, k', k, paid);
    case Committing(_, _) => RenameKeepsPaid(s, p, k, paid);
    case MarkingUnknown(_, _) => RenameKeepsPaid(s, p, k, paid);
    case Releasing(k', a) => ReleaseKeepsPaid(s, p, k', a, k, paid);
    case CheckPublished(_) => LookKeepsPaid(s, p, k, paid);
    case CheckUnknown(_) => LookKeepsPaid(s, p, k, paid);
    case RecheckPublished(_) => LookKeepsPaid(s, p, k, paid);
    case RecheckUnknown(_) => LookKeepsPaid(s, p, k, paid);
    case StatLock(_) => LookKeepsPaid(s, p, k, paid);
    case _ =>
  }

  /** Starting the CLI takes the one unpaid post: while a process prepared, there was none. */
  lemma SpawnKeepsPaid(s: State, p: Proc, k: Key, paid: nat)
    requires Structure(s) && Exclusive(s) && Paid(s, k, paid) && s.PcOf(p).Reserved?
    ensures Paid(Apply(s, Spawn(p)), k, paid)
  {
    assert PcOk(s, p);
    var t := Apply(s, Spawn(p));
    var a := s.PcOf(p).attempt;
    CountUpdate(s.attempts, a, s.attempts[a].(cli := Running), StartedFor(k));
    if s.PcOf(p).key == k {
      assert Preparing(s.PcOf(p), k);
      assert LivePost(t, p, k);
      forall q: Proc ensures !Preparing(t.PcOf(q), k) {
        if q != p && Preparing(s.PcOf(q), k) { OneHolderPerKey(s, p, q); }
      }
    } else {
      SteadyMoveKeepsPaid(p, s, t, k, paid);
    }
  }

  lemma CliKeepsPaid(s: State, a: nat, cli: Cli, k: Key, paid: nat)
    requires Paid(s, k, paid) && a < |s.attempts| && s.attempts[a].cli == Running && (cli == Delivered || cli == Barred)
    ensures Paid(s.WithAttempt(a, s.attempts[a].(cli := cli)), k, paid)
  {
    var x := s.attempts[a].(cli := cli);
    CountUpdate(s.attempts, a, x, StartedFor(k));
    if x.key == k && cli == Barred {
      AllPaidStaysPaid(s.WithAttempt(a, x), s.WithAttempt(a, x), k, paid);
    } else {
      SteadyMoveKeepsPaid(0, s, s.WithAttempt(a, x), k, paid);
    }
  }

  lemma CrashKeepsPaid(s: State, p: Proc, k: Key, paid: nat)
    requires Paid(s, k, paid)
    ensures Paid(Apply(s, Crash(p)), k, paid + (if Posting(s.PcOf(p), k) then 1 else 0))
  {
    if Posting(s.PcOf(p), k) {
      AllPaidStaysPaid(s, Apply(s, Crash(p)), k, paid + 1);
    } else {
      SteadyMoveKeepsPaid(p, s, Apply(s, Crash(p)), k, paid);
    }
  }

  lemma QuietStepKeepsPaid(s: State, e: Event, k: Key, paid: nat)
    requires Paid(s, k, paid) && (e.Settle? || e.Start? || e.Tick?)
    ensures Paid(Apply(s, e), k, paid)
  {
    hide Paid, DoFileOp;
    QuietMoveKeepsPaid(if e.Tick? then 0 else e.proc, s, Apply(s, e), k, paid);
  }

  lemma StepKeepsPaid(s: State, e: Event, k: Key, paid: nat)
    requires Structure(s) && Exclusive(s) && Paid(s, k, paid)
    ensures Payment(s, e, k) >= 0 && Paid(Apply(s, e), k, paid + Payment(s, e, k))
  {
    hide Structure, Exclusive, Paid, Started, LivePost, DoFileOp;
    match e
    case FileOp(p) => FileOpKeepsPaid(s, p, k, paid);
    case Spawn(p) =>
      if s.PcOf(p).Reserved? { SpawnKeepsPaid(s, p, k, paid); }
    case CliDelivers(a) =>
      if a < |s.attempts| && s.attempts[a].cli == Running { CliKeepsPaid(s, a, Delivered, k, paid); }
    case CliFails(a) =>
      if a < |s.attempts| && s.attempts[a].cli == Running { CliKeepsPaid(s, a, Barred, k, paid); }
    case Crash(p) => CrashKeepsPaid(s, p, k, paid);
    case _ => QuietStepKeepsPaid(s, e, k, paid);
  }

  lemma StartIsPaid(timeout: nat, k: Key)
    ensures Paid(Init(timeout), k, 0)
  {
  }

  lemma {:induction false} HarmlessRunsStayPaid(timeout: nat, overhead: nat, es: seq<Event>, k: Key)
    requires overhead < timeout && DeadlinesKept(timeout, overhead, es) && Harmless(timeout, es)
    ensures var s := Exec(Init(timeout), es); Paid(s, k, s.LateCreates(k) + CrashedPosts(timeout, es, k))
  {
    hide Apply, WithinDeadline, HarmlessRemoval, Structure, Exclusive, Paid;
    if es == [] {
      StartIsPaid(timeout, k);
    } else {
      var n := |es| - 1;
      var s := Exec(Init(timeout), es[..n]);
      HarmlessRunsStayPaid(timeout, overhead, es[..n], k);
      HarmlessRunsStayExclusive(timeout, overhead, es[..n]);
      StepKeepsPaid(s, es[n], k, s.LateCreates(k) + CrashedPosts(timeout, es[..n], k));
    }
  }

  /**
   With deadlines kept and harmless removals, the messages posted for a key exceed one only by the creates
   after a marker and by the processes that crashed between the start of their CLI and the end of their
   sequence. Stale removals do not appear: what a crash before the CLI leaves behind is cleared at no cost.
   */
  lemma CrashesPayForPosts(timeout: nat, overhead: nat, es: seq<Event>, k: Key)
    requires overhead < timeout && DeadlinesKept(timeout, overhead, es) && Harmless(timeout, es)
    ensures var s := Exec(Init(timeout), es);
            Deliveries(s, k) <= 1 + s.LateCreates(k) + CrashedPosts(timeout, es, k)
  {
    var s := Exec(Init(timeout), es);
    HarmlessRunsStayPaid(timeout, overhead, es, k);
    CountMonotone(s.attempts, DeliveredFor(k), StartedFor(k));
  }
}
