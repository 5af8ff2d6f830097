/**
 The publication lock of the Buzz adapter, as a machine over single file operations.

 Every adapter process runs the publish sequence of its output loop: reserve the key,
 run the buzz CLI, then commit, mark unknown or release. One FileOp event is one
 exists, exclusive create, stat, rm or rename; between two of them any other process may
 move, and a process may crash anywhere. One attempt is one successful exclusive create.
 An event that is not enabled leaves the state as it is, so every sequence of events is a run.
 */
module PublicationProtocol {
  import opened Counting

  type Key = string
  type Proc = nat

  /** The lock file of a key: which create made it and when it was last written. */
  datatype Lock = NoLock | Lock(attempt: nat, mtime: int)

  /** The three file names of one key. */
  datatype Files = Files(lock: Lock, published: bool, unknown: bool) {
    predicate Closed() { published || unknown }
  }

  /** The buzz CLI run of one attempt, as it really went. Barred: never started, or refused. */
  datatype Cli = Unused | Running | Barred | Delivered

  datatype Attempt = Attempt(key: Key, holder: Proc, createdAt: int, cli: Cli, released: bool)

  /** Where a process stands; each constructor names the operation it does next. */
  datatype Pc =
    | Idle
    | Crashed
    | CheckPublished(key: Key)
    | CheckUnknown(key: Key)
    | CreateLock(key: Key)
    | WriteLock(key: Key, attempt: nat)
    | RecheckPublished(key: Key)
    | RecheckUnknown(key: Key)
    | StatLock(key: Key)
    | RemoveStale(key: Key, seen: nat)
    | Reserved(key: Key, attempt: nat)
    | Publishing(key: Key, attempt: nat)
    | Committing(key: Key, attempt: nat)
    | MarkingUnknown(key: Key, attempt: nat)
    | Releasing(key: Key, attempt: nat)
  {
    predicate Holding() {
      WriteLock? || Reserved? || Publishing? || Committing? || MarkingUnknown? || Releasing?
    }
  }

  /** What the publisher told its caller. */
  datatype Report = ReportDelivered | ReportNotDelivered | ReportUnknown

  /** How the publish sequence of a turn ended: the success was passed on, or an error replaced it. */
  datatype Verdict = Passed | Failed

  datatype Answer = Answer(proc: Proc, key: Key, verdict: Verdict)

  datatype Event =
    | Tick(ms: nat)
    | Start(proc: Proc, key: Key)
    | FileOp(proc: Proc)
    | Spawn(proc: Proc)
    | CliDelivers(attempt: nat)
    | CliFails(attempt: nat)
    | Settle(proc: Proc, report: Report)
    | Crash(proc: Proc)

  /** `staleRemovals` and `lateCreates` count, per key, the two races the file protocol leaves open. */
  datatype State = State(
    now: int,
    timeout: nat,
    disk: map<Key, Files>,
    procs: map<Proc, Pc>,
    attempts: seq<Attempt>,
    answers: seq<Answer>,
    staleRemovals: map<Key, nat>,
    lateCreates: map<Key, nat>)
  {
    function FilesOf(k: Key): Files { if k in disk then disk[k] else Files(NoLock, false, false) }
    function PcOf(p: Proc): Pc { if p in procs then procs[p] else Idle }
    function StaleRemovals(k: Key): nat { if k in staleRemovals then staleRemovals[k] else 0 }
    function LateCreates(k: Key): nat { if k in lateCreates then lateCreates[k] else 0 }

    function Goto(p: Proc, pc: Pc): State { this.(procs := procs[p := pc]) }
    function WithFiles(k: Key, f: Files): State { this.(disk := disk[k := f]) }
    function Finish(p: Proc, k: Key, v: Verdict): State {
      this.(procs := procs[p := Idle], answers := answers + [Answer(p, k, v)])
    }
    function WithAttempt(a: nat, x: Attempt): State
      requires a < |attempts|
    {
      this.(attempts := attempts[a := x])
    }
  }

  function Init(timeout: nat): State {
    State(0, timeout, map[], map[], [], [], map[], map[])
  }

  /** Line 34 succeeds: the exclusive create makes the lock and a new attempt. */
  function Create(s: State, p: Proc, k: Key): State {
    var f := s.FilesOf(k);
    s.WithFiles(k, f.(lock := Lock(|s.attempts|, s.now)))
     .Goto(p, WriteLock(k, |s.attempts|))
     .(attempts := s.attempts + [Attempt(k, p, s.now, Unused, false)],
       lateCreates := if f.Closed() then s.lateCreates[k := s.LateCreates(k) + 1] else s.lateCreates)
  }

  /** Line 35 writes through the open handle, so it touches the path only while the path is this file. */
  function Write(s: State, p: Proc, k: Key, a: nat): State {
    var f := s.FilesOf(k);
    var t := if f.lock.Lock? && f.lock.attempt == a then s.WithFiles(k, f.(lock := Lock(a, s.now))) else s;
    t.Goto(p, Reserved(k, a))
  }

  /** Line 53: rm with force removes whatever lock is there now. */
  function Remove(s: State, p: Proc, k: Key): State {
    var f := s.FilesOf(k);
    var t := if f.lock.Lock?
             then s.WithFiles(k, f.(lock := NoLock)).(staleRemovals := s.staleRemovals[k := s.StaleRemovals(k) + 1])
             else s;
    t.Goto(p, CheckPublished(k))
  }

  /** Lines 58-63: rename the lock onto a marker; a missing lock makes rename throw. */
  function Rename(s: State, p: Proc, k: Key, marked: Files, v: Verdict): State {
    if s.FilesOf(k).lock.Lock? then s.WithFiles(k, marked).Finish(p, k, v) else s.Finish(p, k, Failed)
  }

  /** Lines 64-66 and the rethrow of proxy.ts:205-206. */
  function Release(s: State, p: Proc, k: Key, a: nat): State {
    var t := s.WithFiles(k, s.FilesOf(k).(lock := NoLock)).Finish(p, k, Failed);
    if a < |t.attempts| then t.WithAttempt(a, t.attempts[a].(released := true)) else t
  }

  /** The next file operation of process p. */
  function DoFileOp(s: State, p: Proc): State {
    match s.PcOf(p)
    case CheckPublished(k) => if s.FilesOf(k).published then s.Finish(p, k, Passed) else s.Goto(p, CheckUnknown(k))
    case CheckUnknown(k) => if s.FilesOf(k).unknown then s.Finish(p, k, Failed) else s.Goto(p, CreateLock(k))
    case CreateLock(k) => if s.FilesOf(k).lock.NoLock? then Create(s, p, k) else s.Goto(p, RecheckPublished(k))
    case WriteLock(k, a) => Write(s, p, k, a)
    case RecheckPublished(k) => if s.FilesOf(k).published then s.Finish(p, k, Passed) else s.Goto(p, RecheckUnknown(k))
    case RecheckUnknown(k) => if s.FilesOf(k).unknown then s.Finish(p, k, Failed) else s.Goto(p, StatLock(k))
    case StatLock(k) => (
      match s.FilesOf(k).lock
      case NoLock => s.Goto(p, CheckPublished(k))
      case Lock(a, mtime) =>
        if s.now - mtime < 2 * s.timeout then s.Finish(p, k, Failed) else s.Goto(p, RemoveStale(k, a))
    )
    case RemoveStale(k, _) => Remove(s, p, k)
    case Committing(k, _) => Rename(s, p, k, s.FilesOf(k).(lock := NoLock, published := true), Passed)
    case MarkingUnknown(k, _) => Rename(s, p, k, s.FilesOf(k).(lock := NoLock, unknown := true), Failed)
    case Releasing(k, a) => Release(s, p, k, a)
    case _ => s
  }

  /**
   The publisher settles. It says delivered only if the CLI delivered, not delivered only if it
   never started or refused, and may say unknown at any time.
   */
  function DoSettle(s: State, p: Proc, report: Report): State {
    match s.PcOf(p)
    case Publishing(k, a) =>
      if a >= |s.attempts| then s
      else (
        match report
        case ReportDelivered => if s.attempts[a].cli == Delivered then s.Goto(p, Committing(k, a)) else s
        case ReportNotDelivered => if s.attempts[a].cli == Barred then s.Goto(p, Releasing(k, a)) else s
        case ReportUnknown => s.Goto(p, MarkingUnknown(k, a))
      )
    case _ => s
  }

  function Apply(s: State, e: Event): State {
    match e
    case Tick(ms) => s.(now := s.now + ms)
    case Start(p, k) => if s.PcOf(p) == Idle then s.Goto(p, CheckPublished(k)) else s
    case FileOp(p) => DoFileOp(s, p)
    case Spawn(p) => (
      match s.PcOf(p)
      case Reserved(k, a) =>
        if a < |s.attempts| then s.WithAttempt(a, s.attempts[a].(cli := Running)).Goto(p, Publishing(k, a)) else s
      case _ => s
    )
    case CliDelivers(a) =>
      if a < |s.attempts| && s.attempts[a].cli == Running then s.WithAttempt(a, s.attempts[a].(cli := Delivered)) else s
    case CliFails(a) =>
      if a < |s.attempts| && s.attempts[a].cli == Running then s.WithAttempt(a, s.attempts[a].(cli := Barred)) else s
    case Settle(p, report) => DoSettle(s, p, report)
    case Crash(p) => s.Goto(p, Crashed)
  }

  function Exec(s: State, events: seq<Event>): State {
    if events == [] then s else Apply(Exec(s, events[..|events| - 1]), events[|events| - 1])
  }

  lemma ExecSnoc(s: State, es: seq<Event>, e: Event)
    ensures Exec(s, es + [e]) == Apply(Exec(s, es), e)
  {
    assert (es + [e])[..|es + [e]| - 1] == es;
  }

  lemma {:induction false} ExecConcat(s: State, es: seq<Event>, fs: seq<Event>)
    ensures Exec(s, es + fs) == Exec(Exec(s, es), fs)
  {
    if fs == [] {
      assert es + fs == es;
    } else {
      var n := |fs| - 1;
      assert (es + fs)[..|es + fs| - 1] == es + fs[..n];
      ExecConcat(s, es, fs[..n]);
    }
  }

  // ---------------------------------------------------------------- deliveries

  function DeliveredFor(k: Key): Attempt -> bool { (a: Attempt) => a.key == k && a.cli == Delivered }
  function UnreleasedFor(k: Key): Attempt -> bool { (a: Attempt) => a.key == k && !a.released }

  /** Messages really posted for key k. */
  function Deliveries(s: State, k: Key): nat { Count(s.attempts, DeliveredFor(k)) }

  /** Attempts for k that are held, may still deliver, or delivered: everything but the released ones. */
  function Unreleased(s: State, k: Key): nat { Count(s.attempts, UnreleasedFor(k)) }

  // ---------------------------------------------------------------- the inductive invariant

  predicate PcOk(s: State, p: Proc) {
    var pc := s.PcOf(p);
    && (pc.Holding() ==>
          && pc.attempt < |s.attempts|
          && s.attempts[pc.attempt].holder == p
          && s.attempts[pc.attempt].key == pc.key
          && !s.attempts[pc.attempt].released)
    && (pc.WriteLock? || pc.Reserved? ==> s.attempts[pc.attempt].cli == Unused)
    && (pc.Committing? ==> s.attempts[pc.attempt].cli == Delivered)
    && (pc.Releasing? ==> s.attempts[pc.attempt].cli == Barred)
  }

  ghost predicate Structure(s: State) {
    && (forall p: Proc :: PcOk(s, p))
    && (forall a :: 0 <= a < |s.attempts| && s.attempts[a].released ==> s.attempts[a].cli == Barred)
    && (forall i :: 0 <= i < |s.answers| && s.answers[i].verdict == Passed ==> s.FilesOf(s.answers[i].key).published)
  }

  /** The sum invariant: a lock or a marker stands for one unreleased attempt, each race for one more. */
  predicate Balanced(s: State, k: Key) {
    var f := s.FilesOf(k);
    Unreleased(s, k) <= s.StaleRemovals(k) + s.LateCreates(k) + (if f.lock.Lock? || f.Closed() then 1 else 0)
  }

  lemma GotoKeepsStructure(s: State, p: Proc, pc: Pc)
    requires Structure(s) && PcOk(s.Goto(p, pc), p)
    ensures Structure(s.Goto(p, pc))
  {
    forall q: Proc ensures PcOk(s.Goto(p, pc), q) {
      assert PcOk(s, q);
    }
  }

  /** A process that holds no lock has nothing to prove. */
  lemma RestKeepsStructure(s: State, p: Proc, pc: Pc)
    requires Structure(s) && !pc.Holding()
    ensures Structure(s.Goto(p, pc))
  {
    GotoKeepsStructure(s, p, pc);
  }

  lemma FinishKeepsStructure(s: State, p: Proc, k: Key, v: Verdict)
    requires Structure(s) && (v == Passed ==> s.FilesOf(k).published)
    ensures Structure(s.Finish(p, k, v))
  {
    forall q: Proc ensures PcOk(s.Finish(p, k, v), q) {
      assert PcOk(s, q);
    }
  }

  lemma FilesKeepStructure(s: State, k: Key, f: Files)
    requires Structure(s) && (s.FilesOf(k).published ==> f.published)
    ensures Structure(s.WithFiles(k, f))
  {
    forall q: Proc ensures PcOk(s.WithFiles(k, f), q) {
      assert PcOk(s, q);
    }
  }

  /** Changing an attempt is safe when no process other than p holds it and p's own demands still hold. */
  lemma AttemptKeepsStructure(s: State, p: Proc, a: nat, x: Attempt)
    requires Structure(s) && a < |s.attempts|
    requires s.attempts[a].holder == p == x.holder
    requires PcOk(s.WithAttempt(a, x), p)
    requires x.released ==> x.cli == Barred
    ensures Structure(s.WithAttempt(a, x))
  {
    forall q: Proc ensures PcOk(s.WithAttempt(a, x), q) {
      assert PcOk(s, q);
    }
  }

  lemma CreateKeepsStructure(s: State, p: Proc, k: Key)
    requires Structure(s)
    ensures Structure(Create(s, p, k))
  {
    forall q: Proc ensures PcOk(Create(s, p, k), q) {
      assert PcOk(s, q);
    }
  }

  lemma RenameKeepsStructure(s: State, p: Proc, k: Key, marked: Files, v: Verdict)
    requires Structure(s)
    requires s.FilesOf(k).published || v == Passed ==> marked.published
    ensures Structure(Rename(s, p, k, marked, v))
  {
    if s.FilesOf(k).lock.Lock? {
      FilesKeepStructure(s, k, marked);
      FinishKeepsStructure(s.WithFiles(k, marked), p, k, v);
    } else {
      FinishKeepsStructure(s, p, k, Failed);
    }
  }

  lemma ReleaseKeepsStructure(s: State, p: Proc, k: Key, a: nat)
    requires Structure(s) && s.PcOf(p) == Releasing(k, a)
    ensures Structure(Release(s, p, k, a))
  {
    assert PcOk(s, p);
    var f := s.FilesOf(k).(lock := NoLock);
    FilesKeepStructure(s, k, f);
    var t := s.WithFiles(k, f);
    FinishKeepsStructure(t, p, k, Failed);
    var u := t.Finish(p, k, Failed);
    AttemptKeepsStructure(u, p, a, u.attempts[a].(released := true));
  }

  lemma WriteKeepsStructure(s: State, p: Proc, k: Key, a: nat)
    requires Structure(s) && s.PcOf(p) == WriteLock(k, a)
    ensures Structure(Write(s, p, k, a))
  {
    assert PcOk(s, p);
    var f := s.FilesOf(k);
    var t := if f.lock.Lock? && f.lock.attempt == a then s.WithFiles(k, f.(lock := Lock(a, s.now))) else s;
    if t != s {
      FilesKeepStructure(s, k, f.(lock := Lock(a, s.now)));
    }
    GotoKeepsStructure(t, p, Reserved(k, a));
  }

  lemma RemoveKeepsStructure(s: State, p: Proc, k: Key)
    requires Structure(s)
    ensures Structure(Remove(s, p, k))
  {
    forall q: Proc ensures PcOk(Remove(s, p, k), q) {
      assert PcOk(s, q);
    }
  }

  lemma FileOpKeepsStructure(s: State, p: Proc)
    requires Structure(s)
    ensures Structure(DoFileOp(s, p))
  {
    hide Structure, PcOk, Create, Write, Remove, Rename, Release;
    match s.PcOf(p)
    case CheckPublished(k) =>
      if s.FilesOf(k).published {
        FinishKeepsStructure(s, p, k, Passed);
      } else {
        RestKeepsStructure(s, p, CheckUnknown(k));
      }
    case CheckUnknown(k) =>
      if s.FilesOf(k).unknown {
        FinishKeepsStructure(s, p, k, Failed);
      } else {
        RestKeepsStructure(s, p, CreateLock(k));
      }
    case CreateLock(k) =>
      if s.FilesOf(k).lock.NoLock? {
        CreateKeepsStructure(s, p, k);
      } else {
        RestKeepsStructure(s, p, RecheckPublished(k));
      }
    case WriteLock(k, a) => WriteKeepsStructure(s, p, k, a);
    case RecheckPublished(k) =>
      if s.FilesOf(k).published {
        FinishKeepsStructure(s, p, k, Passed);
      } else {
        RestKeepsStructure(s, p, RecheckUnknown(k));
      }
    case RecheckUnknown(k) =>
      if s.FilesOf(k).unknown { FinishKeepsStructure(s, p, k, Failed); } else { RestKeepsStructure(s, p, StatLock(k)); }
    case StatLock(k) =>
      match s.FilesOf(k).lock {
        case NoLock => RestKeepsStructure(s, p, CheckPublished(k));
        case Lock(a, mtime) =>
          if s.now - mtime < 2 * s.timeout {
            FinishKeepsStructure(s, p, k, Failed);
          } else {
            RestKeepsStructure(s, p, RemoveStale(k, a));
          }
      }
    case RemoveStale(k, _) => RemoveKeepsStructure(s, p, k);
    case Committing(k, _) =>
      RenameKeepsStructure(s, p, k, s.FilesOf(k).(lock := NoLock, published := true), Passed);
    case MarkingUnknown(k, _) =>
      RenameKeepsStructure(s, p, k, s.FilesOf(k).(lock := NoLock, unknown := true), Failed);
    case Releasing(k, a) => ReleaseKeepsStructure(s, p, k, a);
    case _ =>
  }

  lemma SettleKeepsStructure(s: State, p: Proc, report: Report)
    requires Structure(s)
    ensures Structure(DoSettle(s, p, report))
  {
    assert PcOk(s, p);
    if s.PcOf(p).Publishing? && DoSettle(s, p, report) != s {
      GotoKeepsStructure(s, p, DoSettle(s, p, report).PcOf(p));
    }
  }

  lemma SpawnKeepsStructure(s: State, p: Proc)
    requires Structure(s)
    ensures Structure(Apply(s, Spawn(p)))
  {
    assert PcOk(s, p);
    if s.PcOf(p).Reserved? {
      var pc := Publishing(s.PcOf(p).key, s.PcOf(p).attempt);
      var x := s.attempts[pc.attempt].(cli := Running);
      GotoKeepsStructure(s, p, pc);
      AttemptKeepsStructure(s.Goto(p, pc), p, pc.attempt, x);
      assert Apply(s, Spawn(p)) == s.Goto(p, pc).WithAttempt(pc.attempt, x);
    }
  }

  lemma CliKeepsStructure(s: State, a: nat, cli: Cli)
    requires Structure(s) && a < |s.attempts| && s.attempts[a].cli == Running && (cli == Delivered || cli == Barred)
    ensures Structure(s.WithAttempt(a, s.attempts[a].(cli := cli)))
  {
    assert PcOk(s, s.attempts[a].holder);
    AttemptKeepsStructure(s, s.attempts[a].holder, a, s.attempts[a].(cli := cli));
  }

  lemma TickKeepsStructure(s: State, ms: nat)
    requires Structure(s)
    ensures Structure(Apply(s, Tick(ms)))
  {
    forall q: Proc ensures PcOk(Apply(s, Tick(ms)), q) {
      assert PcOk(s, q);
    }
  }

  lemma StepKeepsStructure(s: State, e: Event)
    requires Structure(s)
    ensures Structure(Apply(s, e))
  {
    hide DoFileOp, DoSettle, Structure;
    match e
    case Tick(ms) => TickKeepsStructure(s, ms);
    case Start(p, k) => RestKeepsStructure(s, p, CheckPublished(k));
    case FileOp(p) => FileOpKeepsStructure(s, p);
    case Spawn(p) => SpawnKeepsStructure(s, p);
    case CliDelivers(a) =>
      if a < |s.attempts| && s.attempts[a].cli == Running { CliKeepsStructure(s, a, Delivered); }
    case CliFails(a) =>
      if a < |s.attempts| && s.attempts[a].cli == Running { CliKeepsStructure(s, a, Barred); }
    case Settle(p, report) => SettleKeepsStructure(s, p, report);
    case Crash(p) => RestKeepsStructure(s, p, Crashed);
  }

  /** Attempts and counters stay, and where there was a lock or a marker of k there still is one. */
  predicate Quiet(s: State, t: State, k: Key) {
    && t.attempts == s.attempts && t.staleRemovals == s.staleRemovals && t.lateCreates == s.lateCreates
    && (s.FilesOf(k).lock.Lock? || s.FilesOf(k).Closed() ==> t.FilesOf(k).lock.Lock? || t.FilesOf(k).Closed())
  }

  lemma QuietKeepsBalance(s: State, t: State, k: Key)
    requires Balanced(s, k) && Quiet(s, t, k)
    ensures Balanced(t, k)
  {
  }

  lemma CreateKeepsBalance(s: State, p: Proc, k': Key, k: Key)
    requires Balanced(s, k) && s.FilesOf(k').lock.NoLock?
    ensures Balanced(Create(s, p, k'), k)
  {
    CountAppend(s.attempts, Attempt(k', p, s.now, Unused, false), UnreleasedFor(k));
  }

  lemma RemoveKeepsBalance(s: State, p: Proc, k': Key, k: Key)
    requires Balanced(s, k)
    ensures Balanced(Remove(s, p, k'), k)
  {
  }

  lemma ReleaseKeepsBalance(s: State, p: Proc, k': Key, a: nat, k: Key)
    requires Balanced(s, k)
    requires a < |s.attempts| && s.attempts[a].key == k' && !s.attempts[a].released
    ensures Balanced(Release(s, p, k', a), k)
  {
    CountUpdate(s.attempts, a, s.attempts[a].(released := true), UnreleasedFor(k));
  }

  lemma RenameIsQuiet(s: State, p: Proc, k': Key, marked: Files, v: Verdict, k: Key)
    requires marked.Closed()
    ensures Quiet(s, Rename(s, p, k', marked, v), k)
  {
  }

  lemma WriteIsQuiet(s: State, p: Proc, k': Key, a: nat, k: Key)
    ensures Quiet(s, Write(s, p, k', a), k)
  {
  }

  /** Only a create, a removal and a release are not quiet. */
  lemma FileOpIsQuiet(s: State, p: Proc, k: Key)
    requires var pc := s.PcOf(p);
             !pc.RemoveStale? && !pc.Releasing? && (pc.CreateLock? ==> s.FilesOf(pc.key).lock.Lock?)
    ensures Quiet(s, DoFileOp(s, p), k)
  {
    hide Create, Remove, Release, Rename, Write;
    match s.PcOf(p)
    case WriteLock(k', a) => WriteIsQuiet(s, p, k', a, k);
    case Committing(k', _) => RenameIsQuiet(s, p, k', s.FilesOf(k').(lock := NoLock, published := true), Passed, k);
    case MarkingUnknown(k', _) => RenameIsQuiet(s, p, k', s.FilesOf(k').(lock := NoLock, unknown := true), Failed, k);
    case _ =>
  }

  lemma FileOpKeepsBalance(s: State, p: Proc, k: Key)
    requires Structure(s) && Balanced(s, k)
    ensures Balanced(DoFileOp(s, p), k)
  {
    hide Balanced, Create, Remove, Release, Rename, Write;
    assert PcOk(s, p);
    var pc := s.PcOf(p);
    if pc.CreateLock? && s.FilesOf(pc.key).lock.NoLock? {
      CreateKeepsBalance(s, p, pc.key, k);
    } else if pc.RemoveStale? {
      RemoveKeepsBalance(s, p, pc.key, k);
    } else if pc.Releasing? {
      ReleaseKeepsBalance(s, p, pc.key, pc.attempt, k);
    } else {
      FileOpIsQuiet(s, p, k);
      QuietKeepsBalance(s, DoFileOp(s, p), k);
    }
  }

  lemma StepKeepsBalance(s: State, e: Event, k: Key)
    requires Structure(s) && Balanced(s, k)
    ensures Balanced(Apply(s, e), k)
  {
    hide DoFileOp, Structure;
    match e
    case FileOp(p) => FileOpKeepsBalance(s, p, k);
    case Spawn(p) =>
      if s.PcOf(p).Reserved? && s.PcOf(p).attempt < |s.attempts| {
        var a := s.PcOf(p).attempt;
        CountUpdate(s.attempts, a, s.attempts[a].(cli := Running), UnreleasedFor(k));
      }
    case CliDelivers(a) =>
      if a < |s.attempts| { CountUpdate(s.attempts, a, s.attempts[a].(cli := Delivered), UnreleasedFor(k)); }
    case CliFails(a) =>
      if a < |s.attempts| { CountUpdate(s.attempts, a, s.attempts[a].(cli := Barred), UnreleasedFor(k)); }
    case _ =>
  }

  lemma {:induction false} RunKeepsInvariant(timeout: nat, es: seq<Event>, k: Key)
    ensures Structure(Exec(Init(timeout), es)) && Balanced(Exec(Init(timeout), es), k)
  {
    if es != [] {
      var n := |es| - 1;
      RunKeepsInvariant(timeout, es[..n], k);
      StepKeepsStructure(Exec(Init(timeout), es[..n]), es[n]);
      StepKeepsBalance(Exec(Init(timeout), es[..n]), es[n], k);
    }
  }

  // ---------------------------------------------------------------- main theorems

  /**
   Whatever any number of processes do, in any interleaving and with crashes anywhere, the
   messages really posted for a key exceed one only by the stale locks removed and by the
   creates that came after a marker already existed.
   */
  lemma DeliveriesBounded(timeout: nat, es: seq<Event>, k: Key)
    ensures var s := Exec(Init(timeout), es);
            Deliveries(s, k) <= 1 + s.StaleRemovals(k) + s.LateCreates(k)
  {
    var s := Exec(Init(timeout), es);
    RunKeepsInvariant(timeout, es, k);
    CountMonotone(s.attempts, DeliveredFor(k), UnreleasedFor(k));
  }

  /** No marker of k disappears and no answer is taken back between s and t. */
  predicate KeepsMarkers(s: State, t: State, k: Key) {
    && (s.FilesOf(k).published ==> t.FilesOf(k).published)
    && (s.FilesOf(k).unknown ==> t.FilesOf(k).unknown)
    && s.answers <= t.answers
  }

  lemma RenameKeepsMarkers(s: State, p: Proc, k': Key, marked: Files, v: Verdict, k: Key)
    requires s.FilesOf(k').published ==> marked.published
    requires s.FilesOf(k').unknown ==> marked.unknown
    ensures KeepsMarkers(s, Rename(s, p, k', marked, v), k)
  {
  }

  lemma LockOpsKeepMarkers(s: State, p: Proc, k': Key, a: nat, k: Key)
    ensures KeepsMarkers(s, Create(s, p, k'), k)
    ensures KeepsMarkers(s, Write(s, p, k', a), k)
    ensures KeepsMarkers(s, Remove(s, p, k'), k)
    ensures KeepsMarkers(s, Release(s, p, k', a), k)
  {
  }

  lemma FileOpKeepsMarkers(s: State, p: Proc, k: Key)
    ensures KeepsMarkers(s, DoFileOp(s, p), k)
  {
    hide Create, Write, Remove, Rename, Release;
    match s.PcOf(p)
    case CreateLock(k') => LockOpsKeepMarkers(s, p, k', 0, k);
    case WriteLock(k', a) => LockOpsKeepMarkers(s, p, k', a, k);
    case RemoveStale(k', _) => LockOpsKeepMarkers(s, p, k', 0, k);
    case Releasing(k', a) => LockOpsKeepMarkers(s, p, k', a, k);
    case Committing(k', _) =>
      RenameKeepsMarkers(s, p, k', s.FilesOf(k').(lock := NoLock, published := true), Passed, k);
    case MarkingUnknown(k', _) =>
      RenameKeepsMarkers(s, p, k', s.FilesOf(k').(lock := NoLock, unknown := true), Failed, k);
    case _ =>
  }

  lemma StepKeepsMarkers(s: State, e: Event, k: Key)
    ensures KeepsMarkers(s, Apply(s, e), k)
  {
    hide DoFileOp;
    match e
    case FileOp(p) => FileOpKeepsMarkers(s, p, k);
    case _ =>
  }

  lemma {:induction false} MarkersStay(s: State, es: seq<Event>, k: Key)
    ensures KeepsMarkers(s, Exec(s, es), k)
  {
    if es != [] {
      MarkersStay(s, es[..|es| - 1], k);
      StepKeepsMarkers(Exec(s, es[..|es| - 1]), es[|es| - 1], k);
    }
  }

  /**
   A success is passed on only for a key whose published marker exists, and the marker is there
   in every later state too.
   */
  lemma PassedMeansPublished(timeout: nat, es: seq<Event>, later: seq<Event>, i: nat)
    requires i < |Exec(Init(timeout), es).answers|
    requires Exec(Init(timeout), es).answers[i].verdict == Passed
    ensures Exec(Init(timeout), es + later).FilesOf(Exec(Init(timeout), es).answers[i].key).published
  {
    var s := Exec(Init(timeout), es);
    RunKeepsInvariant(timeout, es, s.answers[i].key);
    MarkersStay(s, later, s.answers[i].key);
    ExecConcat(Init(timeout), es, later);
  }

  // ------------------------------------------------------------ a published key was posted

  lemma CreateKeepsPosts(s: State, p: Proc, k': Key, k: Key)
    ensures Deliveries(Create(s, p, k'), k) == Deliveries(s, k)
  {
    CountAppend(s.attempts, Attempt(k', p, s.now, Unused, false), DeliveredFor(k));
  }

  lemma ReleaseKeepsPosts(s: State, p: Proc, k': Key, a: nat, k: Key)
    ensures Deliveries(Release(s, p, k', a), k) == Deliveries(s, k)
  {
    if a < |s.attempts| { CountUpdate(s.attempts, a, s.attempts[a].(released := true), DeliveredFor(k)); }
  }

  lemma FileOpKeepsPosts(s: State, p: Proc, k: Key)
    ensures Deliveries(DoFileOp(s, p), k) == Deliveries(s, k)
  {
    hide Create, Release;
    match s.PcOf(p)
    case CreateLock(k') => CreateKeepsPosts(s, p, k', k);
    case Releasing(k', a) => ReleaseKeepsPosts(s, p, k', a, k);
    case _ =>
  }

  /** No step takes a post back. */
  lemma StepKeepsPosts(s: State, e: Event, k: Key)
    requires Structure(s)
    ensures Deliveries(Apply(s, e), k) >= Deliveries(s, k)
  {
    hide DoFileOp, Structure;
    match e
    case FileOp(p) => FileOpKeepsPosts(s, p, k);
    case Spawn(p) => SpawnKeepsPosts(s, p, k);
    case CliDelivers(a) =>
      if a < |s.attempts| { CountUpdate(s.attempts, a, s.attempts[a].(cli := Delivered), DeliveredFor(k)); }
    case CliFails(a) =>
      if a < |s.attempts| { CountUpdate(s.attempts, a, s.attempts[a].(cli := Barred), DeliveredFor(k)); }
    case _ =>
  }

  lemma SpawnKeepsPosts(s: State, p: Proc, k: Key)
    requires Structure(s)
    ensures Deliveries(Apply(s, Spawn(p)), k) == Deliveries(s, k)
  {
    assert PcOk(s, p);
    if s.PcOf(p).Reserved? {
      var a := s.PcOf(p).attempt;
      CountUpdate(s.attempts, a, s.attempts[a].(cli := Running), DeliveredFor(k));
    }
  }

  lemma OnlyFileOpsTouchFiles(s: State, e: Event, k: Key)
    requires Apply(s, e).FilesOf(k) != s.FilesOf(k)
    ensures e.FileOp? && Apply(s, e) == DoFileOp(s, e.proc)
  {
    hide DoFileOp;
  }

  /** Only the commit of an attempt for k that posted publishes k. */
  lemma PublishingStep(s: State, e: Event, k: Key)
    requires Structure(s) && Apply(s, e).FilesOf(k).published && !s.FilesOf(k).published
    ensures exists a :: 0 <= a < |s.attempts| && DeliveredFor(k)(s.attempts[a])
  {
    hide Apply, DoFileOp;
    OnlyFileOpsTouchFiles(s, e, k);
    CommitPublishes(s, e.proc, k);
    assert PcOk(s, e.proc);
    assert DeliveredFor(k)(s.attempts[s.PcOf(e.proc).attempt]);
  }

  lemma CommitPublishes(s: State, p: Proc, k: Key)
    requires DoFileOp(s, p).FilesOf(k).published && !s.FilesOf(k).published
    ensures s.PcOf(p).Committing? && s.PcOf(p).key == k
  {
    match s.PcOf(p)
    case MarkingUnknown(_, _) =>
    case Releasing(_, _) =>
    case CreateLock(_) =>
    case WriteLock(_, _) =>
    case RemoveStale(_, _) =>
    case _ =>
  }

  /** A published key was really posted, at least once. */
  lemma {:induction false} PublishedMeansDelivered(timeout: nat, es: seq<Event>, k: Key)
    requires Exec(Init(timeout), es).FilesOf(k).published
    ensures Deliveries(Exec(Init(timeout), es), k) >= 1
  {
    hide Apply, Structure;
    if es != [] {
      var n := |es| - 1;
      var s := Exec(Init(timeout), es[..n]);
      RunKeepsInvariant(timeout, es[..n], k);
      StepKeepsPosts(s, es[n], k);
      if s.FilesOf(k).published {
        PublishedMeansDelivered(timeout, es[..n], k);
      } else {
        PublishingStep(s, es[n], k);
        var a :| 0 <= a < |s.attempts| && DeliveredFor(k)(s.attempts[a]);
        CountPositive(s.attempts, a, DeliveredFor(k));
      }
    }
  }
}
