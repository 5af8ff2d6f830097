/**
 The publication directory as an object with its files, seen by one adapter process, and
 reservePublication, commit, markUnknown and release written out over it as the source does: one file
 operation at a time, the other processes operating on the same files at every await, starting over
 when the lock is gone or stale. The state of the lock protocol is ghost: it is proved to agree with
 the files after every operation, so every theorem about that machine is about this code.
 */
module PublicationDirectory {
  import opened PublicationProtocol

  datatype Reservation = Held(attempt: nat) | AlreadyPublished | AlreadyUnknown | InProgress | Interrupted

  /** Events that are no moves of process p. */
  predicate NotBy(p: Proc, e: Event) {
    match e
    case Tick(_) => true
    case CliDelivers(_) => true
    case CliFails(_) => true
    case _ => e.proc != p
  }

  /** What process p does itself while it reserves. */
  predicate ReservingMove(p: Proc, e: Event) { NotBy(p, e) || (e.FileOp? && e.proc == p) || (e.Start? && e.proc == p) }

  predicate Others(p: Proc, es: seq<Event>) { forall i :: 0 <= i < |es| ==> NotBy(p, es[i]) }

  /** From trace a to trace b, process p did nothing but reserve. */
  predicate Woven(p: Proc, a: seq<Event>, b: seq<Event>) {
    a <= b && forall i :: |a| <= i < |b| ==> ReservingMove(p, b[i])
  }

  lemma WeaveOn(p: Proc, a: seq<Event>, b: seq<Event>, more: seq<Event>)
    requires Woven(p, a, b) && forall i :: 0 <= i < |more| ==> ReservingMove(p, more[i])
    ensures Woven(p, a, b + more)
  {
  }

  /** Process p takes one file operation, after which the files of key are `files` and p stands at `next`. */
  ghost predicate Touches(s: State, p: Proc, key: Key, files: Files, next: Pc) {
    var t := Apply(s, FileOp(p));
    && (forall k: Key :: t.FilesOf(k) == if k == key then files else s.FilesOf(k))
    && t.now == s.now && t.timeout == s.timeout
    && (forall q: Proc :: q != p ==> t.PcOf(q) == s.PcOf(q)) && t.PcOf(p) == next
  }

  predicate SameRuns(s: State, t: State) {
    |t.attempts| == |s.attempts| && forall a :: 0 <= a < |s.attempts| ==> t.attempts[a].cli == s.attempts[a].cli
  }

  lemma CreateTouches(s: State, p: Proc, key: Key)
    requires s.PcOf(p) == CreateLock(key)
    ensures Apply(s, FileOp(p)).answers == s.answers
    ensures var t := Apply(s, FileOp(p));
            if s.FilesOf(key).lock.NoLock?
            then && Touches(s, p, key, s.FilesOf(key).(lock := Lock(|s.attempts|, s.now)), WriteLock(key, |s.attempts|))
                 && t.attempts == s.attempts + [Attempt(key, p, s.now, Unused, false)]
            else Touches(s, p, key, s.FilesOf(key), RecheckPublished(key)) && t.attempts == s.attempts
  {
    hide Write, Remove, Rename, Release;
  }

  lemma WriteTouches(s: State, p: Proc, key: Key, a: nat)
    requires s.PcOf(p) == WriteLock(key, a)
    ensures var f := s.FilesOf(key);
            var written := if f.lock.Lock? && f.lock.attempt == a then f.(lock := Lock(a, s.now)) else f;
            && Touches(s, p, key, written, Reserved(key, a))
            && Apply(s, FileOp(p)).attempts == s.attempts && Apply(s, FileOp(p)).answers == s.answers
  {
    hide Create, Remove, Rename, Release;
  }

  lemma RemoveTouches(s: State, p: Proc, key: Key)
    requires s.PcOf(p).RemoveStale? && s.PcOf(p).key == key
    ensures Touches(s, p, key, s.FilesOf(key).(lock := NoLock), CheckPublished(key))
        && Apply(s, FileOp(p)).attempts == s.attempts && Apply(s, FileOp(p)).answers == s.answers
  {
    hide Create, Write, Rename, Release;
  }

  lemma CommitTouches(s: State, p: Proc, key: Key)
    requires s.PcOf(p).Committing? && s.PcOf(p).key == key
    ensures var f, t, ok := s.FilesOf(key), Apply(s, FileOp(p)), s.FilesOf(key).lock.Lock?;
            && Touches(s, p, key, if ok then f.(lock := NoLock, published := true) else f, Idle)
            && t.attempts == s.attempts && t.answers == s.answers + [Answer(p, key, if ok then Passed else Failed)]
  {
    hide Create, Write, Remove, Release;
  }

  lemma MarkUnknownTouches(s: State, p: Proc, key: Key)
    requires s.PcOf(p).MarkingUnknown? && s.PcOf(p).key == key
    ensures var f, t := s.FilesOf(key), Apply(s, FileOp(p));
            && Touches(s, p, key, if f.lock.Lock? then f.(lock := NoLock, unknown := true) else f, Idle)
            && t.attempts == s.attempts && t.answers == s.answers + [Answer(p, key, Failed)]
  {
    hide Create, Write, Remove, Release;
  }

  lemma ReleaseTouches(s: State, p: Proc, key: Key)
    requires s.PcOf(p).Releasing? && s.PcOf(p).key == key
    ensures var t := Apply(s, FileOp(p));
            && Touches(s, p, key, s.FilesOf(key).(lock := NoLock), Idle)
            && SameRuns(s, t) && t.answers == s.answers + [Answer(p, key, Failed)]
  {
    hide Create, Write, Remove, Rename;
  }

  /** Where a process goes on when its publisher reports on a CLI run that came to `fate`. */
  function AfterReport(pc: Pc, fate: Cli, report: Report): Pc {
    if !pc.Publishing? then pc
    else
      match report
      case ReportUnknown => MarkingUnknown(pc.key, pc.attempt)
      case ReportDelivered => if fate == Delivered then Committing(pc.key, pc.attempt) else pc
      case ReportNotDelivered => if fate == Barred then Releasing(pc.key, pc.attempt) else pc
  }

  lemma SettleMoves(s: State, p: Proc, report: Report)
    ensures var t, pc := Apply(s, Settle(p, report)), s.PcOf(p);
            && t.disk == s.disk && t.attempts == s.attempts && t.now == s.now && t.timeout == s.timeout
            && (forall q: Proc :: q != p ==> t.PcOf(q) == s.PcOf(q))
            && t.PcOf(p) == if pc.Publishing? && pc.attempt < |s.attempts|
                            then AfterReport(pc, s.attempts[pc.attempt].cli, report)
                            else pc
  {
  }

  /** A lock file: which create made it, and when it was last written. */
  datatype LockFile = LockFile(inode: nat, mtime: int)

  class PublicationDirectory {
    const self: Proc
    const timeout: nat

    // the disk, and the clock that dates its files
    var clock: int
    var locks: map<Key, LockFile>
    var published: set<Key>
    var unknown: set<Key>

    // the world around process self: what became of the CLI run of each lock ever created, and where the others stand
    var runs: seq<Cli>
    var peers: map<Proc, Pc>

    ghost var state: State
    ghost var trace: seq<Event>

    function FilesOf(k: Key): Files
      reads `locks, `published, `unknown
    {
      Files(if k in locks then Lock(locks[k].inode, locks[k].mtime) else NoLock, k in published, k in unknown)
    }

    function PeerAt(q: Proc): Pc
      reads `peers
    {
      if q in peers then peers[q] else Idle
    }

    /**
     The protocol's state has the same files, the same clock and the same CLI runs, and the other processes
     stand at the same points, p apart.
     */
    ghost predicate ValidBut(p: Proc)
      reads this
    {
      && state == Exec(Init(timeout), trace)
      && state.now == clock && state.timeout == timeout
      && (forall k: Key :: state.FilesOf(k) == FilesOf(k))
      && |state.attempts| == |runs| && (forall a :: 0 <= a < |runs| ==> state.attempts[a].cli == runs[a])
      && (forall q: Proc :: q != self && q != p ==> state.PcOf(q) == PeerAt(q))
    }

    /** The directory is where some run of the lock protocol led it. */
    ghost predicate Valid()
      reads this
    {
      ValidBut(self)
    }

    constructor (self: Proc, timeout: nat)
      ensures Valid() && trace == [] && this.self == self && this.timeout == timeout
    {
      this.self, this.timeout := self, timeout;
      clock, locks, published, unknown := 0, map[], {}, {};
      runs, peers := [], map[];
      state, trace := Init(timeout), [];
    }

    /** The protocol takes the step that the files have just taken. */
    ghost method Follow(e: Event)
      requires state == Exec(Init(timeout), trace)
      modifies this`state, this`trace
      ensures state == Exec(Init(timeout), trace) && state == Apply(old(state), e) && trace == old(trace) + [e]
    {
      assert (trace + [e])[..|trace + [e]| - 1] == trace;
      state := Apply(state, e);
      trace := trace + [e];
    }

    // ------------------------------------------------------------ file operations, by any process

    /** Since the given state and trace process p took one file operation, and nobody else moved. */
    ghost predicate Moved(p: Proc, before: State, was: seq<Event>)
      reads this
    {
      trace == was + [FileOp(p)] && forall q: Proc :: q != p ==> state.PcOf(q) == before.PcOf(q)
    }

    /** Lines 30, 41: does the published marker exist? */
    method LookForPublished(p: Proc, key: Key) returns (found: bool)
      requires ValidBut(p) && (state.PcOf(p) == CheckPublished(key) || state.PcOf(p) == RecheckPublished(key))
      modifies this`state, this`trace
      ensures ValidBut(p) && Moved(p, old(state), old(trace)) && found == (key in published)
      ensures state.answers == old(state.answers) + (if found then [Answer(p, key, Passed)] else [])
      ensures state.PcOf(p) == if found then Idle
                               else if old(state.PcOf(p)).CheckPublished? then CheckUnknown(key)
                               else RecheckUnknown(key)
    {
      hide Create, Write, Remove, Rename, Release;
      assert FilesOf(key).published == state.FilesOf(key).published;
      found := key in published;
      Follow(FileOp(p));
    }

    /** Lines 31, 42: does the unknown marker exist? */
    method LookForUnknown(p: Proc, key: Key) returns (found: bool)
      requires ValidBut(p) && (state.PcOf(p) == CheckUnknown(key) || state.PcOf(p) == RecheckUnknown(key))
      modifies this`state, this`trace
      ensures ValidBut(p) && Moved(p, old(state), old(trace)) && found == (key in unknown)
      ensures state.answers == old(state.answers) + (if found then [Answer(p, key, Failed)] else [])
      ensures state.PcOf(p) == if found then Idle
                               else if old(state.PcOf(p)).CheckUnknown? then CreateLock(key) else StatLock(key)
    {
      hide Create, Write, Remove, Rename, Release;
      assert FilesOf(key).unknown == state.FilesOf(key).unknown;
      found := key in unknown;
      Follow(FileOp(p));
    }

    /** Line 34: `open` with the flag wx makes the lock, unless it is there. */
    method OpenExclusive(p: Proc, key: Key) returns (created: bool, inode: nat)
      requires ValidBut(p) && state.PcOf(p) == CreateLock(key)
      modifies this`locks, this`runs, this`state, this`trace
      ensures ValidBut(p) && Moved(p, old(state), old(trace)) && created == (key !in old(locks))
      ensures created ==>
          inode == |old(runs)| && locks == old(locks)[key := LockFile(inode, clock)] && runs == old(runs) + [Unused]
      ensures !created ==> locks == old(locks) && runs == old(runs)
      ensures state.PcOf(p) == if created then WriteLock(key, inode) else RecheckPublished(key)
      ensures state.answers == old(state.answers)
    {
      hide Apply, Exec;
      CreateTouches(state, p, key);
      assert FilesOf(key).lock == state.FilesOf(key).lock;
      created, inode := key !in locks, |runs|;
      if created {
        locks := locks[key := LockFile(inode, clock)];
        runs := runs + [Unused];
      }
      Follow(FileOp(p));
      forall k: Key ensures state.FilesOf(k) == FilesOf(k) {
        assert old(state.FilesOf(k) == FilesOf(k));
      }
    }

    /** Lines 35-38: a write through the open handle dates the file, if the path still leads to it. */
    method WriteOwner(p: Proc, key: Key, inode: nat)
      requires ValidBut(p) && state.PcOf(p) == WriteLock(key, inode)
      modifies this`locks, this`state, this`trace
      ensures ValidBut(p) && Moved(p, old(state), old(trace)) && state.PcOf(p) == Reserved(key, inode)
      ensures state.answers == old(state.answers)
      ensures locks == if key in old(locks) && old(locks)[key].inode == inode
                       then old(locks)[key := LockFile(inode, clock)] else old(locks)
    {
      hide Apply, Exec;
      WriteTouches(state, p, key, inode);
      assert FilesOf(key).lock == state.FilesOf(key).lock;
      if key in locks && locks[key].inode == inode {
        locks := locks[key := LockFile(inode, clock)];
      }
      Follow(FileOp(p));
      forall k: Key ensures state.FilesOf(k) == FilesOf(k) {
        assert old(state.FilesOf(k) == FilesOf(k));
      }
    }

    /** Line 45: `stat` of the lock; none if it is gone. */
    method LockAge(p: Proc, key: Key) returns (found: bool, age: int)
      requires ValidBut(p) && state.PcOf(p) == StatLock(key)
      modifies this`state, this`trace
      ensures ValidBut(p) && Moved(p, old(state), old(trace)) && found == (key in locks)
          && (found ==> age == clock - locks[key].mtime)
      ensures state.answers
           == old(state.answers) + (if found && age < 2 * timeout then [Answer(p, key, Failed)] else [])
      ensures state.PcOf(p) == if !found then CheckPublished(key)
                               else if age < 2 * timeout then Idle
                               else RemoveStale(key, locks[key].inode)
    {
      hide Create, Write, Remove, Rename, Release;
      assert FilesOf(key).lock == state.FilesOf(key).lock;
      found, age := key in locks, if key in locks then clock - locks[key].mtime else 0;
      Follow(FileOp(p));
    }

    /** Line 53: `rm` with force, of whatever lock is there by then. */
    method RemoveLock(p: Proc, key: Key)
      requires ValidBut(p) && state.PcOf(p).RemoveStale? && state.PcOf(p).key == key
      modifies this`locks, this`state, this`trace
      ensures ValidBut(p) && Moved(p, old(state), old(trace)) && locks == old(locks) - {key}
          && state.PcOf(p) == CheckPublished(key) && state.answers == old(state.answers)
    {
      hide Apply, Exec;
      RemoveTouches(state, p, key);
      assert FilesOf(key).lock == state.FilesOf(key).lock;
      locks := locks - {key};
      Follow(FileOp(p));
      forall k: Key ensures state.FilesOf(k) == FilesOf(k) {
        assert old(state.FilesOf(k) == FilesOf(k));
      }
    }

    /**
     Lines 58-60: `rename` of the lock to the published marker; false stands for the ENOENT it throws
     when the lock is gone.
     */
    method Commit(p: Proc, key: Key) returns (ok: bool)
      requires ValidBut(p) && state.PcOf(p).Committing? && state.PcOf(p).key == key
      modifies this`locks, this`published, this`state, this`trace
      ensures ValidBut(p) && Moved(p, old(state), old(trace)) && ok == (key in old(locks)) && state.PcOf(p).Idle?
      ensures locks == old(locks) - {key} && published == if ok then old(published) + {key} else old(published)
      ensures state.answers == old(state.answers) + [Answer(p, key, if ok then Passed else Failed)]
    {
      hide Apply, Exec;
      CommitTouches(state, p, key);
      assert FilesOf(key) == state.FilesOf(key);
      ok := key in locks;
      if ok {
        locks, published := locks - {key}, published + {key};
      } else {
        assert locks - {key} == locks;
      }
      Follow(FileOp(p));
      forall k: Key ensures state.FilesOf(k) == FilesOf(k) {
        assert old(state.FilesOf(k) == FilesOf(k));
      }
    }

    /** Lines 61-63: `rename` of the lock to the unknown marker. */
    method MarkUnknown(p: Proc, key: Key) returns (ok: bool)
      requires ValidBut(p) && state.PcOf(p).MarkingUnknown? && state.PcOf(p).key == key
      modifies this`locks, this`unknown, this`state, this`trace
      ensures ValidBut(p) && Moved(p, old(state), old(trace)) && ok == (key in old(locks)) && state.PcOf(p).Idle?
      ensures locks == old(locks) - {key} && unknown == if ok then old(unknown) + {key} else old(unknown)
      ensures state.answers == old(state.answers) + [Answer(p, key, Failed)]
    {
      hide Apply, Exec;
      MarkUnknownTouches(state, p, key);
      assert FilesOf(key) == state.FilesOf(key);
      ok := key in locks;
      if ok {
        locks, unknown := locks - {key}, unknown + {key};
      } else {
        assert locks - {key} == locks;
      }
      Follow(FileOp(p));
      forall k: Key ensures state.FilesOf(k) == FilesOf(k) {
        assert old(state.FilesOf(k) == FilesOf(k));
      }
    }

    /** Lines 64-66: `rm` with force, whoever made the lock. */
    method ReleaseLock(p: Proc, key: Key)
      requires ValidBut(p) && state.PcOf(p).Releasing? && state.PcOf(p).key == key
      modifies this`locks, this`state, this`trace
      ensures ValidBut(p) && Moved(p, old(state), old(trace)) && locks == old(locks) - {key} && state.PcOf(p).Idle?
      ensures state.answers == old(state.answers) + [Answer(p, key, Failed)]
    {
      hide Apply, Exec;
      ReleaseTouches(state, p, key);
      assert FilesOf(key) == state.FilesOf(key);
      locks := locks - {key};
      Follow(FileOp(p));
      forall k: Key ensures state.FilesOf(k) == FilesOf(k) {
        assert old(state.FilesOf(k) == FilesOf(k));
      }
    }

    // ------------------------------------------------------------ the other processes

    lemma Relax(q: Proc)
      requires Valid()
      ensures ValidBut(q) && (q != self ==> state.PcOf(q) == PeerAt(q))
    {
    }

    /** Another process that has moved stands at its new point. */
    method Arrive(q: Proc, pc: Pc)
      requires ValidBut(q) && q != self && state.PcOf(q) == pc
      modifies this`peers
      ensures Valid()
    {
      peers := peers[q := pc];
    }

    /** The looks of another process at the files. */
    method PeerLooks(q: Proc)
      requires Valid() && q != self
      requires var pc := PeerAt(q);
               || pc.CheckPublished? || pc.CheckUnknown? || pc.RecheckPublished? || pc.RecheckUnknown?
               || pc.StatLock?
      modifies this`peers, this`state, this`trace
      ensures Valid() && Moved(q, old(state), old(trace))
    {
      hide ValidBut;
      Relax(q);
      var pc := PeerAt(q);
      if pc.CheckPublished? || pc.RecheckPublished? {
        var found := LookForPublished(q, pc.key);
        Arrive(q, if found then Idle else if pc.CheckPublished? then CheckUnknown(pc.key) else RecheckUnknown(pc.key));
      } else if pc.CheckUnknown? || pc.RecheckUnknown? {
        var found := LookForUnknown(q, pc.key);
        Arrive(q, if found then Idle else if pc.CheckUnknown? then CreateLock(pc.key) else StatLock(pc.key));
      } else {
        var found, age := LockAge(q, pc.key);
        Arrive(q, if !found then CheckPublished(pc.key)
                  else if age < 2 * timeout then Idle
                  else RemoveStale(pc.key, locks[pc.key].inode));
      }
    }

    /** The operations of another process that change files. */
    method PeerWrites(q: Proc)
      requires Valid() && q != self
      requires var pc := PeerAt(q);
               || pc.CreateLock? || pc.WriteLock? || pc.RemoveStale?
               || pc.Committing? || pc.MarkingUnknown? || pc.Releasing?
      modifies this
      ensures Valid() && Moved(q, old(state), old(trace)) && |old(runs)| <= |runs|
    {
      hide ValidBut;
      Relax(q);
      match PeerAt(q)
      case CreateLock(k) =>
        var created, inode := OpenExclusive(q, k);
        Arrive(q, if created then WriteLock(k, inode) else RecheckPublished(k));
      case WriteLock(k, inode) =>
        WriteOwner(q, k, inode);
        Arrive(q, Reserved(k, inode));
      case RemoveStale(k, _) =>
        RemoveLock(q, k);
        Arrive(q, CheckPublished(k));
      case Committing(k, _) =>
        var ok := Commit(q, k);
        Arrive(q, Idle);
      case MarkingUnknown(k, _) =>
        var ok := MarkUnknown(q, k);
        Arrive(q, Idle);
      case Releasing(k, _) =>
        ReleaseLock(q, k);
        Arrive(q, Idle);
    }

    /** The next file operation of another process, on the same files. */
    method PeerFileOp(q: Proc)
      requires Valid() && q != self
      modifies this
      ensures Valid() && Moved(q, old(state), old(trace)) && |old(runs)| <= |runs|
    {
      hide ValidBut;
      Relax(q);
      match PeerAt(q)
      case Idle => NothingToDo(q);
      case Crashed => NothingToDo(q);
      case Reserved(_, _) => NothingToDo(q);
      case Publishing(_, _) => NothingToDo(q);
      case CheckPublished(_) => PeerLooks(q);
      case CheckUnknown(_) => PeerLooks(q);
      case RecheckPublished(_) => PeerLooks(q);
      case RecheckUnknown(_) => PeerLooks(q);
      case StatLock(_) => PeerLooks(q);
      case _ => PeerWrites(q);
    }

    /** A process that stands before no file operation stays where it is. */
    ghost method NothingToDo(q: Proc)
      requires Valid() && q != self
      requires var pc := state.PcOf(q); pc.Idle? || pc.Crashed? || pc.Reserved? || pc.Publishing?
      modifies this`state, this`trace
      ensures Valid() && Moved(q, old(state), old(trace)) && state.PcOf(q) == old(state.PcOf(q))
    {
      Follow(FileOp(q));
    }

    /**
     Time passes, a CLI run comes to its end, or another process starts, publishes, settles, crashes or
     operates on a file.
     */
    method Elsewhere(e: Event)
      requires Valid() && NotBy(self, e)
      modifies this
      ensures Valid() && trace == old(trace) + [e] && state.PcOf(self) == old(state.PcOf(self)) && |old(runs)| <= |runs|
    {
      hide DoFileOp, DoSettle, ValidBut;
      match e
      case FileOp(q) => PeerFileOp(q);
      case Tick(ms) => TimePasses(ms);
      case CliDelivers(a) => CliEnds(a, Delivered);
      case CliFails(a) => CliEnds(a, Barred);
      case Start(q, k) => StartPeer(q, k);
      case Spawn(q) => SpawnPeer(q);
      case Settle(q, report) => SettlePeer(q, report);
      case Crash(q) => CrashPeer(q);
    }

    method TimePasses(ms: nat)
      requires Valid()
      modifies this`clock, this`state, this`trace
      ensures Valid() && trace == old(trace) + [Tick(ms)] && state.procs == old(state.procs)
    {
      clock := clock + ms;
      Follow(Tick(ms));
    }

    /** The CLI of some attempt posts the message, or is certain never to. */
    method CliEnds(a: nat, fate: Cli)
      requires Valid() && (fate == Delivered || fate == Barred)
      modifies this`runs, this`state, this`trace
      ensures Valid() && |runs| == |old(runs)| && state.procs == old(state.procs)
      ensures trace == old(trace) + [if fate == Delivered then CliDelivers(a) else CliFails(a)]
    {
      if a < |runs| && runs[a] == Running { runs := runs[a := fate]; }
      Follow(if fate == Delivered then CliDelivers(a) else CliFails(a));
    }

    method StartPeer(q: Proc, key: Key)
      requires Valid() && q != self
      modifies this`peers, this`state, this`trace
      ensures Valid() && trace == old(trace) + [Start(q, key)] && state.PcOf(self) == old(state.PcOf(self))
    {
      assert state.PcOf(q) == PeerAt(q);
      if PeerAt(q) == Idle { peers := peers[q := CheckPublished(key)]; }
      Follow(Start(q, key));
      forall r: Proc | r != self ensures state.PcOf(r) == PeerAt(r) {
        assert old(r == self || state.PcOf(r) == PeerAt(r));
      }
    }

    method SpawnPeer(q: Proc)
      requires Valid() && q != self
      modifies this`peers, this`runs, this`state, this`trace
      ensures Valid() && |runs| == |old(runs)| && trace == old(trace) + [Spawn(q)]
          && state.PcOf(self) == old(state.PcOf(self))
    {
      assert state.PcOf(q) == PeerAt(q);
      var pc := PeerAt(q);
      if pc.Reserved? && pc.attempt < |runs| {
        runs := runs[pc.attempt := Running];
        peers := peers[q := Publishing(pc.key, pc.attempt)];
      }
      Follow(Spawn(q));
      forall r: Proc | r != self ensures state.PcOf(r) == PeerAt(r) {
        assert old(r == self || state.PcOf(r) == PeerAt(r));
      }
    }

    method CrashPeer(q: Proc)
      requires Valid() && q != self
      modifies this`peers, this`state, this`trace
      ensures Valid() && trace == old(trace) + [Crash(q)] && state.PcOf(self) == old(state.PcOf(self))
    {
      peers := peers[q := Crashed];
      Follow(Crash(q));
      forall r: Proc | r != self ensures state.PcOf(r) == PeerAt(r) {
        assert old(r == self || state.PcOf(r) == PeerAt(r));
      }
    }

    /** Another process hears from its publisher. */
    method SettlePeer(q: Proc, report: Report)
      requires Valid() && q != self
      modifies this`peers, this`state, this`trace
      ensures Valid() && trace == old(trace) + [Settle(q, report)] && state.PcOf(self) == old(state.PcOf(self))
    {
      hide Apply, Exec, AfterReport;
      assert state.PcOf(q) == PeerAt(q);
      SettleMoves(state, q, report);
      var pc := PeerAt(q);
      if pc.Publishing? && pc.attempt < |runs| {
        peers := peers[q := AfterReport(pc, runs[pc.attempt], report)];
      }
      Follow(Settle(q, report));
      forall r: Proc | r != self ensures state.PcOf(r) == PeerAt(r) {
        assert old(r == self || state.PcOf(r) == PeerAt(r));
      }
    }

    // ------------------------------------------------------------ reservePublication

    /** Process self awaits: everything else goes on. */
    method Await(others: seq<Event>, ghost from: seq<Event>)
      requires Valid() && Others(self, others) && Woven(self, from, trace)
      modifies this
      ensures Valid() && Woven(self, from, trace)
      ensures state.PcOf(self) == old(state.PcOf(self)) && |old(runs)| <= |runs|
    {
      hide ValidBut;
      for i := 0 to |others|
        invariant Valid() && Woven(self, from, trace)
        invariant state.PcOf(self) == old(state.PcOf(self)) && |old(runs)| <= |runs|
      {
        WeaveOn(self, from, trace, [others[i]]);
        Elsewhere(others[i]);
      }
    }

    /** The latest answer of the directory is this process's, for the key. */
    ghost predicate Answered(key: Key, v: Verdict)
      reads this
    {
      state.answers != [] && state.answers[|state.answers| - 1] == Answer(self, key, v)
    }

    /** An attempt of this process on the key that no CLI was started for yet and that is still held. */
    ghost predicate IsReservation(key: Key, a: nat)
      reads this
    {
      && state.PcOf(self) == Reserved(key, a)
      && a < |runs| && runs[a] == Unused && |state.attempts| == |runs|
      && state.attempts[a].key == key && state.attempts[a].holder == self && !state.attempts[a].released
    }

    lemma ReservationHolds(key: Key, a: nat)
      requires Valid() && state.PcOf(self) == Reserved(key, a)
      ensures IsReservation(key, a)
    {
      RunKeepsInvariant(timeout, trace, key);
      assert PcOk(state, self);
    }

    // The operations of process self, each after the await in which `others` happens; `from` is the trace at
    // which it began to reserve.

    /** Lines 30, 41. */
    method PublishedExists(key: Key, others: seq<Event>, ghost from: seq<Event>) returns (found: bool)
      requires Valid() && Others(self, others) && Woven(self, from, trace)
      requires state.PcOf(self) == CheckPublished(key) || state.PcOf(self) == RecheckPublished(key)
      modifies this
      ensures Valid() && Woven(self, from, trace) && |old(runs)| <= |runs|
      ensures found == (key in published) && (found ==> Answered(key, Passed))
      ensures state.PcOf(self) == if found then Idle
                                  else if old(state.PcOf(self)).CheckPublished? then CheckUnknown(key)
                                  else RecheckUnknown(key)
    {
      hide ValidBut;
      Await(others, from);
      WeaveOn(self, from, trace, [FileOp(self)]);
      found := LookForPublished(self, key);
    }

    /** Lines 31, 42. */
    method UnknownExists(key: Key, others: seq<Event>, ghost from: seq<Event>) returns (found: bool)
      requires Valid() && Others(self, others) && Woven(self, from, trace)
      requires state.PcOf(self) == CheckUnknown(key) || state.PcOf(self) == RecheckUnknown(key)
      modifies this
      ensures Valid() && Woven(self, from, trace) && |old(runs)| <= |runs|
      ensures found == (key in unknown) && (found ==> Answered(key, Failed))
      ensures state.PcOf(self) == if found then Idle
                                  else if old(state.PcOf(self)).CheckUnknown? then CreateLock(key) else StatLock(key)
    {
      hide ValidBut;
      Await(others, from);
      WeaveOn(self, from, trace, [FileOp(self)]);
      found := LookForUnknown(self, key);
    }

    /** Line 34. */
    method TryCreate(key: Key, others: seq<Event>, ghost from: seq<Event>) returns (created: bool, inode: nat)
      requires Valid() && Others(self, others) && Woven(self, from, trace)
      requires state.PcOf(self) == CreateLock(key)
      modifies this
      ensures Valid() && Woven(self, from, trace) && |old(runs)| <= |runs|
      ensures key in locks
      ensures created ==>
          |old(runs)| <= inode && locks[key] == LockFile(inode, clock) && state.PcOf(self) == WriteLock(key, inode)
      ensures !created ==> state.PcOf(self) == RecheckPublished(key)
    {
      hide ValidBut;
      Await(others, from);
      WeaveOn(self, from, trace, [FileOp(self)]);
      created, inode := OpenExclusive(self, key);
    }

    /** Lines 35-38. */
    method NameOwner(key: Key, inode: nat, others: seq<Event>, ghost from: seq<Event>)
      requires Valid() && Others(self, others) && Woven(self, from, trace)
      requires state.PcOf(self) == WriteLock(key, inode)
      modifies this
      ensures Valid() && Woven(self, from, trace) && |old(runs)| <= |runs|
      ensures IsReservation(key, inode)
      ensures key in locks && locks[key].inode == inode ==> locks[key].mtime == clock
    {
      hide ValidBut;
      Await(others, from);
      WeaveOn(self, from, trace, [FileOp(self)]);
      WriteOwner(self, key, inode);
      ReservationHolds(key, inode);
    }

    /** Line 45. */
    method ReadAge(key: Key, others: seq<Event>, ghost from: seq<Event>) returns (found: bool, age: int)
      requires Valid() && Others(self, others) && Woven(self, from, trace)
      requires state.PcOf(self) == StatLock(key)
      modifies this
      ensures Valid() && Woven(self, from, trace) && |old(runs)| <= |runs|
      ensures found == (key in locks) && (found ==> age == clock - locks[key].mtime)
      ensures found && age < 2 * timeout ==> Answered(key, Failed)
      ensures state.PcOf(self) == if !found then CheckPublished(key)
                                  else if age < 2 * timeout then Idle
                                  else RemoveStale(key, locks[key].inode)
    {
      hide ValidBut;
      Await(others, from);
      WeaveOn(self, from, trace, [FileOp(self)]);
      found, age := LockAge(self, key);
    }

    /** Line 53. */
    method TakeStaleAway(key: Key, others: seq<Event>, ghost from: seq<Event>)
      requires Valid() && Others(self, others) && Woven(self, from, trace)
      requires state.PcOf(self).RemoveStale? && state.PcOf(self).key == key
      modifies this
      ensures Valid() && Woven(self, from, trace) && |old(runs)| <= |runs|
      ensures key !in locks && state.PcOf(self) == CheckPublished(key)
    {
      hide ValidBut;
      Await(others, from);
      WeaveOn(self, from, trace, [FileOp(self)]);
      RemoveLock(self, key);
    }

    /** What reservePublication promises, by what it returned; from is the number of locks ever made before the call. */
    ghost predicate Kept(key: Key, r: Reservation, from: nat)
      reads this
    {
      match r
      case Held(a) => from <= a && IsReservation(key, a)
      case AlreadyPublished => state.PcOf(self).Idle? && key in published && Answered(key, Passed)
      case AlreadyUnknown => state.PcOf(self).Idle? && key in unknown && Answered(key, Failed)
      case InProgress =>
        state.PcOf(self).Idle? && key in locks && clock - locks[key].mtime < 2 * timeout && Answered(key, Failed)
      case Interrupted => state.PcOf(self) == CheckPublished(key)
    }

    /** One round of reservePublication makes at most this many awaits. */
    static const AWAITS_PER_ROUND := 7

    /**
     Lines 20-68. `schedule` holds what the other processes do at each await; a schedule that is used up
     leaves the process where it starts a new round. A reservation that is held is a new attempt with its
     own create; the other results are true of the directory at the return.
     */
    method ReservePublication(key: Key, schedule: seq<seq<Event>>) returns (r: Reservation)
      requires Valid() && state.PcOf(self).Idle?
      requires forall i :: 0 <= i < |schedule| ==> Others(self, schedule[i])
      modifies this
      ensures Valid()
      ensures Kept(key, r, |old(runs)|)
      ensures Woven(self, old(trace), trace)
    {
      hide DoFileOp;
      ghost var from := trace;
      Follow(Start(self, key));
      hide ValidBut;
      var n := 0;
      while n + AWAITS_PER_ROUND <= |schedule|
        invariant 0 <= n <= |schedule|
        invariant Valid() && state.PcOf(self) == CheckPublished(key)
        invariant |old(runs)| <= |runs|
        invariant Woven(self, from, trace)
      {
        var again;
        again, r := Round(key, schedule[n..n + AWAITS_PER_ROUND], from);
        if !again {
          return;
        }
        n := n + AWAITS_PER_ROUND;
      }
      r := Interrupted;
    }

    /** One pass over lines 30-55; again says that it starts over. */
    method Round(key: Key, awaits: seq<seq<Event>>, ghost from: seq<Event>) returns (again: bool, r: Reservation)
      requires Valid() && state.PcOf(self) == CheckPublished(key) && |awaits| == AWAITS_PER_ROUND
      requires (forall i :: 0 <= i < |awaits| ==> Others(self, awaits[i])) && Woven(self, from, trace)
      modifies this
      ensures Valid() && Woven(self, from, trace) && |old(runs)| <= |runs|
      ensures again ==> state.PcOf(self) == CheckPublished(key)
      ensures !again ==> Kept(key, r, |old(runs)|)
    {
      hide ValidBut, Woven;
      var found := PublishedExists(key, awaits[0], from);
      if found {
        return false, AlreadyPublished;
      }
      found := UnknownExists(key, awaits[1], from);
      if found {
        return false, AlreadyUnknown;
      }
      var created, inode := TryCreate(key, awaits[2], from);
      if created {
        NameOwner(key, inode, awaits[3], from);
        return false, Held(inode);
      }
      again, r := Contend(key, awaits[3..], from);
    }

    /** Lines 41-54: the lock is there. */
    method Contend(key: Key, awaits: seq<seq<Event>>, ghost from: seq<Event>) returns (again: bool, r: Reservation)
      requires Valid() && state.PcOf(self) == RecheckPublished(key) && |awaits| == 4
      requires (forall i :: 0 <= i < |awaits| ==> Others(self, awaits[i])) && Woven(self, from, trace)
      modifies this
      ensures Valid() && Woven(self, from, trace) && |old(runs)| <= |runs|
      ensures again ==> state.PcOf(self) == CheckPublished(key)
      ensures !again ==> Kept(key, r, |old(runs)|)
    {
      hide ValidBut, Woven;
      var found := PublishedExists(key, awaits[0], from);
      if found {
        return false, AlreadyPublished;
      }
      found := UnknownExists(key, awaits[1], from);
      if found {
        return false, AlreadyUnknown;
      }
      var present, age := ReadAge(key, awaits[2], from);
      if !present {
        return true, Interrupted;
      }
      if age < 2 * timeout {
        return false, InProgress;
      }
      TakeStaleAway(key, awaits[3], from);
      return true, Interrupted;
    }
  }
}
