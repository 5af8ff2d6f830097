/**
 Publishers and the lock protocol in one run: each process that has started its CLI hears the CLI's events
 one by one, and the protocol goes on when, and only when, the publisher settles. Honesty of the CLI is a
 condition on each single event at the moment it is heard.
 */
module JointRun {
  import opened PublicationProtocol
  import opened HonestCli
  import P = Publisher

  /** What a publisher settled on for an attempt. */
  datatype Settled = Settled(attempt: nat, outcome: P.Outcome)

  /** `heard` is what each process has heard of its present CLI, `trace` the run of the lock protocol. */
  datatype Joint = Joint(protocol: State, trace: seq<Event>, heard: map<Proc, seq<P.Event>>, settled: seq<Settled>)
  {
    function HeardBy(p: Proc): seq<P.Event> { if p in heard then heard[p] else [] }
  }

  /** A step of the protocol, or an event of the CLI that a process started. */
  datatype Move = World(event: Event) | Hear(proc: Proc, heard: P.Event)

  function Begin(timeout: nat): Joint { Joint(Init(timeout), [], map[], []) }

  function Happen(j: Joint, e: Event): Joint { j.(protocol := Apply(j.protocol, e), trace := j.trace + [e]) }

  function Listen(j: Joint, p: Proc, x: P.Event): Joint { j.(heard := j.heard[p := j.HeardBy(p) + [x]]) }

  /** The publisher of attempt a hears x; if that settles it, its sequence goes on. */
  function HearPublishing(parse: P.Parser, j: Joint, p: Proc, a: nat, x: P.Event): Joint {
    var t := Listen(j, p, x);
    match P.Run(parse, t.HeardBy(p)).outcome
    case None => t
    case Some(o) => Happen(t, Settle(p, ReportOf(o))).(settled := j.settled + [Settled(a, o)])
  }

  /** Only publishers settle, a new CLI starts unheard, and a CLI says only what is so. */
  function Advance(parse: P.Parser, j: Joint, m: Move): Joint {
    match m
    case World(e) =>
      if e.Settle? then j
      else if e.Spawn? && j.protocol.PcOf(e.proc).Reserved? then Happen(j, e).(heard := j.heard[e.proc := []])
      else Happen(j, e)
    case Hear(p, x) => (
      match j.protocol.PcOf(p)
      case Publishing(_, a) =>
        if a < |j.protocol.attempts| && Honest(parse, j.HeardBy(p) + [x], j.protocol.attempts[a].cli)
        then HearPublishing(parse, j, p, a, x)
        else j
      case Committing(_, _) => Listen(j, p, x)
      case MarkingUnknown(_, _) => Listen(j, p, x)
      case Releasing(_, _) => Listen(j, p, x)
      case _ => j
    )
  }

  function RunJoint(parse: P.Parser, timeout: nat, moves: seq<Move>): Joint {
    if moves == [] then Begin(timeout)
    else Advance(parse, RunJoint(parse, timeout, moves[..|moves| - 1]), moves[|moves| - 1])
  }

  // ------------------------------------------------------------ the invariant

  predicate Concluding(pc: Pc) { pc.Committing? || pc.MarkingUnknown? || pc.Releasing? }

  /** A publishing process has not settled; one that concludes is where its outcome leads. */
  predicate Agrees(parse: P.Parser, j: Joint, p: Proc) {
    var pc, o := j.protocol.PcOf(p), P.Run(parse, j.HeardBy(p)).outcome;
    && (pc.Publishing? ==> o.None?)
    && (Concluding(pc) ==> o.Some? && pc == After(o.value, pc.key, pc.attempt))
  }

  /** What a publisher settled on is so. */
  predicate IsSo(s: State, x: Settled) { x.attempt < |s.attempts| && Claims(x.outcome, s.attempts[x.attempt].cli) }

  ghost predicate JointSound(parse: P.Parser, timeout: nat, j: Joint) {
    && j.protocol == Exec(Init(timeout), j.trace)
    && (forall p: Proc :: Agrees(parse, j, p))
    && (forall i :: 0 <= i < |j.settled| ==> IsSo(j.protocol, j.settled[i]))
  }

  /** After the move of p it neither publishes nor concludes, and nobody else moved. */
  ghost predicate GoesElsewhere(s: State, t: State, p: Proc) {
    !t.PcOf(p).Publishing? && !Concluding(t.PcOf(p)) && forall q: Proc :: q != p ==> t.PcOf(q) == s.PcOf(q)
  }

  lemma CreateGoesElsewhere(s: State, p: Proc, k: Key)
    ensures GoesElsewhere(s, Create(s, p, k), p)
  {
  }

  lemma WriteGoesElsewhere(s: State, p: Proc, k: Key, a: nat)
    ensures GoesElsewhere(s, Write(s, p, k, a), p)
  {
  }

  lemma RemoveGoesElsewhere(s: State, p: Proc, k: Key)
    ensures GoesElsewhere(s, Remove(s, p, k), p)
  {
  }

  lemma RenameGoesElsewhere(s: State, p: Proc, k: Key, marked: Files, v: Verdict)
    ensures GoesElsewhere(s, Rename(s, p, k, marked, v), p)
  {
  }

  lemma ReleaseGoesElsewhere(s: State, p: Proc, k: Key, a: nat)
    ensures GoesElsewhere(s, Release(s, p, k, a), p)
  {
  }

  lemma LookGoesElsewhere(s: State, p: Proc)
    requires var pc := s.PcOf(p);
             || pc.CheckPublished? || pc.CheckUnknown? || pc.RecheckPublished? || pc.RecheckUnknown? || pc.StatLock?
             || (pc.CreateLock? && s.FilesOf(pc.key).lock.Lock?)
    ensures GoesElsewhere(s, DoFileOp(s, p), p)
  {
    hide Create, Write, Remove, Rename, Release;
  }

  lemma FileOpSettlesNothing(s: State, p: Proc)
    ensures DoFileOp(s, p) == s || GoesElsewhere(s, DoFileOp(s, p), p)
  {
    hide Create, Write, Remove, Rename, Release, GoesElsewhere;
    match s.PcOf(p)
    case CreateLock(k) =>
      if s.FilesOf(k).lock.NoLock? { CreateGoesElsewhere(s, p, k); } else { LookGoesElsewhere(s, p); }
    case WriteLock(k, a) => WriteGoesElsewhere(s, p, k, a);
    case RemoveStale(k, _) => RemoveGoesElsewhere(s, p, k);
    case Releasing(k, a) => ReleaseGoesElsewhere(s, p, k, a);
    case Committing(k, _) => RenameGoesElsewhere(s, p, k, s.FilesOf(k).(lock := NoLock, published := true), Passed);
    case MarkingUnknown(k, _) =>
      RenameGoesElsewhere(s, p, k, s.FilesOf(k).(lock := NoLock, unknown := true), Failed);
    case CheckPublished(_) => LookGoesElsewhere(s, p);
    case CheckUnknown(_) => LookGoesElsewhere(s, p);
    case RecheckPublished(_) => LookGoesElsewhere(s, p);
    case RecheckUnknown(_) => LookGoesElsewhere(s, p);
    case StatLock(_) => LookGoesElsewhere(s, p);
    case _ =>
  }

  /** No other step than a settlement or the start of a CLI brings a process to publish or to conclude. */
  lemma WorldSettlesNothing(s: State, e: Event, p: Proc)
    requires !e.Settle?
    ensures var pc := Apply(s, e).PcOf(p);
            pc.Publishing? || Concluding(pc) ==>
              pc == s.PcOf(p) || (e == Spawn(p) && s.PcOf(p).Reserved? && pc.Publishing?)
  {
    hide DoFileOp;
    if e.FileOp? { FileOpSettlesNothing(s, e.proc); }
  }

  lemma NothingHeard(parse: P.Parser)
    ensures P.Run(parse, []).outcome.None?
  {
  }

  lemma StepKeepsClaims(s: State, e: Event, x: Settled)
    requires Structure(s) && IsSo(s, x)
    ensures IsSo(Apply(s, e), x)
  {
    hide Apply, Structure;
    StepKeepsFate(s, e, x.attempt);
  }

  lemma ExecSound(timeout: nat, j: Joint, e: Event)
    requires j.protocol == Exec(Init(timeout), j.trace)
    ensures Happen(j, e).protocol == Exec(Init(timeout), Happen(j, e).trace) && Structure(j.protocol)
  {
    hide Apply, Structure, Exec;
    ExecSnoc(Init(timeout), j.trace, e);
    RunKeepsInvariant(timeout, j.trace, "");
  }

  lemma WorldSound(parse: P.Parser, timeout: nat, j: Joint, e: Event)
    requires JointSound(parse, timeout, j) && !e.Settle?
    ensures JointSound(parse, timeout, Advance(parse, j, World(e)))
  {
    hide Apply, Exec, Structure, P.Run, IsSo, HearPublishing;
    var t := Advance(parse, j, World(e));
    ExecSound(timeout, j, e);
    NothingHeard(parse);
    forall p: Proc ensures Agrees(parse, t, p) {
      assert Agrees(parse, j, p);
      WorldSettlesNothing(j.protocol, e, p);
    }
    forall i | 0 <= i < |t.settled| ensures IsSo(t.protocol, t.settled[i]) {
      StepKeepsClaims(j.protocol, e, j.settled[i]);
    }
  }

  /** What is heard after the publisher has settled changes nothing. */
  lemma ListenSound(parse: P.Parser, timeout: nat, j: Joint, p: Proc, x: P.Event)
    requires JointSound(parse, timeout, j) && Concluding(j.protocol.PcOf(p))
    ensures JointSound(parse, timeout, Listen(j, p, x))
  {
    hide Exec, P.Run, IsSo;
    assert Agrees(parse, j, p);
    P.OutcomeNeverChanges(parse, j.HeardBy(p), [x]);
    forall q: Proc ensures Agrees(parse, Listen(j, p, x), q) {
      assert Agrees(parse, j, q);
    }
  }

  /**
   In every sound state, whatever an honest CLI says next to a publishing process: if it settles the publisher,
   the process goes on to where the outcome leads, and the outcome's claim is so; otherwise it stays.
   */
  lemma HearingMoves(parse: P.Parser, timeout: nat, j: Joint, p: Proc, x: P.Event)
    requires JointSound(parse, timeout, j) && j.protocol.PcOf(p).Publishing?
    requires j.protocol.PcOf(p).attempt < |j.protocol.attempts|
    requires Honest(parse, j.HeardBy(p) + [x], j.protocol.attempts[j.protocol.PcOf(p).attempt].cli)
    ensures var t, pc := Advance(parse, j, Hear(p, x)), j.protocol.PcOf(p);
            var o := P.Run(parse, j.HeardBy(p) + [x]).outcome;
            && (o.Some? <==> P.Settles(x)) && t.HeardBy(p) == j.HeardBy(p) + [x]
            && t.protocol == (if o.Some? then j.protocol.Goto(p, After(o.value, pc.key, pc.attempt)) else j.protocol)
            && t.settled == j.settled + (if o.Some? then [Settled(pc.attempt, o.value)] else [])
            && (o.Some? ==> Claims(o.value, j.protocol.attempts[pc.attempt].cli))
  {
    hide Exec, Apply, P.Run, P.Settles, Honest;
    var heard := j.HeardBy(p) + [x];
    assert Agrees(parse, j, p);
    SettledNow(parse, j.HeardBy(p), x);
    if P.Run(parse, heard).outcome.Some? {
      OutcomeEnablesSettle(parse, heard, j.protocol, p);
      OutcomeIsTrue(parse, heard, j.protocol.attempts[j.protocol.PcOf(p).attempt].cli);
    }
  }

  lemma SettledNow(parse: P.Parser, es: seq<P.Event>, x: P.Event)
    requires P.Run(parse, es).outcome.None?
    ensures P.Run(parse, es + [x]).outcome.Some? <==> P.Settles(x)
  {
    assert (es + [x])[..|es|] == es;
  }

  lemma HearSound(parse: P.Parser, timeout: nat, j: Joint, p: Proc, x: P.Event)
    requires JointSound(parse, timeout, j) && j.protocol.PcOf(p).Publishing?
    requires j.protocol.PcOf(p).attempt < |j.protocol.attempts|
    requires Honest(parse, j.HeardBy(p) + [x], j.protocol.attempts[j.protocol.PcOf(p).attempt].cli)
    ensures JointSound(parse, timeout, Advance(parse, j, Hear(p, x)))
  {
    hide Exec, Apply, P.Run, P.Settles, Honest;
    HearingMoves(parse, timeout, j, p, x);
    var t, o := Advance(parse, j, Hear(p, x)), P.Run(parse, j.HeardBy(p) + [x]).outcome;
    if o.Some? { ExecSound(timeout, j, Settle(p, ReportOf(o.value))); }
    forall q: Proc ensures Agrees(parse, t, q) {
      assert Agrees(parse, j, q);
    }
  }

  lemma BeginSound(parse: P.Parser, timeout: nat)
    ensures JointSound(parse, timeout, Begin(timeout))
  {
  }

  // ------------------------------------------------------------ main theorems

  /**
   Over every joint run: the protocol's part is a run of the lock protocol, a publishing process has not
   settled, a concluding one is where its outcome leads, and whatever any publisher ever settled on is so.
   */
  lemma {:induction false} JointRunSound(parse: P.Parser, timeout: nat, moves: seq<Move>)
    ensures JointSound(parse, timeout, RunJoint(parse, timeout, moves))
  {
    hide JointSound, Honest, HearPublishing;
    if moves == [] {
      BeginSound(parse, timeout);
    } else {
      var n := |moves| - 1;
      var j := RunJoint(parse, timeout, moves[..n]);
      JointRunSound(parse, timeout, moves[..n]);
      match moves[n]
      case World(e) => if !e.Settle? { WorldSound(parse, timeout, j, e); }
      case Hear(p, x) =>
        var pc := j.protocol.PcOf(p);
        if Concluding(pc) {
          ListenSound(parse, timeout, j, p, x);
        } else if pc.Publishing? && pc.attempt < |j.protocol.attempts|
            && Honest(parse, j.HeardBy(p) + [x], j.protocol.attempts[pc.attempt].cli) {
          HearSound(parse, timeout, j, p, x);
        }
    }
  }

  /** The delivery bound holds of every joint run. */
  lemma JointDeliveriesBounded(parse: P.Parser, timeout: nat, moves: seq<Move>, k: Key)
    ensures var s := RunJoint(parse, timeout, moves).protocol;
            Deliveries(s, k) <= 1 + s.StaleRemovals(k) + s.LateCreates(k)
  {
    hide Exec, RunJoint;
    JointRunSound(parse, timeout, moves);
    DeliveriesBounded(timeout, RunJoint(parse, timeout, moves).trace, k);
  }
}
