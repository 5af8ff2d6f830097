/**
 Any number of adapters on one publication directory: each runs its own proxy, and every reply that is
 due runs the lock protocol with the key of its route. The two machines meet in two places: taking up
 a due reply starts the publish sequence, and the sequence's verdict resumes the output loop.
 */
module AdapterSystem {
  import opened Text
  import opened BuzzContext
  import opened ProxyModel
  import opened ProxyHistory
  import opened ProxyLedger
  import opened ProxyTurns
  import opened ProxyStream
  import Protocol = PublicationProtocol
  import Alone = SoleProcess

  type Proc = nat

  /** `trace` is the run of the lock protocol, `inputs` what each proxy handled. */
  datatype System = System(
    protocol: Protocol.State,
    trace: seq<Protocol.Event>,
    proxies: map<Proc, Proxy>,
    inputs: map<Proc, seq<Event>>)
  {
    function ProxyOf(p: Proc): Proxy { if p in proxies then proxies[p] else START }
    function InputsOf(p: Proc): seq<Event> { if p in inputs then inputs[p] else [] }
  }

  /** A client message, a message from eve, or a step of the lock protocol with the text its error would have. */
  datatype Action =
    | Client(proc: Proc, message: Message)
    | Eve(proc: Proc, message: Message)
    | World(event: Protocol.Event, detail: string)

  function Start(timeout: nat): System { System(Protocol.Init(timeout), [], map[], map[]) }

  function Feed(cfg: Proc -> Config, s: System, p: Proc, e: Event): System {
    s.(proxies := s.proxies[p := Step(cfg(p), s.ProxyOf(p), e)], inputs := s.inputs[p := s.InputsOf(p) + [e]])
  }

  function Move(s: System, e: Protocol.Event): System {
    s.(protocol := Protocol.Apply(s.protocol, e), trace := s.trace + [e])
  }

  function Verdict(a: Protocol.Answer, detail: string): Event {
    Published(if a.verdict.Passed? then Passed else Failed(detail))
  }

  function Advance(cfg: Proc -> Config, s: System, a: Action): System {
    match a
    case Client(p, m) => if s.protocol.PcOf(p).Crashed? then s else Feed(cfg, s, p, FromClient(m))
    case Eve(p, m) =>
      if s.protocol.PcOf(p).Crashed? || s.ProxyOf(p).phase.Publishing? then s
      else
        var t := Feed(cfg, s, p, FromEve(m));
        if t.ProxyOf(p).phase.Publishing?
        then Move(t, Protocol.Start(p, PublicationKey(t.ProxyOf(p).phase.route)))
        else t
    case World(e, detail) =>
      if e.Start? then s
      else
        var t := Move(s, e);
        if |t.protocol.answers| > |s.protocol.answers|
        then
          var answer := t.protocol.answers[|t.protocol.answers| - 1];
          Feed(cfg, t, answer.proc, Verdict(answer, detail))
        else t
  }

  function RunAll(cfg: Proc -> Config, timeout: nat, actions: seq<Action>): System {
    if actions == [] then Start(timeout)
    else Advance(cfg, RunAll(cfg, timeout, actions[..|actions| - 1]), actions[|actions| - 1])
  }

  // ------------------------------------------------------------ how the two machines hang together

  predicate Busy(pc: Protocol.Pc) { !pc.Idle? && !pc.Crashed? }

  /** A live proxy is publishing exactly while its process runs the publish sequence for its route. */
  predicate Coupled(s: System, p: Proc) {
    var pc, phase := s.protocol.PcOf(p), s.ProxyOf(p).phase;
    !pc.Crashed? ==>
      (phase.Publishing? <==> Busy(pc)) && (phase.Publishing? ==> pc.key == PublicationKey(phase.route))
  }

  /** A success passed on for a due reply stands for a published key. */
  predicate SuccessPublished(s: System, p: Proc, x: Sent) {
    x.Relayed? && x.message.error.None? && DueAt(s.ProxyOf(p).due, x.at) ==>
      exists i :: 0 <= i < |s.ProxyOf(p).due|
        && s.ProxyOf(p).due[i].at == x.at && s.ProxyOf(p).due[i].route.Some?
        && s.protocol.FilesOf(PublicationKey(s.ProxyOf(p).due[i].route.value)).published
  }

  predicate AllPublished(s: System, p: Proc) {
    forall i :: 0 <= i < |s.ProxyOf(p).toClient| ==> SuccessPublished(s, p, s.ProxyOf(p).toClient[i])
  }

  ghost predicate Sound(cfg: Proc -> Config, timeout: nat, s: System) {
    && s.protocol == Protocol.Exec(Protocol.Init(timeout), s.trace)
    && (forall p: Proc :: s.ProxyOf(p) == Run(cfg(p), s.InputsOf(p)))
    && (forall p: Proc :: Coupled(s, p))
    && (forall p: Proc :: AllPublished(s, p))
  }

  /** Process p goes on with the same key, or gives its answer and is idle; nobody else moves. */
  ghost predicate OnlyWorksOn(s: Protocol.State, t: Protocol.State, p: Proc) {
    && (forall q: Proc :: q != p ==> t.PcOf(q) == s.PcOf(q))
    && (|| (t.answers == s.answers && (Busy(t.PcOf(p)) <==> Busy(s.PcOf(p)))
            && (s.PcOf(p).Crashed? <==> t.PcOf(p).Crashed?) && (Busy(s.PcOf(p)) ==> t.PcOf(p).key == s.PcOf(p).key))
        || (Busy(s.PcOf(p)) && t.PcOf(p).Idle?
            && exists v :: t.answers == s.answers + [Protocol.Answer(p, s.PcOf(p).key, v)]))
  }

  lemma LookWorks(s: Protocol.State, p: Proc)
    requires var pc := s.PcOf(p);
             pc.CheckPublished? || pc.CheckUnknown? || pc.RecheckPublished? || pc.RecheckUnknown? || pc.StatLock?
    ensures OnlyWorksOn(s, Protocol.DoFileOp(s, p), p)
  {
  }

  lemma CreateWorks(s: Protocol.State, p: Proc)
    requires s.PcOf(p).CreateLock? || s.PcOf(p).RemoveStale?
    ensures OnlyWorksOn(s, Protocol.DoFileOp(s, p), p)
  {
  }

  lemma WriteWorks(s: Protocol.State, p: Proc)
    requires s.PcOf(p).WriteLock?
    ensures OnlyWorksOn(s, Protocol.DoFileOp(s, p), p)
  {
  }

  lemma RenameWorks(s: Protocol.State, p: Proc)
    requires s.PcOf(p).Committing? || s.PcOf(p).MarkingUnknown?
    ensures OnlyWorksOn(s, Protocol.DoFileOp(s, p), p)
  {
  }

  lemma ReleaseWorks(s: Protocol.State, p: Proc)
    requires s.PcOf(p).Releasing?
    ensures OnlyWorksOn(s, Protocol.DoFileOp(s, p), p)
  {
  }

  lemma FileOpWorks(s: Protocol.State, p: Proc)
    ensures OnlyWorksOn(s, Protocol.DoFileOp(s, p), p)
  {
    var pc := s.PcOf(p);
    if pc.CreateLock? || pc.RemoveStale? { CreateWorks(s, p); }
    else if pc.WriteLock? { WriteWorks(s, p); }
    else if pc.Committing? || pc.MarkingUnknown? { RenameWorks(s, p); }
    else if pc.Releasing? { ReleaseWorks(s, p); }
    else if pc.CheckPublished? || pc.CheckUnknown? || pc.RecheckPublished? || pc.RecheckUnknown?
        || pc.StatLock? { LookWorks(s, p); }
  }

  /** A protocol step that gives no answer leaves every live process as busy as it was, with the same key. */
  lemma QuietStep(s: Protocol.State, e: Protocol.Event, p: Proc)
    requires !e.Start? && |Protocol.Apply(s, e).answers| <= |s.answers|
    ensures var pc, next := s.PcOf(p), Protocol.Apply(s, e).PcOf(p);
            !next.Crashed? ==> !pc.Crashed? && (Busy(next) <==> Busy(pc)) && (Busy(pc) ==> next.key == pc.key)
  {
    hide Protocol.DoFileOp, Protocol.DoSettle;
    match e
    case FileOp(q) => FileOpWorks(s, q);
    case Settle(q, report) => SettleWorks(s, q, report);
    case Spawn(q) => SpawnWorks(s, q);
    case _ =>
  }

  lemma SettleWorks(s: Protocol.State, p: Proc, report: Protocol.Report)
    ensures OnlyWorksOn(s, Protocol.DoSettle(s, p, report), p)
  {
  }

  lemma SpawnWorks(s: Protocol.State, p: Proc)
    ensures OnlyWorksOn(s, Protocol.Apply(s, Protocol.Spawn(p)), p)
  {
  }

  /** A step that answers is the last file operation of a busy process, which then is idle. */
  lemma AnswerStep(s: Protocol.State, e: Protocol.Event)
    requires |Protocol.Apply(s, e).answers| > |s.answers|
    ensures var t := Protocol.Apply(s, e);
            && e.FileOp? && Busy(s.PcOf(e.proc)) && t.PcOf(e.proc).Idle?
            && |t.answers| == |s.answers| + 1
            && t.answers[|s.answers|].proc == e.proc && t.answers[|s.answers|].key == s.PcOf(e.proc).key
            && forall q: Proc :: q != e.proc ==> t.PcOf(q) == s.PcOf(q)
  {
    hide Protocol.DoFileOp;
    if e.FileOp? { FileOpWorks(s, e.proc); }
  }

  lemma FeedRuns(cfg: Proc -> Config, s: System, p: Proc, e: Event)
    requires forall q: Proc :: s.ProxyOf(q) == Run(cfg(q), s.InputsOf(q))
    ensures forall q: Proc :: Feed(cfg, s, p, e).ProxyOf(q) == Run(cfg(q), Feed(cfg, s, p, e).InputsOf(q))
  {
    hide Step;
    var t := Feed(cfg, s, p, e);
    forall q: Proc ensures t.ProxyOf(q) == Run(cfg(q), t.InputsOf(q)) {
      assert s.ProxyOf(q) == Run(cfg(q), s.InputsOf(q));
      if q == p { RunSnoc(cfg(p), s.InputsOf(p), e); }
    }
  }

  /** Markers only appear, so successes stay justified whatever the protocol does. */
  lemma MoveKeepsPublished(s: System, e: Protocol.Event, p: Proc)
    requires AllPublished(s, p)
    ensures AllPublished(Move(s, e), p)
  {
    hide Protocol.Apply, DueAt;
    var t := Move(s, e);
    forall i | 0 <= i < |t.ProxyOf(p).toClient| ensures SuccessPublished(t, p, t.ProxyOf(p).toClient[i]) {
      var x := s.ProxyOf(p).toClient[i];
      assert SuccessPublished(s, p, x);
      if x.Relayed? && x.message.error.None? && DueAt(s.ProxyOf(p).due, x.at) {
        var j :| 0 <= j < |s.ProxyOf(p).due|
                 && s.ProxyOf(p).due[j].at == x.at && s.ProxyOf(p).due[j].route.Some?
                 && s.protocol.FilesOf(PublicationKey(s.ProxyOf(p).due[j].route.value)).published;
        Protocol.StepKeepsMarkers(s.protocol, e, PublicationKey(s.ProxyOf(p).due[j].route.value));
      }
    }
  }

  /** What a proxy step may do to its relays and due replies. */
  ghost predicate Extends(x: Proxy, y: Proxy) {
    && |x.due| <= |y.due| && y.due[..|x.due|] == x.due
    && (forall i :: |x.due| <= i < |y.due| ==> y.due[i].at == |x.log|)
    && |x.toClient| <= |y.toClient| && y.toClient[..|x.toClient|] == x.toClient
  }

  lemma StepExtends(cfg: Config, x: Proxy, e: Event)
    ensures Extends(x, Step(cfg, x, e))
  {
    hide KeyForId, AnsweredLocally, LocalAnswer, Rewrite, TurnsAfterClient, Patch, TurnsAfterEve, Trim;
    hide PublicationError;
  }

  lemma RelaysPointBack(cfg: Config, x: Proxy, i: nat)
    requires RelaysOk(cfg, x) && i < |x.toClient| && x.toClient[i].Relayed?
    ensures x.toClient[i].at < |x.log|
  {
    assert FaithfulRelay(cfg, x.log, x.due, x.toClient[i]);
  }

  /** Feeding a proxy keeps the old successes justified; only what it newly passes on must be looked at. */
  lemma FeedKeepsPublished(cfg: Proc -> Config, s: System, p: Proc, e: Event, q: Proc)
    requires AllPublished(s, q) && RelaysOk(cfg(p), s.ProxyOf(p))
    requires q == p ==> forall i :: |s.ProxyOf(p).toClient| <= i < |Feed(cfg, s, p, e).ProxyOf(p).toClient| ==>
                          SuccessPublished(Feed(cfg, s, p, e), p, Feed(cfg, s, p, e).ProxyOf(p).toClient[i])
    ensures AllPublished(Feed(cfg, s, p, e), q)
  {
    hide Step, RelaysOk;
    var t := Feed(cfg, s, p, e);
    if q == p {
      var x, y := s.ProxyOf(p), t.ProxyOf(p);
      StepExtends(cfg(p), x, e);
      forall i | 0 <= i < |y.toClient| ensures SuccessPublished(t, p, y.toClient[i]) {
        if i < |x.toClient| {
          assert y.toClient[i] == x.toClient[i] && SuccessPublished(s, p, x.toClient[i]);
          if x.toClient[i].Relayed? { RelaysPointBack(cfg(p), x, i); }
          OldRelayStaysPublished(s, t, p, x.toClient[i]);
        }
      }
    } else {
      forall i | 0 <= i < |t.ProxyOf(q).toClient| ensures SuccessPublished(t, q, t.ProxyOf(q).toClient[i]) {
        assert SuccessPublished(s, q, s.ProxyOf(q).toClient[i]);
      }
    }
  }

  lemma OldRelayStaysPublished(s: System, t: System, p: Proc, x: Sent)
    requires SuccessPublished(s, p, x) && Extends(s.ProxyOf(p), t.ProxyOf(p)) && t.protocol == s.protocol
    requires x.Relayed? ==> x.at < |s.ProxyOf(p).log|
    ensures SuccessPublished(t, p, x)
  {
    var a, b := s.ProxyOf(p).due, t.ProxyOf(p).due;
    assert forall i :: 0 <= i < |a| ==> b[i] == a[i];
    if x.Relayed? && x.message.error.None? && DueAt(b, x.at) {
      assert DueAt(a, x.at);
      var i :| 0 <= i < |a| && a[i].at == x.at && a[i].route.Some?
          && s.protocol.FilesOf(PublicationKey(a[i].route.value)).published;
      assert b[i] == a[i];
    }
  }

  // ------------------------------------------------------------ steps of the whole system

  lemma ClientStepSound(cfg: Proc -> Config, timeout: nat, s: System, p: Proc, m: Message)
    requires Sound(cfg, timeout, s)
    ensures Sound(cfg, timeout, Advance(cfg, s, Client(p, m)))
  {
    hide Protocol.Apply, Protocol.Exec, RelaysOk, AllPublished, SuccessPublished;
    if !s.protocol.PcOf(p).Crashed? {
      var t := Feed(cfg, s, p, FromClient(m));
      FeedRuns(cfg, s, p, FromClient(m));
      ClientAddsNoRelay(cfg(p), s.ProxyOf(p), m);
      RunRelaysOk(cfg(p), s.InputsOf(p));
      forall q: Proc ensures Coupled(t, q) && AllPublished(t, q) {
        assert Coupled(s, q) && AllPublished(s, q);
        forall i | |s.ProxyOf(p).toClient| <= i < |t.ProxyOf(p).toClient|
            ensures SuccessPublished(t, p, t.ProxyOf(p).toClient[i]) {
          LocalIsFine(t, p, t.ProxyOf(p).toClient[i]);
        }
        FeedKeepsPublished(cfg, s, p, FromClient(m), q);
      }
    }
  }

  lemma LocalIsFine(s: System, p: Proc, x: Sent)
    requires x.Local?
    ensures SuccessPublished(s, p, x)
  {
  }

  lemma ClientAddsNoRelay(cfg: Config, x: Proxy, m: Message)
    ensures var y := Step(cfg, x, FromClient(m));
            y.phase == x.phase && forall i :: |x.toClient| <= i < |y.toClient| ==> y.toClient[i].Local?
  {
    hide KeyForId, AnsweredLocally, LocalAnswer, Rewrite, TurnsAfterClient;
  }

  /** A message from eve that is passed on at once is a success only if no reply was due. */
  lemma EveAddsJustified(cfg: Config, x: Proxy, m: Message)
    requires Matches(cfg, x) && x.phase.Reading?
    ensures var y := Step(cfg, x, FromEve(m));
            && (y.phase.Reading? ==>
                  && |y.toClient| == |x.toClient| + 1 && y.toClient[|x.toClient|].Relayed?
                  && (DueAt(y.due, y.toClient[|x.toClient|].at) ==> y.toClient[|x.toClient|].message.error.Some?))
            && (y.phase.Publishing? ==> y.toClient == x.toClient)
  {
    hide KeyForId, Patch, TurnsAfterEve, Trim, RequestMatches, TurnMatches;
    assert forall i :: 0 <= i < |x.due| ==> DueMatches(x.log, x.due[i]);
  }

  lemma EveStepSound(cfg: Proc -> Config, timeout: nat, s: System, p: Proc, m: Message)
    requires Sound(cfg, timeout, s)
    ensures Sound(cfg, timeout, Advance(cfg, s, Eve(p, m)))
  {
    hide Protocol.Apply, Protocol.Exec, RelaysOk, AllPublished, SuccessPublished, Matches, Step;
    if !s.protocol.PcOf(p).Crashed? && s.ProxyOf(p).phase.Reading? {
      var e := FromEve(m);
      var t := Feed(cfg, s, p, e);
      FeedRuns(cfg, s, p, e);
      RunMatches(cfg(p), s.InputsOf(p));
      RunRelaysOk(cfg(p), s.InputsOf(p));
      EveAddsJustified(cfg(p), s.ProxyOf(p), m);
      forall q: Proc ensures AllPublished(t, q) {
        assert AllPublished(s, q);
        forall i | |s.ProxyOf(p).toClient| <= i < |t.ProxyOf(p).toClient|
            ensures SuccessPublished(t, p, t.ProxyOf(p).toClient[i]) {
          ErrorOrNotDueIsFine(t, p, t.ProxyOf(p).toClient[i]);
        }
        FeedKeepsPublished(cfg, s, p, e, q);
      }
      assert Coupled(s, p);
      if t.ProxyOf(p).phase.Publishing? {
        var start := Protocol.Start(p, PublicationKey(t.ProxyOf(p).phase.route));
        var u := Move(t, start);
        forall q: Proc ensures Coupled(u, q) && AllPublished(u, q) {
          assert Coupled(s, q) && AllPublished(t, q);
          StartMovesOne(s.protocol, p, PublicationKey(t.ProxyOf(p).phase.route), q);
          MoveKeepsPublished(t, start, q);
        }
        Protocol.ExecSnoc(Protocol.Init(timeout), s.trace, start);
      } else {
        forall q: Proc ensures Coupled(t, q) {
          assert Coupled(s, q);
        }
      }
    }
  }

  lemma ErrorOrNotDueIsFine(s: System, p: Proc, x: Sent)
    requires x.Relayed?
    requires DueAt(s.ProxyOf(p).due, x.at) ==> x.message.error.Some?
    ensures SuccessPublished(s, p, x)
  {
  }

  lemma StartMovesOne(s: Protocol.State, p: Proc, k: string, q: Proc)
    requires s.PcOf(p).Idle?
    ensures Protocol.Apply(s, Protocol.Start(p, k)).PcOf(q) == if q == p then Protocol.CheckPublished(k) else s.PcOf(q)
  {
  }

  /** The answer that ends a publication is passed on as a success only over a published key. */
  lemma VerdictJustified(cfg: Proc -> Config, s: System, a: Protocol.Answer, detail: string)
    requires s.ProxyOf(a.proc).phase.Publishing? && PhaseMatches(s.ProxyOf(a.proc))
    requires a.verdict.Passed? ==> s.protocol.FilesOf(PublicationKey(s.ProxyOf(a.proc).phase.route)).published
    ensures var t := Feed(cfg, s, a.proc, Verdict(a, detail));
            var x, y := s.ProxyOf(a.proc), t.ProxyOf(a.proc);
            && y.phase.Reading? && |y.toClient| == |x.toClient| + 1
            && SuccessPublished(t, a.proc, y.toClient[|x.toClient|])
  {
    var t := Feed(cfg, s, a.proc, Verdict(a, detail));
    var x, y := s.ProxyOf(a.proc), t.ProxyOf(a.proc);
    assert y.due == x.due && x.due[|x.due| - 1].at == x.phase.at;
  }

  lemma VerdictKeepsPublished(cfg: Proc -> Config, s: System, a: Protocol.Answer, detail: string)
    requires s.ProxyOf(a.proc).phase.Publishing? && PhaseMatches(s.ProxyOf(a.proc))
    requires a.verdict.Passed? ==> s.protocol.FilesOf(PublicationKey(s.ProxyOf(a.proc).phase.route)).published
    requires RelaysOk(cfg(a.proc), s.ProxyOf(a.proc)) && forall q: Proc :: AllPublished(s, q)
    ensures var t := Feed(cfg, s, a.proc, Verdict(a, detail));
            t.ProxyOf(a.proc).phase.Reading? && forall q: Proc :: AllPublished(t, q)
  {
    hide RelaysOk, AllPublished, SuccessPublished, Step, PhaseMatches, PublicationKey;
    VerdictJustified(cfg, s, a, detail);
    forall q: Proc ensures AllPublished(Feed(cfg, s, a.proc, Verdict(a, detail)), q) {
      FeedKeepsPublished(cfg, s, a.proc, Verdict(a, detail), q);
    }
  }

  lemma CoupledAfterAnswer(cfg: Proc -> Config, s: System, t: System, a: Protocol.Answer, detail: string)
    requires (forall q: Proc :: Coupled(s, q)) && t.proxies == s.proxies && t.protocol.PcOf(a.proc).Idle?
    requires forall q: Proc :: q != a.proc ==> t.protocol.PcOf(q) == s.protocol.PcOf(q)
    requires Feed(cfg, t, a.proc, Verdict(a, detail)).ProxyOf(a.proc).phase.Reading?
    ensures forall q: Proc :: Coupled(Feed(cfg, t, a.proc, Verdict(a, detail)), q)
  {
    hide Step, PublicationKey;
    forall q: Proc ensures Coupled(Feed(cfg, t, a.proc, Verdict(a, detail)), q) {
      assert Coupled(s, q);
    }
  }

  lemma BusyMeansPublishing(s: System, p: Proc)
    requires Coupled(s, p) && Busy(s.protocol.PcOf(p))
    ensures var phase := s.ProxyOf(p).phase;
            phase.Publishing? && s.protocol.PcOf(p).key == PublicationKey(phase.route)
  {
    hide PublicationKey;
  }

  /** A step of the lock protocol that answers resumes the output loop it answers to. */
  lemma AnswerStepSound(cfg: Proc -> Config, timeout: nat, s: System, e: Protocol.Event, detail: string)
    requires Sound(cfg, timeout, s) && !e.Start?
    requires |Protocol.Apply(s.protocol, e).answers| > |s.protocol.answers|
    requires forall q: Proc :: AllPublished(Move(s, e), q)
    requires Move(s, e).protocol == Protocol.Exec(Protocol.Init(timeout), Move(s, e).trace)
    ensures Sound(cfg, timeout, Advance(cfg, s, World(e, detail)))
  {
    hide Protocol.Apply, Protocol.Exec, RelaysOk, AllPublished, Step, PhaseMatches, PublicationKey, Coupled, Busy;
    var t := Move(s, e);
    AnswerStep(s.protocol, e);
    var a := t.protocol.answers[|t.protocol.answers| - 1];
    var p := a.proc;
    BusyMeansPublishing(s, p);
    PhaseOfRun(cfg(p), s.InputsOf(p));
    RunRelaysOk(cfg(p), s.InputsOf(p));
    PassedIsPublished(timeout, t.trace, |t.protocol.answers| - 1);
    VerdictKeepsPublished(cfg, t, a, detail);
    FeedRuns(cfg, t, p, Verdict(a, detail));
    CoupledAfterAnswer(cfg, s, t, a, detail);
  }

  lemma PhaseOfRun(cfg: Config, es: seq<Event>)
    ensures PhaseMatches(Run(cfg, es))
  {
    RunMatches(cfg, es);
  }

  lemma PassedIsPublished(timeout: nat, trace: seq<Protocol.Event>, i: nat)
    requires i < |Protocol.Exec(Protocol.Init(timeout), trace).answers|
    ensures var s := Protocol.Exec(Protocol.Init(timeout), trace);
            s.answers[i].verdict.Passed? ==> s.FilesOf(s.answers[i].key).published
  {
    Protocol.RunKeepsInvariant(timeout, trace, "");
  }

  lemma WorldStepSound(cfg: Proc -> Config, timeout: nat, s: System, e: Protocol.Event, detail: string)
    requires Sound(cfg, timeout, s) && !e.Start?
    ensures Sound(cfg, timeout, Advance(cfg, s, World(e, detail)))
  {
    hide Protocol.Apply, Protocol.Exec, AllPublished, Step;
    var t := Move(s, e);
    Protocol.ExecSnoc(Protocol.Init(timeout), s.trace, e);
    forall q: Proc ensures AllPublished(t, q) {
      assert AllPublished(s, q);
      MoveKeepsPublished(s, e, q);
    }
    if |t.protocol.answers| > |s.protocol.answers| {
      AnswerStepSound(cfg, timeout, s, e, detail);
    } else {
      forall q: Proc ensures Coupled(t, q) {
        assert Coupled(s, q);
        QuietStep(s.protocol, e, q);
      }
    }
  }

  lemma StartSound(cfg: Proc -> Config, timeout: nat)
    ensures Sound(cfg, timeout, Start(timeout))
  {
  }

  lemma {:induction false} RunSound(cfg: Proc -> Config, timeout: nat, actions: seq<Action>)
    ensures Sound(cfg, timeout, RunAll(cfg, timeout, actions))
  {
    hide Sound;
    if actions == [] {
      StartSound(cfg, timeout);
    } else {
      var n := |actions| - 1;
      var s := RunAll(cfg, timeout, actions[..n]);
      RunSound(cfg, timeout, actions[..n]);
      match actions[n]
      case Client(p, m) => ClientStepSound(cfg, timeout, s, p, m);
      case Eve(p, m) => EveStepSound(cfg, timeout, s, p, m);
      case World(e, detail) => if !e.Start? { WorldStepSound(cfg, timeout, s, e, detail); }
    }
  }

  // ------------------------------------------------------------ main theorems

  /** The delivery bound holds of every run of every number of adapters. */
  lemma SystemDeliveriesBounded(cfg: Proc -> Config, timeout: nat, actions: seq<Action>, k: string)
    ensures var s := RunAll(cfg, timeout, actions).protocol;
            Protocol.Deliveries(s, k) <= 1 + s.StaleRemovals(k) + s.LateCreates(k)
  {
    hide Protocol.Exec;
    RunSound(cfg, timeout, actions);
    Protocol.DeliveriesBounded(timeout, RunAll(cfg, timeout, actions).trace, k);
  }

  lemma {:induction false} PublishedStays(cfg: Proc -> Config, timeout: nat, actions: seq<Action>, later: seq<Action>,
      k: string)
    requires RunAll(cfg, timeout, actions).protocol.FilesOf(k).published
    ensures RunAll(cfg, timeout, actions + later).protocol.FilesOf(k).published
    decreases |later|
  {
    hide Advance;
    if later == [] {
      assert actions + later == actions;
    } else {
      var n := |later| - 1;
      assert (actions + later)[..|actions + later| - 1] == actions + later[..n];
      PublishedStays(cfg, timeout, actions, later[..n], k);
      var s := RunAll(cfg, timeout, actions + later[..n]);
      AdvanceKeepsPublished(cfg, s, later[n], k);
    }
  }

  lemma AdvanceKeepsPublished(cfg: Proc -> Config, s: System, a: Action, k: string)
    requires s.protocol.FilesOf(k).published
    ensures Advance(cfg, s, a).protocol.FilesOf(k).published
  {
    hide Protocol.Apply, Step;
    match a
    case Client(_, _) =>
    case Eve(p, m) =>
      var route := Feed(cfg, s, p, FromEve(m)).ProxyOf(p).phase;
      if route.Publishing? { Protocol.StepKeepsMarkers(s.protocol, Protocol.Start(p, PublicationKey(route.route)), k); }
    case World(e, _) => Protocol.StepKeepsMarkers(s.protocol, e, k);
  }

  /**
   In every run of any number of adapters, with crashes anywhere: if an adapter passed on a success for
   a reply that was due, then that reply's route was really posted and is published, in that state and in
   every later one.
   */
  lemma SuccessMeansPublished(cfg: Proc -> Config, timeout: nat, actions: seq<Action>, later: seq<Action>, p: Proc,
      x: Sent)
    returns (d: Due)
    requires var proxy := RunAll(cfg, timeout, actions).ProxyOf(p);
             x in proxy.toClient && x.Relayed? && x.message.error.None? && DueAt(proxy.due, x.at)
    ensures d in RunAll(cfg, timeout, actions).ProxyOf(p).due && d.at == x.at && d.route.Some?
    ensures RunAll(cfg, timeout, actions).protocol.FilesOf(PublicationKey(d.route.value)).published
    ensures RunAll(cfg, timeout, actions + later).protocol.FilesOf(PublicationKey(d.route.value)).published
    ensures Protocol.Deliveries(RunAll(cfg, timeout, actions).protocol, PublicationKey(d.route.value)) >= 1
  {
    hide Protocol.Exec, Protocol.Deliveries, RunAll, PublicationKey;
    var s := RunAll(cfg, timeout, actions);
    RunSound(cfg, timeout, actions);
    assert AllPublished(s, p);
    var i :| 0 <= i < |s.ProxyOf(p).toClient| && s.ProxyOf(p).toClient[i] == x;
    assert SuccessPublished(s, p, s.ProxyOf(p).toClient[i]);
    var j :| 0 <= j < |s.ProxyOf(p).due| && s.ProxyOf(p).due[j].at == x.at && s.ProxyOf(p).due[j].route.Some?
             && s.protocol.FilesOf(PublicationKey(s.ProxyOf(p).due[j].route.value)).published;
    d := s.ProxyOf(p).due[j];
    PublishedStays(cfg, timeout, actions, later, PublicationKey(d.route.value));
    Protocol.PublishedMeansDelivered(timeout, s.trace, PublicationKey(d.route.value));
  }

  /**
   The same read off the messages alone, for an adapter whose client does not reuse an id under a
   publication: a success passed on for the end of an open, uncancelled turn with text means that the
   route of that turn's prompt was posted and is published.
   */
  lemma EndOfTurnMeansPublished(cfg: Proc -> Config, timeout: nat, actions: seq<Action>, later: seq<Action>, p: Proc,
      x: Sent)
    requires ClashFree(cfg(p), RunAll(cfg, timeout, actions).InputsOf(p))
    requires var proxy := RunAll(cfg, timeout, actions).ProxyOf(p);
             x in proxy.toClient && x.Relayed? && x.message.error.None? && ShouldPublish(proxy.log, x.at)
    ensures var log := RunAll(cfg, timeout, actions).ProxyOf(p).log;
            var prompt := LastPrompt(log[..x.at], KeyForId(log[x.at].message.id));
            && prompt.Some? && log[prompt.value].FromClient?
            && var route := ParseRoute(log[prompt.value].message.PromptOf());
               && route.Some?
               && RunAll(cfg, timeout, actions + later).protocol.FilesOf(PublicationKey(route.value)).published
               && Protocol.Deliveries(RunAll(cfg, timeout, actions).protocol, PublicationKey(route.value)) >= 1
  {
    hide Protocol.Exec, Protocol.Deliveries, RunAll, PublicationKey, ParseRoute, KeyForId;
    var s := RunAll(cfg, timeout, actions);
    RunSound(cfg, timeout, actions);
    assert s.ProxyOf(p) == Run(cfg(p), s.InputsOf(p));
    DueIffShouldPublish(cfg(p), s.InputsOf(p), x.at);
    var d := SuccessMeansPublished(cfg, timeout, actions, later, p, x);
    RunMatches(cfg(p), s.InputsOf(p));
    assert DueMatches(s.ProxyOf(p).log, d);
    var i := LastPrompt(s.ProxyOf(p).log[..x.at], d.key).value;
    assert s.ProxyOf(p).log[..x.at][i] == s.ProxyOf(p).log[i];
  }

  predicate ActionBy(p: Proc, a: Action) {
    match a
    case Client(q, _) => q == p
    case Eve(q, _) => q == p
    case World(e, _) => Alone.By(p, e)
  }

  lemma {:induction false} TraceBy(cfg: Proc -> Config, timeout: nat, actions: seq<Action>, p: Proc)
    requires forall i :: 0 <= i < |actions| ==> ActionBy(p, actions[i])
    ensures Alone.OnlyBy(p, RunAll(cfg, timeout, actions).trace)
  {
    hide Protocol.Apply, Step;
    if actions != [] {
      TraceBy(cfg, timeout, actions[..|actions| - 1], p);
    }
  }

  /** One adapter alone on its directory posts for a key at most once, whatever its client and eve send. */
  lemma OneAdapterDeliversOnce(cfg: Proc -> Config, timeout: nat, actions: seq<Action>, p: Proc, k: string)
    requires forall i :: 0 <= i < |actions| ==> ActionBy(p, actions[i])
    ensures Protocol.Deliveries(RunAll(cfg, timeout, actions).protocol, k) <= 1
  {
    hide Protocol.Exec;
    RunSound(cfg, timeout, actions);
    TraceBy(cfg, timeout, actions, p);
    Alone.OneProcessDeliversOnce(timeout, RunAll(cfg, timeout, actions).trace, p, k);
  }
}
