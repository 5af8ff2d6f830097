/**
 Where the publisher meets the lock protocol. A CLI is honest if it accepts only what it posted, refuses
 only what it will never post, and posts nothing before it starts. Then every outcome the publisher
 settles on is a step of the protocol, and what it claims stays true.
 */
module HonestCli {
  import opened Wrappers
  import opened PublicationProtocol
  import P = Publisher

  /** The answer of a CLI that closed with uncut output. */
  function AnswerAt(parse: P.Parser, es: seq<P.Event>, i: nat): Option<P.Response>
    requires i < |es|
  {
    var output := P.Gather(P.StdoutOf(es[..i]));
    if es[i].Closed? && !output.overflow then P.ParseResponse(parse(output.text)) else None
  }

  /** The events of a publisher run fit what really became of the message. */
  predicate Honest(parse: P.Parser, es: seq<P.Event>, fate: Cli) {
    forall i :: 0 <= i < |es| && P.FirstSettles(es, i) ==>
      var answer := AnswerAt(parse, es, i);
      && (answer.Some? && answer.value.Accepted? ==> fate == Delivered)
      && (answer == Some(P.Refused) ==> fate == Barred)
      && (es[i].Errored? && P.Spawned !in es[..i] ==> fate == Barred)
  }

  function ReportOf(o: P.Outcome): Report {
    match o
    case Delivered(_) => ReportDelivered
    case NotDelivered => ReportNotDelivered
    case Unknown => ReportUnknown
  }

  /** Where the publish sequence goes on after an outcome, proxy.ts:204-212. */
  function After(o: P.Outcome, k: Key, a: nat): Pc {
    match o
    case Delivered(_) => Committing(k, a)
    case NotDelivered => Releasing(k, a)
    case Unknown => MarkingUnknown(k, a)
  }

  /** What an outcome claims about the message is so. */
  predicate Claims(o: P.Outcome, fate: Cli) {
    match o
    case Delivered(_) => fate == Delivered
    case NotDelivered => fate == Barred
    case Unknown => true
  }

  lemma OutcomeIsTrue(parse: P.Parser, es: seq<P.Event>, fate: Cli)
    requires Honest(parse, es, fate) && P.Run(parse, es).outcome.Some?
    ensures Claims(P.Run(parse, es).outcome.value, fate)
  {
    hide P.Run, P.Gather, P.StdoutOf, P.ParseResponse;
    P.SettledIff(parse, es);
    var j :| 0 <= j < |es| && P.Settles(es[j]);
    var i := P.FirstSettling(es, j);
    P.SettledByTheFirst(parse, es, i);
  }

  /** With an honest CLI, whatever the publisher settles on is a step that the protocol allows. */
  lemma OutcomeEnablesSettle(parse: P.Parser, es: seq<P.Event>, s: State, p: Proc)
    requires s.PcOf(p).Publishing? && s.PcOf(p).attempt < |s.attempts|
    requires Honest(parse, es, s.attempts[s.PcOf(p).attempt].cli) && P.Run(parse, es).outcome.Some?
    ensures var o := P.Run(parse, es).outcome.value;
            Apply(s, Settle(p, ReportOf(o))) == s.Goto(p, After(o, s.PcOf(p).key, s.PcOf(p).attempt))
  {
    hide P.Run, Honest;
    OutcomeIsTrue(parse, es, s.attempts[s.PcOf(p).attempt].cli);
  }

  predicate Decided(c: Cli) { c == Barred || c == Delivered }

  lemma StepKeepsFate(s: State, e: Event, a: nat)
    requires Structure(s) && a < |s.attempts|
    ensures a < |Apply(s, e).attempts|
        && (Decided(s.attempts[a].cli) ==> Apply(s, e).attempts[a].cli == s.attempts[a].cli)
  {
    match e
    case FileOp(p) => FileOpKeepsFate(s, p, a);
    case Spawn(p) => assert PcOk(s, p);
    case _ =>
  }

  lemma FileOpKeepsFate(s: State, p: Proc, a: nat)
    requires a < |s.attempts|
    ensures a < |DoFileOp(s, p).attempts| && DoFileOp(s, p).attempts[a].cli == s.attempts[a].cli
  {
    match s.PcOf(p)
    case CreateLock(_) =>
    case WriteLock(_, _) =>
    case RemoveStale(_, _) =>
    case Committing(_, _) =>
    case MarkingUnknown(_, _) =>
    case Releasing(_, _) =>
    case _ =>
  }

  /** Once a message is posted, or certain never to be, that never changes. */
  lemma {:induction false} FateStays(timeout: nat, es: seq<Event>, later: seq<Event>, a: nat)
    requires a < |Exec(Init(timeout), es).attempts|
    ensures var fate := Exec(Init(timeout), es).attempts[a].cli;
            var now := Exec(Init(timeout), es + later);
            a < |now.attempts| && (Decided(fate) ==> now.attempts[a].cli == fate)
    decreases |later|
  {
    hide Apply, Structure;
    if later == [] {
      assert es + later == es;
    } else {
      var n := |later| - 1;
      assert (es + later)[..|es + later| - 1] == es + later[..n];
      FateStays(timeout, es, later[..n], a);
      RunKeepsInvariant(timeout, es + later[..n], "");
      StepKeepsFate(Exec(Init(timeout), es + later[..n]), later[n], a);
    }
  }

  /**
   In a run of the protocol, a settled outcome of an honest CLI is true then and in every later state:
   delivered means posted for good, not delivered means never posted.
   */
  lemma OutcomeStaysTrue(parse: P.Parser, heard: seq<P.Event>, timeout: nat, es: seq<Event>, later: seq<Event>, a: nat)
    requires a < |Exec(Init(timeout), es).attempts|
    requires Honest(parse, heard, Exec(Init(timeout), es).attempts[a].cli) && P.Run(parse, heard).outcome.Some?
    ensures var now := Exec(Init(timeout), es + later);
            a < |now.attempts| && Claims(P.Run(parse, heard).outcome.value, now.attempts[a].cli)
  {
    hide P.Run, Honest, Exec;
    OutcomeIsTrue(parse, heard, Exec(Init(timeout), es).attempts[a].cli);
    FateStays(timeout, es, later, a);
  }
}
