/**
 The aggregation of benchmark results into rows and, inside a row, cases. Arithmetic is over the reals.
 */
module BenchmarkResults {
  import opened Wrappers
  import opened Sequences
  import opened Sorting

  datatype Treatment = Baseline | Guided
  datatype Status = Current | Missing | Stale

  datatype Experiment =
    Experiment(id: string, groupId: string, modelDisplayName: string, harness: string, treatment: Treatment)

  datatype Measure = Measure(
    experimentId: string,
    caseId: string,
    status: Status,
    passedRuns: Option<int>,
    validRuns: Option<int>,
    durationMs: Option<real>,
    costUsd: Option<real>,
    tokens: Option<real>,
    toolInvocations: Option<real>,
    measuredAt: Option<string>)

  datatype Published = Published(caseCount: int, runsPerCell: int, experiments: seq<Experiment>, results: seq<Measure>)

  datatype CaseRow = CaseRow(
    caseId: string,
    durationMs: Option<real>,
    tokens: Option<real>,
    toolInvocations: Option<real>,
    baselineSuccessRate: Option<real>,
    guidedSuccessRate: Option<real>)

  datatype Row = Row(
    groupId: string,
    modelDisplayName: string,
    harness: string,
    durationMs: Option<real>,
    costUsd: Option<real>,
    baselineSuccessRate: Option<real>,
    guidedSuccessRate: Option<real>,
    latestMeasuredAt: Option<string>,
    cases: seq<CaseRow>)

  // ------------------------------------------------------------ sums and averages

  function Sum<T>(xs: seq<T>, f: T -> real): real {
    if xs == [] then 0.0 else f(xs[0]) + Sum(xs[1..], f)
  }

  function OrZero(x: Option<real>): real { if x.Some? then x.value else 0.0 }

  type Metric = Measure -> Option<real>

  /** Both the run count and the metric are there. */
  function Has(metric: Metric): Measure -> bool { (r: Measure) => r.validRuns.Some? && metric(r).Some? }

  /** The share of one result in a weighted average; a result without the metric has none. */
  function Weight(metric: Metric): Measure -> real {
    (r: Measure) => if Has(metric)(r) then r.validRuns.value as real else 0.0
  }

  function Weighted(metric: Metric): Measure -> real {
    (r: Measure) => if Has(metric)(r) then metric(r).value * r.validRuns.value as real else 0.0
  }

  /** Lines 174-187. */
  function WeightedAverage(results: seq<Measure>, metric: Metric): Option<real> {
    var measured := Filter(results, Has(metric));
    var validRuns := Sum(measured, Weight(metric));
    if validRuns == 0.0 then None else Some(Sum(measured, Weighted(metric)) / validRuns)
  }

  function Passed(id: string): Measure -> real {
    (r: Measure) => if r.experimentId == id && r.passedRuns.Some? then r.passedRuns.value as real else 0.0
  }

  /** Lines 150-160. */
  function SuccessRate(results: seq<Measure>, id: string, expectedRuns: int): Option<real> {
    if expectedRuns == 0 then None else Some(Sum(results, Passed(id)) / expectedRuns as real * 100.0)
  }

  // ------------------------------------------------------------ rows

  function Duration(): Metric { (r: Measure) => r.durationMs }
  function Tokens(): Metric { (r: Measure) => r.tokens }
  function Tools(): Metric { (r: Measure) => r.toolInvocations }

  predicate IsMeasured(r: Measure) { !r.status.Missing? && r.validRuns.Some? && r.durationMs.Some? }

  function OfCase(c: string): Measure -> bool { (r: Measure) => r.caseId == c }
  function OfExperiment(id: string): Measure -> bool { (r: Measure) => r.experimentId == id }

  function First<T>(xs: seq<T>, f: T -> bool): Option<T> {
    if xs == [] then None else if f(xs[0]) then Some(xs[0]) else First(xs[1..], f)
  }

  /** Lines 111-126: a case without results of a treatment has no rate for it. */
  function CaseRate(caseResults: seq<Measure>, experiment: Option<Experiment>, runsPerCell: int): Option<real> {
    if experiment.None? then None
    else
      var own := Filter(caseResults, OfExperiment(experiment.value.id));
      if own == [] then None else SuccessRate(own, experiment.value.id, runsPerCell)
  }

  function MakeCase(measured: seq<Measure>, baseline: Option<Experiment>, guided: Option<Experiment>,
      runsPerCell: int, c: string): CaseRow {
    var caseResults := Filter(measured, OfCase(c));
    CaseRow(c, WeightedAverage(caseResults, Duration()), WeightedAverage(caseResults, Tokens()),
        WeightedAverage(caseResults, Tools()),
            CaseRate(caseResults, baseline, runsPerCell), CaseRate(caseResults, guided, runsPerCell))
  }

  function CostOf(r: Measure): seq<real> { if r.costUsd.Some? then [r.costUsd.value] else [] }
  function DateOf(r: Measure): seq<string> { if r.measuredAt.Some? then [r.measuredAt.value] else [] }
  function CaseIdOf(r: Measure): seq<string> { [r.caseId] }
  predicate IsBaseline(e: Experiment) { e.treatment.Baseline? }
  predicate IsGuided(e: Experiment) { e.treatment.Guided? }

  function Itself(x: real): real { x }

  function AverageCost(results: seq<Measure>): Option<real> {
    var costs := FlatMap(results, CostOf);
    if costs == [] then None else Some(Sum(costs, Itself) / |costs| as real)
  }

  predicate StringLe(a: string, b: string) {
    a == "" || (b != "" && (a[0] < b[0] || (a[0] == b[0] && StringLe(a[1..], b[1..]))))
  }

  function CaseIds(groupResults: seq<Measure>): seq<string> {
    Sort(Distinct(FlatMap(groupResults, CaseIdOf)), StringLe)
  }

  function OfEither(baseline: Option<Experiment>, guided: Option<Experiment>): Measure -> bool {
    (r: Measure) =>
      (baseline.Some? && baseline.value.id == r.experimentId) || (guided.Some? && guided.value.id == r.experimentId)
  }

  function GroupResults(data: Published, experiments: seq<Experiment>): seq<Measure> {
    Filter(data.results, OfEither(First(experiments, IsBaseline), First(experiments, IsGuided)))
  }

  /** The results a row is made of. */
  function MeasuredOf(data: Published, experiments: seq<Experiment>): seq<Measure> {
    Filter(GroupResults(data, experiments), IsMeasured)
  }

  /** Lines 75-130, for the experiments of one group. */
  function MakeRow(data: Published, groupId: string, experiments: seq<Experiment>): Row
    requires experiments != []
  {
    var baseline, guided := First(experiments, IsBaseline), First(experiments, IsGuided);
    var groupResults := GroupResults(data, experiments);
    var measured := Filter(groupResults, IsMeasured);
    var expectedRuns := data.caseCount * data.runsPerCell;
    var named := if baseline.Some? then baseline.value else if guided.Some? then guided.value else experiments[0];
    var dates := Sort(FlatMap(measured, DateOf), StringLe);
    Row(groupId, named.modelDisplayName, named.harness,
        WeightedAverage(measured, Duration()), AverageCost(measured),
        if baseline.Some? then SuccessRate(measured, baseline.value.id, expectedRuns) else None,
        if guided.Some? then SuccessRate(measured, guided.value.id, expectedRuns) else None,
        if dates == [] then None else Some(dates[|dates| - 1]),
        MapCases(measured, baseline, guided, data.runsPerCell, CaseIds(groupResults)))
  }

  function MapCases(measured: seq<Measure>, baseline: Option<Experiment>, guided: Option<Experiment>,
      runsPerCell: int, ids: seq<string>): (r: seq<CaseRow>)
    ensures |r| == |ids|
    ensures forall i :: 0 <= i < |ids| ==> r[i] == MakeCase(measured, baseline, guided, runsPerCell, ids[i])
  {
    seq(|ids|, (i: nat) requires i < |ids| => MakeCase(measured, baseline, guided, runsPerCell, ids[i]))
  }

  function InGroup(g: string): Experiment -> bool { (e: Experiment) => e.groupId == g }
  function GroupIdOf(e: Experiment): seq<string> { [e.groupId] }

  /** Lines 74-130: one row for every group, in the order of first appearance. */
  function MakeRows(data: Published, groups: seq<string>): seq<Row>
  {
    if groups == [] then []
    else
      var experiments := Filter(data.experiments, InGroup(groups[0]));
      (if experiments == [] then [] else [MakeRow(data, groups[0], experiments)]) + MakeRows(data, groups[1..])
  }

  function Groups(data: Published): seq<string> { Distinct(FlatMap(data.experiments, GroupIdOf)) }

  // ------------------------------------------------------------ the order of the rows

  /** `Date.parse` of a row's latest date: minus infinity without one, NaN for text that is no date. */
  datatype Stamp = NoStamp | At(millis: int) | Unparsable

  type DateParser = string -> Stamp

  function StampOf(parse: DateParser, row: Row): Stamp {
    if row.latestMeasuredAt.None? then NoStamp else parse(row.latestMeasuredAt.value)
  }

  /** The sign of `descending(higher, lower)`; the difference of two infinities is NaN, which counts as zero. */
  function Descending(higher: Option<real>, lower: Option<real>): int {
    if higher.None? then (if lower.None? then 0 else -1)
    else if lower.None? || higher.value > lower.value then 1
    else if higher.value < lower.value then -1
    else 0
  }

  function Later(right: Stamp, left: Stamp): int {
    match (right, left)
    case (Unparsable, _) => 0
    case (_, Unparsable) => 0
    case (NoStamp, NoStamp) => 0
    case (NoStamp, At(_)) => -1
    case (At(_), NoStamp) => 1
    case (At(a), At(b)) => if a > b then 1 else if a < b then -1 else 0
  }

  /** Lines 131-136: the sign of the comparator. */
  function Compare(parse: DateParser, left: Row, right: Row): int {
    var byBaseline := Descending(right.baselineSuccessRate, left.baselineSuccessRate);
    var byGuided := Descending(right.guidedSuccessRate, left.guidedSuccessRate);
    if byBaseline != 0 then byBaseline
    else if byGuided != 0 then byGuided
    else Later(StampOf(parse, right), StampOf(parse, left))
  }

  function NotAfter(parse: DateParser): (Row, Row) -> bool { (a: Row, b: Row) => Compare(parse, a, b) <= 0 }

  /** Lines 73-137. */
  function BenchmarkRows(parse: DateParser, data: Published): seq<Row> {
    Sort(MakeRows(data, Groups(data)), NotAfter(parse))
  }

  /**
   The comparator chains through a row, whatever rows stand on both sides, exactly when that row's date
   can be parsed (or is missing). An unparsable date is equal to every other and breaks the chain.
   */
  lemma ComparatorChainsIff(parse: DateParser, b: Row)
    requires exists early, late :: parse(early).At? && parse(late).At? && parse(early).millis < parse(late).millis
    ensures (forall a, c :: Compare(parse, a, b) <= 0 && Compare(parse, b, c) <= 0 ==> Compare(parse, a, c) <= 0)
            <==> !StampOf(parse, b).Unparsable?
  {
    if StampOf(parse, b).Unparsable? {
      var early, late :| parse(early).At? && parse(late).At? && parse(early).millis < parse(late).millis;
      var a, c := b.(latestMeasuredAt := Some(early)), b.(latestMeasuredAt := Some(late));
      assert Compare(parse, a, b) <= 0 && Compare(parse, b, c) <= 0 && Compare(parse, a, c) > 0;
    } else {
      forall a, c | Compare(parse, a, b) <= 0 && Compare(parse, b, c) <= 0 ensures Compare(parse, a, c) <= 0 {
        Chains(parse, a, b, c);
      }
    }
  }

  lemma Chains(parse: DateParser, a: Row, b: Row, c: Row)
    requires !StampOf(parse, b).Unparsable? && Compare(parse, a, b) <= 0 && Compare(parse, b, c) <= 0
    ensures Compare(parse, a, c) <= 0
  {
  }

  /** The rows are those of the groups, each once, and no row stands before one it should follow. */
  lemma RowsAreSorted(parse: DateParser, data: Published)
    requires forall row :: row in MakeRows(data, Groups(data)) ==> !StampOf(parse, row).Unparsable?
    ensures var rows := BenchmarkRows(parse, data);
            && multiset(rows) == multiset(MakeRows(data, Groups(data)))
            && forall i, j :: 0 <= i < j < |rows| ==> Compare(parse, rows[i], rows[j]) <= 0
  {
    hide Compare, MakeRows, Groups;
    var made := MakeRows(data, Groups(data));
    var le := NotAfter(parse);
    SortPermutes(made, le);
    forall x, y | x in made && y in made ensures le(x, y) || le(y, x) {
      Related(parse, x, y);
    }
    forall x, y, z | x in made && y in made && z in made && le(x, y) && le(y, z) ensures le(x, z) {
      Chains(parse, x, y, z);
    }
    SortSorts(made, le);
  }

  lemma Related(parse: DateParser, a: Row, b: Row)
    ensures Compare(parse, a, b) == 0 - Compare(parse, b, a)
  {
  }

  predicate Above(x: Option<real>, y: Option<real>) { x.Some? && (y.None? || x.value > y.value) }

  predicate After(x: Stamp, y: Stamp) { x.At? && (y.NoStamp? || (y.At? && x.millis > y.millis)) }

  /** Higher baseline rate first, then higher guided rate, then later date; what is missing stands last. */
  predicate StandsBefore(parse: DateParser, a: Row, b: Row) {
    || Above(a.baselineSuccessRate, b.baselineSuccessRate)
    || (a.baselineSuccessRate == b.baselineSuccessRate
        && (|| Above(a.guidedSuccessRate, b.guidedSuccessRate)
            || (a.guidedSuccessRate == b.guidedSuccessRate && !After(StampOf(parse, b), StampOf(parse, a)))))
  }

  /** The comparator's chain of differences, with its infinities, is that lexicographic order. */
  lemma OrderIsLexicographic(parse: DateParser, a: Row, b: Row)
    ensures Compare(parse, a, b) <= 0 <==> StandsBefore(parse, a, b)
  {
  }

  lemma {:induction false} MembersPassFilter<T>(xs: seq<T>, f: T -> bool, x: T)
    requires x in xs && f(x)
    ensures x in Filter(xs, f)
  {
    if xs[0] != x {
      assert xs == [xs[0]] + xs[1..];
      MembersPassFilter(xs[1..], f, x);
    }
  }

  ghost predicate HasExperiment(data: Published, g: string) { exists e :: e in data.experiments && e.groupId == g }

  lemma {:induction false} OneRowEach(data: Published, groups: seq<string>)
    requires forall g :: g in groups ==> HasExperiment(data, g)
    ensures |MakeRows(data, groups)| == |groups|
    ensures forall i :: 0 <= i < |groups| ==>
              var own := Filter(data.experiments, InGroup(groups[i]));
              own != [] && MakeRows(data, groups)[i] == MakeRow(data, groups[i], own)
  {
    hide MakeRow;
    if groups != [] {
      assert HasExperiment(data, groups[0]);
      var e :| e in data.experiments && e.groupId == groups[0];
      MembersPassFilter(data.experiments, InGroup(groups[0]), e);
      assert forall g :: g in groups[1..] ==> g in groups;
      OneRowEach(data, groups[1..]);
    }
  }

  lemma {:induction false} GroupIdsListed(es: seq<Experiment>, g: string)
    ensures g in FlatMap(es, GroupIdOf) <==> exists e :: e in es && e.groupId == g
  {
    if es != [] {
      GroupIdsListed(es[1..], g);
      assert es == [es[0]] + es[1..];
    }
  }

  /** Before sorting there is exactly one row for every group id that occurs, made of all the group's experiments. */
  lemma OneRowPerGroup(data: Published)
    ensures var groups := Groups(data);
            && (forall g :: g in groups <==> HasExperiment(data, g))
            && (forall i, j :: 0 <= i < j < |groups| ==> groups[i] != groups[j])
            && |MakeRows(data, groups)| == |groups|
            && forall i :: 0 <= i < |groups| ==>
                 var own := Filter(data.experiments, InGroup(groups[i]));
                 own != [] && MakeRows(data, groups)[i] == MakeRow(data, groups[i], own)
  {
    hide MakeRow, MakeRows;
    var groups := Groups(data);
    forall g ensures g in groups <==> HasExperiment(data, g) {
      GroupIdsListed(data.experiments, g);
    }
    OneRowEach(data, groups);
  }

  // ------------------------------------------------------------ the two levels agree

  lemma {:induction false} FilterNone<T>(xs: seq<T>, f: T -> bool, g: T -> real)
    requires forall x :: x in xs && !f(x) ==> g(x) == 0.0
    ensures Sum(Filter(xs, f), g) == Sum(xs, g)
  {
    if xs != [] {
      FilterNone(xs[1..], f, g);
      if f(xs[0]) {
        assert Filter(xs, f)[1..] == Filter(xs[1..], f);
      } else {
        assert Filter(xs, f) == Filter(xs[1..], f) && xs[0] in xs;
      }
    }
  }

  function CaseSum(xs: seq<Measure>, g: Measure -> real): string -> real {
    (c: string) => Sum(Filter(xs, OfCase(c)), g)
  }

  predicate NoRepeats(cs: seq<string>) { forall i, j :: 0 <= i < j < |cs| ==> cs[i] != cs[j] }

  lemma {:induction false} SumZero(cs: seq<string>, g: string -> real)
    requires forall c :: c in cs ==> g(c) == 0.0
    ensures Sum(cs, g) == 0.0
  {
    if cs != [] { SumZero(cs[1..], g); }
  }

  /** Adding one result changes the sum of its own case and of no other. */
  lemma {:induction false} OneResultMore(x: Measure, xs: seq<Measure>, cs: seq<string>, g: Measure -> real)
    requires NoRepeats(cs)
    ensures Sum(cs, CaseSum([x] + xs, g)) == Sum(cs, CaseSum(xs, g)) + (if x.caseId in cs then g(x) else 0.0)
  {
    if cs != [] {
      OneResultMore(x, xs, cs[1..], g);
      assert ([x] + xs)[1..] == xs;
      var own := Filter([x] + xs, OfCase(cs[0]));
      if x.caseId == cs[0] {
        assert own == [x] + Filter(xs, OfCase(cs[0]));
        assert own[1..] == Filter(xs, OfCase(cs[0]));
        assert x.caseId !in cs[1..];
      } else {
        assert own == Filter(xs, OfCase(cs[0]));
      }
    }
  }

  /** A sum over results is the sum over the cases of their sums. */
  lemma {:induction false} SumByCase(xs: seq<Measure>, cs: seq<string>, g: Measure -> real)
    requires NoRepeats(cs) && forall x :: x in xs ==> x.caseId in cs
    ensures Sum(xs, g) == Sum(cs, CaseSum(xs, g))
  {
    if xs == [] {
      SumZero(cs, CaseSum(xs, g));
    } else {
      SumByCase(xs[1..], cs, g);
      OneResultMore(xs[0], xs[1..], cs, g);
      assert xs == [xs[0]] + xs[1..];
    }
  }

  predicate NonNegativeRuns(xs: seq<Measure>) { forall x :: x in xs && x.validRuns.Some? ==> x.validRuns.value >= 0 }

  lemma {:induction false} FilterWithin<T>(xs: seq<T>, f: T -> bool)
    ensures forall x :: x in Filter(xs, f) <==> x in xs && f(x)
  {
    if xs != [] {
      FilterWithin(xs[1..], f);
      assert xs == [xs[0]] + xs[1..];
    }
  }

  /** With no runs there is nothing to average. */
  lemma {:induction false} NoRunsNoTotal(xs: seq<Measure>, metric: Metric)
    requires NonNegativeRuns(xs)
    ensures Sum(xs, Weight(metric)) >= 0.0
    ensures Sum(xs, Weight(metric)) == 0.0 ==> Sum(xs, Weighted(metric)) == 0.0
  {
    if xs != [] {
      assert NonNegativeRuns(xs[1..]);
      NoRunsNoTotal(xs[1..], metric);
      assert xs[0] in xs && (Has(metric)(xs[0]) ==> xs[0].validRuns.value >= 0);
    }
  }

  /** An average times its runs is the total it was made of. */
  lemma AverageTimesRuns(xs: seq<Measure>, metric: Metric)
    requires NonNegativeRuns(xs)
    ensures OrZero(WeightedAverage(xs, metric)) * Sum(xs, Weight(metric)) == Sum(xs, Weighted(metric))
  {
    hide Sum, Filter;
    FilterNone(xs, Has(metric), Weight(metric));
    FilterNone(xs, Has(metric), Weighted(metric));
    NoRunsNoTotal(xs, metric);
    var runs, total := Sum(xs, Weight(metric)), Sum(xs, Weighted(metric));
    if runs != 0.0 { Quotient(total, runs); }
  }

  lemma Quotient(total: real, runs: real)
    requires runs != 0.0
    ensures total / runs * runs == total
  {
  }

  /** The run-weighted case averages. */
  function CaseShare(xs: seq<Measure>, metric: Metric): string -> real {
    (c: string) => OrZero(WeightedAverage(Filter(xs, OfCase(c)), metric)) * Sum(Filter(xs, OfCase(c)), Weight(metric))
  }

  lemma {:induction false} SumPointwise(cs: seq<string>, f: string -> real, g: string -> real)
    requires forall c :: c in cs ==> f(c) == g(c)
    ensures Sum(cs, f) == Sum(cs, g)
  {
    if cs != [] { SumPointwise(cs[1..], f, g); }
  }

  /**
   A row's average is the run-weighted recombination of its cases' averages: weighting each case's average
   by that case's runs and adding up gives the row's average times all its runs, null counting as zero.
   */
  lemma AveragesRecombine(xs: seq<Measure>, cs: seq<string>, metric: Metric)
    requires NonNegativeRuns(xs) && NoRepeats(cs) && forall x :: x in xs ==> x.caseId in cs
    ensures Sum(xs, Weight(metric)) == Sum(cs, CaseSum(xs, Weight(metric)))
    ensures OrZero(WeightedAverage(xs, metric)) * Sum(xs, Weight(metric)) == Sum(cs, CaseShare(xs, metric))
  {
    hide Sum, Filter, WeightedAverage;
    SumByCase(xs, cs, Weight(metric));
    SumByCase(xs, cs, Weighted(metric));
    AverageTimesRuns(xs, metric);
    forall c | c in cs ensures CaseSum(xs, Weighted(metric))(c) == CaseShare(xs, metric)(c) {
      FilterWithin(xs, OfCase(c));
      AverageTimesRuns(Filter(xs, OfCase(c)), metric);
    }
    SumPointwise(cs, CaseSum(xs, Weighted(metric)), CaseShare(xs, metric));
  }

  /** The rates of a row's cases for one experiment, null counting as zero. */
  function RateOfCase(xs: seq<Measure>, experiment: Experiment, runsPerCell: int): string -> real {
    (c: string) => OrZero(CaseRate(Filter(xs, OfCase(c)), Some(experiment), runsPerCell))
  }

  lemma {:induction false} SumScaled(cs: seq<string>, f: string -> real, g: string -> real, k: real)
    requires forall c :: c in cs ==> f(c) == g(c) * k
    ensures Sum(cs, f) == Sum(cs, g) * k
  {
    if cs != [] { SumScaled(cs[1..], f, g, k); }
  }

  lemma Proportion(total: real, cases: int, runs: int)
    requires cases != 0 && runs != 0
    ensures cases * runs != 0
    ensures total / (cases * runs) as real * 100.0 * cases as real == total * (100.0 / runs as real)
  {
    var c, r := cases as real, runs as real;
    assert (cases * runs) as real == c * r;
    assert c * r != 0.0;
    assert total / (c * r) * c == total / r;
  }

  /** A case's rate is its passed runs over the runs per cell; a case without results has none of either. */
  lemma CaseRateIsShare(own: seq<Measure>, experiment: Experiment, runsPerCell: int)
    requires runsPerCell != 0
    ensures OrZero(CaseRate(own, Some(experiment), runsPerCell))
        == Sum(own, Passed(experiment.id)) * (100.0 / runsPerCell as real)
  {
    hide Filter, Sum;
    FilterNone(own, OfExperiment(experiment.id), Passed(experiment.id));
    var r := runsPerCell as real;
    var passed := Sum(own, Passed(experiment.id));
    Rescale(passed, r);
    if Filter(own, OfExperiment(experiment.id)) == [] {
      NothingPassed(experiment.id);
    }
  }

  lemma NothingPassed(id: string)
    ensures Sum([], Passed(id)) == 0.0
  {
  }

  lemma Regroup(a: real, b: real, r: real)
    ensures a * (b * r) == (a * r) * b
  {
  }

  lemma Rescale(x: real, r: real)
    requires r != 0.0
    ensures x / r * 100.0 == x * (100.0 / r)
  {
    Quotient(x, r);
    Quotient(100.0, r);
    var a, b := x / r, 100.0 / r;
    assert b * r == 100.0 && a * r == x;
    Regroup(a, b, r);
  }

  /** A row's success rate times the number of cases is the sum of its cases' rates. */
  lemma RatesRecombine(xs: seq<Measure>, cs: seq<string>, experiment: Experiment, caseCount: int, runsPerCell: int)
    requires caseCount != 0 && runsPerCell != 0
    requires NoRepeats(cs) && forall x :: x in xs ==> x.caseId in cs
    ensures OrZero(SuccessRate(xs, experiment.id, caseCount * runsPerCell)) * caseCount as real
         == Sum(cs, RateOfCase(xs, experiment, runsPerCell))
  {
    hide Sum, Filter, CaseRate;
    var id := experiment.id;
    SumByCase(xs, cs, Passed(id));
    var k := 100.0 / runsPerCell as real;
    forall c | c in cs ensures RateOfCase(xs, experiment, runsPerCell)(c) == CaseSum(xs, Passed(id))(c) * k {
      CaseRateIsShare(Filter(xs, OfCase(c)), experiment, runsPerCell);
    }
    SumScaled(cs, RateOfCase(xs, experiment, runsPerCell), CaseSum(xs, Passed(id)), k);
    Proportion(Sum(xs, Passed(id)), caseCount, runsPerCell);
  }

  /** The value lies between low and high times the weight. */
  predicate Within(low: real, high: real, weight: real, value: real) { low * weight <= value <= high * weight }

  lemma Bounded(low: real, x: real, high: real, w: real)
    requires low <= x <= high && w >= 0.0
    ensures Within(low, high, w, x * w)
  {
  }

  lemma {:induction false} WeightedWithin(xs: seq<Measure>, metric: Metric, low: real, high: real)
    requires NonNegativeRuns(xs)
    requires forall x :: x in xs && Has(metric)(x) ==> low <= metric(x).value <= high
    ensures Within(low, high, Sum(xs, Weight(metric)), Sum(xs, Weighted(metric)))
  {
    if xs != [] {
      hide Sum, Within;
      var x, rest := xs[0], xs[1..];
      assert x in xs && forall y :: y in rest ==> y in xs;
      WeightedWithin(rest, metric, low, high);
      SumCons(xs, Weight(metric));
      SumCons(xs, Weighted(metric));
      OneWithin(x, metric, low, high);
      OneMoreWithin(low, high, Weight(metric)(x), Weighted(metric)(x), Sum(rest, Weight(metric)),
          Sum(rest, Weighted(metric)));
    }
  }

  lemma SumCons<T>(xs: seq<T>, f: T -> real)
    requires xs != []
    ensures Sum(xs, f) == f(xs[0]) + Sum(xs[1..], f)
  {
  }

  lemma OneWithin(x: Measure, metric: Metric, low: real, high: real)
    requires x.validRuns.Some? ==> x.validRuns.value >= 0
    requires Has(metric)(x) ==> low <= metric(x).value <= high
    ensures Within(low, high, Weight(metric)(x), Weighted(metric)(x))
  {
    if Has(metric)(x) {
      Bounded(low, metric(x).value, high, Weight(metric)(x));
    }
  }

  lemma OneMoreWithin(low: real, high: real, w: real, v: real, ws: real, vs: real)
    requires Within(low, high, w, v) && Within(low, high, ws, vs)
    ensures Within(low, high, w + ws, v + vs)
  {
    Distribute(low, w, ws);
    Distribute(high, w, ws);
  }

  lemma Distribute(k: real, a: real, b: real)
    ensures k * (a + b) == k * a + k * b
  {
  }

  /**
   Every weighted average lies between any bounds that hold for all its inputs, so between the least
   and the greatest.
   */
  lemma AverageLiesBetween(xs: seq<Measure>, metric: Metric, low: real, high: real)
    requires NonNegativeRuns(xs) && WeightedAverage(xs, metric).Some?
    requires forall x :: x in xs && Has(metric)(x) ==> low <= metric(x).value <= high
    ensures low <= WeightedAverage(xs, metric).value <= high
  {
    hide Sum, Filter;
    FilterNone(xs, Has(metric), Weight(metric));
    FilterNone(xs, Has(metric), Weighted(metric));
    WeightedWithin(xs, metric, low, high);
    NoRunsNoTotal(xs, metric);
    var runs, total := Sum(xs, Weight(metric)), Sum(xs, Weighted(metric));
    Quotient(total, runs);
    Cancel(low, total / runs, runs);
    Cancel(total / runs, high, runs);
  }

  lemma Cancel(a: real, b: real, c: real)
    requires c > 0.0 && a * c <= b * c
    ensures a <= b
  {
    assert (b - a) * c >= 0.0;
  }

  // ------------------------------------------------------------ whole rows

  /** The results of one of a row's cases. */
  function CaseRuns(measured: seq<Measure>, metric: Metric): CaseRow -> real {
    (c: CaseRow) => Sum(Filter(measured, OfCase(c.caseId)), Weight(metric))
  }

  function DurationShare(measured: seq<Measure>): CaseRow -> real {
    (c: CaseRow) => OrZero(c.durationMs) * CaseRuns(measured, Duration())(c)
  }

  function BaselineRate(c: CaseRow): real { OrZero(c.baselineSuccessRate) }
  function GuidedRate(c: CaseRow): real { OrZero(c.guidedSuccessRate) }

  lemma {:induction false} SumOverCases(ids: seq<string>, cases: seq<CaseRow>, f: string -> real, g: CaseRow -> real)
    requires |ids| == |cases| && forall i :: 0 <= i < |ids| ==> f(ids[i]) == g(cases[i])
    ensures Sum(ids, f) == Sum(cases, g)
  {
    if ids != [] { SumOverCases(ids[1..], cases[1..], f, g); }
  }

  lemma {:induction false} CaseIdsListed(rs: seq<Measure>)
    ensures forall x :: x in rs ==> x.caseId in FlatMap(rs, CaseIdOf)
  {
    if rs != [] {
      CaseIdsListed(rs[1..]);
      assert rs == [rs[0]] + rs[1..];
    }
  }

  lemma NoRepeatsOfPermutation(xs: seq<string>, ys: seq<string>)
    requires NoRepeats(xs) && multiset(xs) == multiset(ys)
    ensures NoRepeats(ys)
  {
    CountedOnce(xs);
    OnceEach(ys);
  }

  lemma {:induction false} OnceEach(ys: seq<string>)
    requires forall y :: y in multiset(ys) ==> multiset(ys)[y] == 1
    ensures NoRepeats(ys)
  {
    if ys != [] {
      var t := ys[1..];
      assert ys == [ys[0]] + t;
      assert multiset(ys) == multiset{ys[0]} + multiset(t);
      assert ys[0] in multiset(ys) && multiset(t)[ys[0]] == 0;
      assert ys[0] !in t;
      forall y | y in multiset(t) ensures multiset(t)[y] == 1 {
        assert y in multiset(ys);
      }
      OnceEach(t);
    }
  }

  lemma {:induction false} CountedOnce(xs: seq<string>)
    requires NoRepeats(xs)
    ensures forall x :: x in multiset(xs) ==> multiset(xs)[x] == 1
  {
    if xs != [] {
      CountedOnce(xs[1..]);
      assert xs == [xs[0]] + xs[1..];
      assert xs[0] !in xs[1..];
    }
  }

  /** A row's case ids are distinct and cover every result of the row. */
  lemma CaseIdsCover(data: Published, experiments: seq<Experiment>)
    ensures NoRepeats(CaseIds(GroupResults(data, experiments)))
    ensures forall x :: x in MeasuredOf(data, experiments) ==> x.caseId in CaseIds(GroupResults(data, experiments))
  {
    var rs := GroupResults(data, experiments);
    var ids := Distinct(FlatMap(rs, CaseIdOf));
    SortPermutes(ids, StringLe);
    NoRepeatsOfPermutation(ids, CaseIds(rs));
    CaseIdsListed(rs);
    FilterWithin(rs, IsMeasured);
    forall x | x in MeasuredOf(data, experiments) ensures x.caseId in CaseIds(rs) {
      assert x.caseId in multiset(ids);
      assert x.caseId in multiset(CaseIds(rs));
    }
  }

  /**
   Every row agrees with its own cases: the durations recombine by runs, the success rates add up to
   the case count.
   */
  lemma RowAgreesWithItsCases(data: Published, groupId: string, experiments: seq<Experiment>)
    requires experiments != [] && NonNegativeRuns(data.results)
    ensures var row, measured := MakeRow(data, groupId, experiments), MeasuredOf(data, experiments);
            && Sum(measured, Weight(Duration())) == Sum(row.cases, CaseRuns(measured, Duration()))
            && OrZero(row.durationMs) * Sum(measured, Weight(Duration())) == Sum(row.cases, DurationShare(measured))
    ensures var row := MakeRow(data, groupId, experiments);
            data.caseCount != 0 && data.runsPerCell != 0 ==>
              && OrZero(row.baselineSuccessRate) * data.caseCount as real == Sum(row.cases, BaselineRate)
              && OrZero(row.guidedSuccessRate) * data.caseCount as real == Sum(row.cases, GuidedRate)
  {
    hide Sum, Filter, WeightedAverage, SuccessRate, CaseRate, CaseIds, First, AverageCost, Sort;
    var row, measured := MakeRow(data, groupId, experiments), MeasuredOf(data, experiments);
    var ids := CaseIds(GroupResults(data, experiments));
    CaseIdsCover(data, experiments);
    MeasuredRuns(data, experiments);
    AveragesRecombine(measured, ids, Duration());
    SumOverCases(ids, row.cases, CaseSum(measured, Weight(Duration())), CaseRuns(measured, Duration()));
    SumOverCases(ids, row.cases, CaseShare(measured, Duration()), DurationShare(measured));
    if data.caseCount != 0 && data.runsPerCell != 0 {
      RowRates(data, ids, row.cases, measured, First(experiments, IsBaseline), First(experiments, IsGuided));
    }
  }

  lemma MeasuredRuns(data: Published, experiments: seq<Experiment>)
    requires NonNegativeRuns(data.results)
    ensures NonNegativeRuns(MeasuredOf(data, experiments))
  {
    FilterWithin(data.results, OfEither(First(experiments, IsBaseline), First(experiments, IsGuided)));
    FilterWithin(GroupResults(data, experiments), IsMeasured);
  }

  lemma RowRates(data: Published, ids: seq<string>, cases: seq<CaseRow>, measured: seq<Measure>,
      baseline: Option<Experiment>, guided: Option<Experiment>)
    requires data.caseCount != 0 && data.runsPerCell != 0
    requires NoRepeats(ids) && forall x :: x in measured ==> x.caseId in ids
    requires cases == MapCases(measured, baseline, guided, data.runsPerCell, ids)
    ensures baseline.Some? ==>
              OrZero(SuccessRate(measured, baseline.value.id, data.caseCount * data.runsPerCell))
              * data.caseCount as real == Sum(cases, BaselineRate)
    ensures baseline.None? ==> Sum(cases, BaselineRate) == 0.0
    ensures guided.Some? ==>
              OrZero(SuccessRate(measured, guided.value.id, data.caseCount * data.runsPerCell))
              * data.caseCount as real == Sum(cases, GuidedRate)
    ensures guided.None? ==> Sum(cases, GuidedRate) == 0.0
  {
    hide Sum, Filter, WeightedAverage, SuccessRate, CaseRate;
    if baseline.Some? {
      RatesRecombine(measured, ids, baseline.value, data.caseCount, data.runsPerCell);
      SumOverCases(ids, cases, RateOfCase(measured, baseline.value, data.runsPerCell), BaselineRate);
    } else {
      forall i | 0 <= i < |cases| ensures BaselineRate(cases[i]) == 0.0 {
        NoExperimentNoRate(Filter(measured, OfCase(ids[i])), data.runsPerCell);
      }
      AllZero(cases, BaselineRate);
    }
    if guided.Some? {
      RatesRecombine(measured, ids, guided.value, data.caseCount, data.runsPerCell);
      SumOverCases(ids, cases, RateOfCase(measured, guided.value, data.runsPerCell), GuidedRate);
    } else {
      forall i | 0 <= i < |cases| ensures GuidedRate(cases[i]) == 0.0 {
        NoExperimentNoRate(Filter(measured, OfCase(ids[i])), data.runsPerCell);
      }
      AllZero(cases, GuidedRate);
    }
  }

  lemma NoExperimentNoRate(own: seq<Measure>, runsPerCell: int)
    ensures CaseRate(own, None, runsPerCell).None?
  {
  }

  lemma {:induction false} AllZero(cases: seq<CaseRow>, g: CaseRow -> real)
    requires forall i :: 0 <= i < |cases| ==> g(cases[i]) == 0.0
    ensures Sum(cases, g) == 0.0
  {
    if cases != [] { AllZero(cases[1..], g); }
  }
}
