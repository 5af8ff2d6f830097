/**
 Benchmark rows against the published data itself: which runs a rate counts, what a mean is a mean of, whose name a
 row shows and which date. Nothing here names the functions that build the rows.
 */
module BenchmarkData {
  import opened Wrappers
  import opened Sequences
  import opened Sorting
  import opened BenchmarkResults

  // ------------------------------------------------------------ the data, read directly

  /** Experiment i is the first of its group with this treatment. */
  predicate FirstOf(es: seq<Experiment>, g: string, t: Treatment, i: nat) {
    && i < |es| && es[i].groupId == g && es[i].treatment == t
    && forall j :: 0 <= j < i ==> !(es[j].groupId == g && es[j].treatment == t)
  }

  /** The experiment that stands for a treatment in a group: its first one, or none. */
  ghost predicate Chosen(es: seq<Experiment>, g: string, t: Treatment, e: Option<Experiment>) {
    match e
    case Some(x) => exists i: nat :: FirstOf(es, g, t, i) && es[i] == x
    case None => forall i :: 0 <= i < |es| ==> !(es[i].groupId == g && es[i].treatment == t)
  }

  predicate IsOf(r: Measure, e: Option<Experiment>) { e.Some? && r.experimentId == e.value.id }

  /** A result that is not missing and has a run count and a duration. */
  predicate Complete(r: Measure) { r.status != Missing && r.validRuns.Some? && r.durationMs.Some? }

  predicate InCase(r: Measure, c: Option<string>) { c.Some? ==> r.caseId == c.value }

  /** A complete result of one of two experiments, in a case if one is given. */
  predicate Counted(r: Measure, b: Option<Experiment>, u: Option<Experiment>, c: Option<string>) {
    Complete(r) && (IsOf(r, b) || IsOf(r, u)) && InCase(r, c)
  }

  function Total(rs: seq<Measure>, f: Measure -> real): real {
    if rs == [] then 0.0 else Total(rs[..|rs| - 1], f) + f(rs[|rs| - 1])
  }

  function PassedShare(e: Option<Experiment>, c: Option<string>): Measure -> real {
    (r: Measure) =>
      if Complete(r) && IsOf(r, e) && InCase(r, c) && r.passedRuns.Some? then r.passedRuns.value as real else 0.0
  }

  /** The passed runs of the complete results of e, in a case if one is given. */
  function PassedRuns(rs: seq<Measure>, e: Option<Experiment>, c: Option<string>): real {
    Total(rs, PassedShare(e, c))
  }

  /** There are results to take a rate from; a whole row needs none. */
  ghost predicate HasResults(rs: seq<Measure>, e: Option<Experiment>, c: Option<string>) {
    c.Some? ==> exists r :: r in rs && Complete(r) && IsOf(r, e) && r.caseId == c.value
  }

  /** The rate is 100 times the passed runs over the expected ones; there is none without experiment or expectation. */
  ghost predicate RateTells(
      rs: seq<Measure>, e: Option<Experiment>, c: Option<string>, expected: int, rate: Option<real>) {
    && (rate.Some? <==> e.Some? && expected != 0 && HasResults(rs, e, c))
    && (rate.Some? ==> rate.value * expected as real == 100.0 * PassedRuns(rs, e, c))
  }

  function DurationMs(): Metric { (r: Measure) => r.durationMs }
  function TokenCount(): Metric { (r: Measure) => r.tokens }
  function ToolCount(): Metric { (r: Measure) => r.toolInvocations }

  function RunShare(b: Option<Experiment>, u: Option<Experiment>, c: Option<string>, figure: Metric): Measure -> real {
    (r: Measure) => if Counted(r, b, u, c) && figure(r).Some? then r.validRuns.value as real else 0.0
  }

  function FigureShare(b: Option<Experiment>, u: Option<Experiment>, c: Option<string>, figure: Metric)
    : Measure -> real
  {
    (r: Measure) =>
      if Counted(r, b, u, c) && figure(r).Some? then figure(r).value * r.validRuns.value as real else 0.0
  }

  /** The mean of a figure over counted results, each weighted with its run count; none if there are no runs. */
  predicate MeanTells(rs: seq<Measure>, b: Option<Experiment>, u: Option<Experiment>, c: Option<string>,
      figure: Metric, mean: Option<real>)
  {
    var runs := Total(rs, RunShare(b, u, c, figure));
    (mean.Some? <==> runs != 0.0) && (mean.Some? ==> mean.value * runs == Total(rs, FigureShare(b, u, c, figure)))
  }

  function CostCount(b: Option<Experiment>, u: Option<Experiment>): Measure -> real {
    (r: Measure) => if Counted(r, b, u, None) && r.costUsd.Some? then 1.0 else 0.0
  }

  function CostShare(b: Option<Experiment>, u: Option<Experiment>): Measure -> real {
    (r: Measure) => if Counted(r, b, u, None) && r.costUsd.Some? then r.costUsd.value else 0.0
  }

  /** The plain mean of the costs of the counted results that have one. */
  predicate CostTells(rs: seq<Measure>, b: Option<Experiment>, u: Option<Experiment>, cost: Option<real>) {
    var count := Total(rs, CostCount(b, u));
    (cost.Some? <==> count != 0.0) && (cost.Some? ==> cost.value * count == Total(rs, CostShare(b, u)))
  }

  /** a comes after b in the order of code points: it goes on where b ends, or has the greater one where they differ. */
  predicate ExceedsAt(a: string, b: string, i: nat) {
    i < |a| && i <= |b| && a[..i] == b[..i] && (i == |b| || a[i] > b[i])
  }

  ghost predicate Exceeds(a: string, b: string) { exists i: nat :: ExceedsAt(a, b, i) }

  /** The latest date of a counted result. */
  ghost predicate DateTells(rs: seq<Measure>, b: Option<Experiment>, u: Option<Experiment>, date: Option<string>) {
    && (date.Some? ==> exists r :: r in rs && Counted(r, b, u, None) && r.measuredAt == date)
    && (forall r :: r in rs && Counted(r, b, u, None) && r.measuredAt.Some? ==>
          date.Some? && !Exceeds(r.measuredAt.value, date.value))
  }

  predicate NameTells(b: Option<Experiment>, u: Option<Experiment>, name: string, harness: string) {
    && (b.Some? ==> name == b.value.modelDisplayName && harness == b.value.harness)
    && (b.None? && u.Some? ==> name == u.value.modelDisplayName && harness == u.value.harness)
  }

  ghost predicate CaseTells(data: Published, b: Option<Experiment>, u: Option<Experiment>, x: CaseRow) {
    && RateTells(data.results, b, Some(x.caseId), data.runsPerCell, x.baselineSuccessRate)
    && RateTells(data.results, u, Some(x.caseId), data.runsPerCell, x.guidedSuccessRate)
    && MeanTells(data.results, b, u, Some(x.caseId), DurationMs(), x.durationMs)
    && MeanTells(data.results, b, u, Some(x.caseId), TokenCount(), x.tokens)
    && MeanTells(data.results, b, u, Some(x.caseId), ToolCount(), x.toolInvocations)
  }

  /** A case id among the results of the two experiments, counted or not. */
  ghost predicate Occurs(data: Published, b: Option<Experiment>, u: Option<Experiment>, c: string) {
    exists r :: r in data.results && (IsOf(r, b) || IsOf(r, u)) && r.caseId == c
  }

  /** One case for every case id that occurs, in ascending order. */
  ghost predicate CasesTell(data: Published, b: Option<Experiment>, u: Option<Experiment>, cases: seq<CaseRow>) {
    && (forall i :: 0 <= i < |cases| ==> CaseTells(data, b, u, cases[i]))
    && (forall i, j :: 0 <= i < j < |cases| ==> Exceeds(cases[j].caseId, cases[i].caseId))
    && (forall c: string :: Occurs(data, b, u, c) <==> exists i :: 0 <= i < |cases| && cases[i].caseId == c)
  }

  /** A row tells what the data say about its group's baseline and guided experiments. */
  ghost predicate RowTells(data: Published, b: Option<Experiment>, u: Option<Experiment>, row: Row) {
    && RateTells(data.results, b, None, data.caseCount * data.runsPerCell, row.baselineSuccessRate)
    && RateTells(data.results, u, None, data.caseCount * data.runsPerCell, row.guidedSuccessRate)
    && NameTells(b, u, row.modelDisplayName, row.harness)
    && MeanTells(data.results, b, u, None, DurationMs(), row.durationMs)
    && CostTells(data.results, b, u, row.costUsd)
    && DateTells(data.results, b, u, row.latestMeasuredAt)
    && CasesTell(data, b, u, row.cases)
  }

  // ------------------------------------------------------------ which experiments

  lemma FirstLater(es: seq<Experiment>, g: string, t: Treatment, i: nat)
    requires es != [] && !(es[0].groupId == g && es[0].treatment == t)
    ensures FirstOf(es, g, t, i + 1) <==> FirstOf(es[1..], g, t, i)
  {
    if FirstOf(es[1..], g, t, i) {
      forall j | 0 <= j < i + 1 ensures !(es[j].groupId == g && es[j].treatment == t) {
        assert j > 0 ==> es[j] == es[1..][j - 1];
      }
    }
    if FirstOf(es, g, t, i + 1) {
      assert forall j :: 0 <= j < i ==> es[1..][j] == es[j + 1];
    }
  }

  /** The code's search in the group's experiments finds the chosen one. */
  lemma {:induction false} SearchChooses(es: seq<Experiment>, g: string, t: Treatment, has: Experiment -> bool)
    requires forall e: Experiment :: has(e) <==> e.treatment == t
    ensures Chosen(es, g, t, First(Filter(es, InGroup(g)), has))
  {
    if es != [] {
      SearchChooses(es[1..], g, t, has);
      var own, rest := Filter(es, InGroup(g)), Filter(es[1..], InGroup(g));
      if es[0].groupId == g && es[0].treatment == t {
        assert own == [es[0]] + rest;
        assert FirstOf(es, g, t, 0);
      } else {
        if es[0].groupId == g {
          assert own == [es[0]] + rest && own[1..] == rest;
        } else {
          assert own == rest;
        }
        StillChosen(es, g, t, First(rest, has));
      }
    }
  }

  lemma StillChosen(es: seq<Experiment>, g: string, t: Treatment, e: Option<Experiment>)
    requires es != [] && !(es[0].groupId == g && es[0].treatment == t) && Chosen(es[1..], g, t, e)
    ensures Chosen(es, g, t, e)
  {
    if e.Some? {
      var i: nat :| FirstOf(es[1..], g, t, i) && es[1..][i] == e.value;
      FirstLater(es, g, t, i);
      assert es[i + 1] == e.value;
    } else {
      forall i | 0 <= i < |es| ensures !(es[i].groupId == g && es[i].treatment == t) {
        assert i > 0 ==> es[i] == es[1..][i - 1];
      }
    }
  }

  lemma OneChosen(es: seq<Experiment>, g: string, t: Treatment, e: Option<Experiment>, f: Option<Experiment>)
    requires Chosen(es, g, t, e) && Chosen(es, g, t, f)
    ensures e == f
  {
    if e.Some? && f.Some? {
      var i: nat :| FirstOf(es, g, t, i) && es[i] == e.value;
      var j: nat :| FirstOf(es, g, t, j) && es[j] == f.value;
      assert i == j;
    }
  }

  // ------------------------------------------------------------ sums over filtered results

  lemma {:induction false} TotalPrepends(r: Measure, rs: seq<Measure>, f: Measure -> real)
    ensures Total([r] + rs, f) == f(r) + Total(rs, f)
  {
    if rs == [] {
      assert [r] + rs == [r] && [r][..0] == [];
    } else {
      var n := |rs| - 1;
      assert ([r] + rs)[..n + 1] == [r] + rs[..n];
      TotalPrepends(r, rs[..n], f);
    }
  }

  /** A sum over the results that pass a filter is a total over all of them. */
  lemma {:induction false} SumIsTotal(rs: seq<Measure>, pass: Measure -> bool, g: Measure -> real, f: Measure -> real)
    requires forall r: Measure :: f(r) == if pass(r) then g(r) else 0.0
    ensures Sum(Filter(rs, pass), g) == Total(rs, f)
  {
    if rs != [] {
      SumIsTotal(rs[1..], pass, g, f);
      assert rs == [rs[0]] + rs[1..];
      TotalPrepends(rs[0], rs[1..], f);
      if pass(rs[0]) {
        assert Filter(rs, pass)[1..] == Filter(rs[1..], pass);
      } else {
        assert Filter(rs, pass) == Filter(rs[1..], pass);
      }
    }
  }

  /** Filtering twice is filtering once for both. */
  lemma {:induction false} FilterTwice<T>(xs: seq<T>, p: T -> bool, q: T -> bool, both: T -> bool)
    requires forall x :: x in xs ==> (both(x) <==> p(x) && q(x))
    ensures Filter(Filter(xs, p), q) == Filter(xs, both)
  {
    if xs != [] {
      FilterTwice(xs[1..], p, q, both);
      assert xs[0] in xs;
      var rest := Filter(xs[1..], p);
      if p(xs[0]) {
        assert Filter(xs, p) == [xs[0]] + rest && ([xs[0]] + rest)[1..] == rest;
      } else {
        assert Filter(xs, p) == rest;
      }
    }
  }

  function CountedIn(b: Option<Experiment>, u: Option<Experiment>, c: Option<string>): Measure -> bool {
    (r: Measure) => Counted(r, b, u, c)
  }

  /** The results that a row, or one of its cases, is made of are the counted ones. */
  lemma MeasuredAreCounted(rs: seq<Measure>, b: Option<Experiment>, u: Option<Experiment>, c: string)
    ensures var measured := Filter(Filter(rs, OfEither(b, u)), IsMeasured);
            && measured == Filter(rs, CountedIn(b, u, None))
            && Filter(measured, OfCase(c)) == Filter(rs, CountedIn(b, u, Some(c)))
  {
    FilterTwice(rs, OfEither(b, u), IsMeasured, CountedIn(b, u, None));
    FilterTwice(rs, CountedIn(b, u, None), OfCase(c), CountedIn(b, u, Some(c)));
  }

  // ------------------------------------------------------------ rates and means

  lemma Percentage(passed: real, expected: int)
    requires expected != 0
    ensures passed / expected as real * 100.0 * expected as real == 100.0 * passed
  {
    var x := expected as real;
    assert passed / x * x == passed;
    assert passed / x * 100.0 * x == 100.0 * (passed / x * x);
  }

  lemma SuccessRateTells(rs: seq<Measure>, pass: Measure -> bool, e: Experiment, c: Option<string>, expected: int)
    requires forall r: Measure ::
        pass(r) && r.experimentId == e.id <==> Complete(r) && r.experimentId == e.id && InCase(r, c)
    ensures var rate := SuccessRate(Filter(rs, pass), e.id, expected);
            && (rate.Some? <==> expected != 0)
            && (rate.Some? ==> rate.value * expected as real == 100.0 * PassedRuns(rs, Some(e), c))
  {
    hide Filter, Sum, Total;
    SumIsTotal(rs, pass, Passed(e.id), PassedShare(Some(e), c));
    if expected != 0 { Percentage(PassedRuns(rs, Some(e), c), expected); }
  }

  lemma RowRateTells(rs: seq<Measure>, b: Option<Experiment>, u: Option<Experiment>, e: Option<Experiment>,
      expected: int)
    requires e == b || e == u
    ensures RateTells(rs, e, None, expected,
        if e.Some? then SuccessRate(Filter(rs, CountedIn(b, u, None)), e.value.id, expected) else None)
  {
    hide Filter, SuccessRate, Total;
    if e.Some? { SuccessRateTells(rs, CountedIn(b, u, None), e.value, None, expected); }
  }

  function OwnIn(e: Experiment, c: string): Measure -> bool {
    (r: Measure) => Complete(r) && r.experimentId == e.id && r.caseId == c
  }

  lemma CaseRateTells(rs: seq<Measure>, b: Option<Experiment>, u: Option<Experiment>, e: Option<Experiment>,
      c: string, runsPerCell: int)
    requires e == b || e == u
    ensures RateTells(rs, e, Some(c), runsPerCell, CaseRate(Filter(rs, CountedIn(b, u, Some(c))), e, runsPerCell))
  {
    hide Filter, SuccessRate, Total;
    if e.Some? {
      var own := OwnIn(e.value, c);
      FilterTwice(rs, CountedIn(b, u, Some(c)), OfExperiment(e.value.id), own);
      SuccessRateTells(rs, own, e.value, Some(c), runsPerCell);
      FilterWithin(rs, own);
      if Filter(rs, own) != [] {
        var r := Filter(rs, own)[0];
        assert r in Filter(rs, own);
      }
    }
  }

  lemma MeanIsTold(rs: seq<Measure>, b: Option<Experiment>, u: Option<Experiment>, c: Option<string>,
      metric: Metric, figure: Metric)
    requires forall r: Measure :: metric(r) == figure(r)
    ensures MeanTells(rs, b, u, c, figure, WeightedAverage(Filter(rs, CountedIn(b, u, c)), metric))
  {
    hide Filter, Sum, Total;
    var both := (r: Measure) => Counted(r, b, u, c) && figure(r).Some?;
    FilterTwice(rs, CountedIn(b, u, c), Has(metric), both);
    SumIsTotal(rs, both, Weight(metric), RunShare(b, u, c, figure));
    SumIsTotal(rs, both, Weighted(metric), FigureShare(b, u, c, figure));
    var runs, total := Total(rs, RunShare(b, u, c, figure)), Total(rs, FigureShare(b, u, c, figure));
    if runs != 0.0 { Quotient(total, runs); }
  }

  function HasCost(): Measure -> real { (r: Measure) => if r.costUsd.Some? then 1.0 else 0.0 }
  function CostOrZero(): Measure -> real { (r: Measure) => if r.costUsd.Some? then r.costUsd.value else 0.0 }

  lemma {:induction false} CostsListed(rs: seq<Measure>)
    ensures |FlatMap(rs, CostOf)| as real == Sum(rs, HasCost())
    ensures Sum(FlatMap(rs, CostOf), Itself) == Sum(rs, CostOrZero())
  {
    if rs != [] {
      CostsListed(rs[1..]);
      var rest := FlatMap(rs[1..], CostOf);
      if rs[0].costUsd.Some? {
        assert FlatMap(rs, CostOf) == [rs[0].costUsd.value] + rest;
        assert FlatMap(rs, CostOf)[1..] == rest;
      } else {
        assert FlatMap(rs, CostOf) == rest;
      }
    }
  }

  lemma CostIsTold(rs: seq<Measure>, b: Option<Experiment>, u: Option<Experiment>)
    ensures CostTells(rs, b, u, AverageCost(Filter(rs, CountedIn(b, u, None))))
  {
    hide Filter, Sum, Total, FlatMap;
    var counted := Filter(rs, CountedIn(b, u, None));
    CostsListed(counted);
    SumIsTotal(rs, CountedIn(b, u, None), HasCost(), CostCount(b, u));
    SumIsTotal(rs, CountedIn(b, u, None), CostOrZero(), CostShare(b, u));
    var count := |FlatMap(counted, CostOf)|;
    if count != 0 { Quotient(Total(rs, CostShare(b, u)), count as real); }
  }

  // ------------------------------------------------------------ the order of strings

  lemma {:induction false} StringLeMeans(a: string, b: string)
    ensures StringLe(a, b) <==> !Exceeds(a, b)
  {
    if a != "" && b != "" && a[0] == b[0] {
      StringLeMeans(a[1..], b[1..]);
      forall i: nat ensures ExceedsAt(a, b, i + 1) <==> ExceedsAt(a[1..], b[1..], i) {
        if i < |a[1..]| && i <= |b[1..]| {
          assert a[..i + 1] == [a[0]] + a[1..][..i] && b[..i + 1] == [b[0]] + b[1..][..i];
        }
      }
      assert !ExceedsAt(a, b, 0);
      if Exceeds(a, b) {
        var i: nat :| ExceedsAt(a, b, i);
        assert ExceedsAt(a[1..], b[1..], i - 1);
      }
      if Exceeds(a[1..], b[1..]) {
        var i: nat :| ExceedsAt(a[1..], b[1..], i);
        assert ExceedsAt(a, b, i + 1);
      }
    } else if a != "" {
      assert StringLe(a, b) || ExceedsAt(a, b, 0);
      if Exceeds(a, b) {
        var i: nat :| ExceedsAt(a, b, i);
        assert i > 0 ==> a[..i][0] == b[..i][0];
      }
    }
  }

  lemma {:induction false} StringsAreOrdered(a: string, b: string, c: string)
    ensures StringLe(a, b) || StringLe(b, a)
    ensures StringLe(a, b) && StringLe(b, c) ==> StringLe(a, c)
    ensures StringLe(a, b) && StringLe(b, a) ==> a == b
  {
    if a != "" && b != "" {
      StringsAreOrdered(a[1..], b[1..], if c == "" then c else c[1..]);
      if a[0] == b[0] && a[1..] == b[1..] { assert a == [a[0]] + a[1..] && b == [b[0]] + b[1..]; }
    }
  }

  lemma SortedStrings(xs: seq<string>)
    ensures Sorted(Sort(xs, StringLe), StringLe) && forall x :: x in Sort(xs, StringLe) <==> x in xs
  {
    forall x, y, z | x in xs && y in xs && z in xs
      ensures StringLe(x, y) || StringLe(y, x)
      ensures StringLe(x, y) && StringLe(y, z) ==> StringLe(x, z)
    {
      StringsAreOrdered(x, y, z);
    }
    assert Orders(xs, StringLe) by { StringsOrder(xs); }
    SortSorts(xs, StringLe);
    SortPermutes(xs, StringLe);
    forall x ensures x in Sort(xs, StringLe) <==> x in xs {
      assert x in multiset(Sort(xs, StringLe)) <==> x in multiset(xs);
    }
  }

  lemma StringsOrder(xs: seq<string>)
    ensures Orders(xs, StringLe)
  {
    forall x, y, z ensures StringLe(x, y) || StringLe(y, x)
      ensures StringLe(x, y) && StringLe(y, z) ==> StringLe(x, z)
    {
      StringsAreOrdered(x, y, z);
    }
  }

  // ------------------------------------------------------------ dates and cases

  lemma {:induction false} DatesListed(rs: seq<Measure>, d: string)
    ensures d in FlatMap(rs, DateOf) <==> exists r :: r in rs && r.measuredAt == Some(d)
  {
    if rs != [] {
      DatesListed(rs[1..], d);
      assert rs == [rs[0]] + rs[1..];
    }
  }

  function LatestOf(dates: seq<string>): Option<string> { if dates == [] then None else Some(dates[|dates| - 1]) }

  lemma DateIsTold(rs: seq<Measure>, b: Option<Experiment>, u: Option<Experiment>)
    ensures var counted := Filter(rs, CountedIn(b, u, None));
            DateTells(rs, b, u, LatestOf(Sort(FlatMap(counted, DateOf), StringLe)))
  {
    hide Filter, FlatMap, Sort, StringLe, Counted;
    var counted := Filter(rs, CountedIn(b, u, None));
    var dates := Sort(FlatMap(counted, DateOf), StringLe);
    FilterWithin(rs, CountedIn(b, u, None));
    SortedStrings(FlatMap(counted, DateOf));
    if dates != [] {
      DatesListed(counted, dates[|dates| - 1]);
      assert dates[|dates| - 1] in dates;
    }
    forall r | r in rs && Counted(r, b, u, None) && r.measuredAt.Some?
      ensures dates != [] && !Exceeds(r.measuredAt.value, dates[|dates| - 1])
    {
      var d := r.measuredAt.value;
      assert r in counted;
      DatesListed(counted, d);
      var i :| 0 <= i < |dates| && dates[i] == d;
      StringsAreOrdered(d, d, d);
      StringLeMeans(d, dates[|dates| - 1]);
    }
  }

  lemma {:induction false} CaseIdsAre(rs: seq<Measure>, c: string)
    ensures c in FlatMap(rs, CaseIdOf) <==> exists r :: r in rs && r.caseId == c
  {
    if rs != [] {
      CaseIdsAre(rs[1..], c);
      assert rs == [rs[0]] + rs[1..];
    }
  }

  /** The case ids of a group's results are ascending, and are those that occur. */
  lemma CaseIdsAscend(rs: seq<Measure>)
    ensures var ids := CaseIds(rs);
            && (forall i, j :: 0 <= i < j < |ids| ==> Exceeds(ids[j], ids[i]))
            && forall c :: c in ids <==> exists r :: r in rs && r.caseId == c
  {
    hide Sort, StringLe, FlatMap, Exceeds;
    var found := Distinct(FlatMap(rs, CaseIdOf));
    var ids := CaseIds(rs);
    SortedStrings(found);
    SortPermutes(found, StringLe);
    NoRepeatsOfPermutation(found, ids);
    forall c ensures c in ids <==> exists r :: r in rs && r.caseId == c {
      CaseIdsAre(rs, c);
    }
    forall i, j | 0 <= i < j < |ids| ensures Exceeds(ids[j], ids[i]) {
      StringsAreOrdered(ids[i], ids[j], ids[i]);
      StringLeMeans(ids[j], ids[i]);
    }
  }

  lemma CaseIsTold(data: Published, b: Option<Experiment>, u: Option<Experiment>, c: string)
    ensures var measured := Filter(Filter(data.results, OfEither(b, u)), IsMeasured);
            CaseTells(data, b, u, MakeCase(measured, b, u, data.runsPerCell, c))
  {
    hide Filter, WeightedAverage, CaseRate, RateTells, MeanTells;
    MeasuredAreCounted(data.results, b, u, c);
    CaseRateTells(data.results, b, u, b, c, data.runsPerCell);
    CaseRateTells(data.results, b, u, u, c, data.runsPerCell);
    MeanIsTold(data.results, b, u, Some(c), Duration(), DurationMs());
    MeanIsTold(data.results, b, u, Some(c), Tokens(), TokenCount());
    MeanIsTold(data.results, b, u, Some(c), Tools(), ToolCount());
  }

  /** The case ids of a row are those of its experiments' results. */
  lemma IdsAreTold(data: Published, b: Option<Experiment>, u: Option<Experiment>, c: string)
    ensures c in CaseIds(Filter(data.results, OfEither(b, u))) <==> Occurs(data, b, u, c)
  {
    hide Filter, CaseIds, Exceeds;
    FilterWithin(data.results, OfEither(b, u));
    CaseIdsAscend(Filter(data.results, OfEither(b, u)));
  }

  lemma CasesTellIf(data: Published, b: Option<Experiment>, u: Option<Experiment>, ids: seq<string>,
      cases: seq<CaseRow>)
    requires |ids| == |cases| && forall i :: 0 <= i < |ids| ==> cases[i].caseId == ids[i]
    requires forall i :: 0 <= i < |cases| ==> CaseTells(data, b, u, cases[i])
    requires forall i, j :: 0 <= i < j < |ids| ==> Exceeds(ids[j], ids[i])
    requires forall c :: c in ids <==> Occurs(data, b, u, c)
    ensures CasesTell(data, b, u, cases)
  {
    hide CaseTells, Exceeds, Occurs;
    forall i, j | 0 <= i < j < |cases| ensures Exceeds(cases[j].caseId, cases[i].caseId) {
      assert cases[i].caseId == ids[i] && cases[j].caseId == ids[j];
    }
    forall c: string ensures Occurs(data, b, u, c) <==> exists i :: 0 <= i < |cases| && cases[i].caseId == c {
      if c in ids {
        var i :| 0 <= i < |ids| && ids[i] == c;
        assert cases[i].caseId == c;
      }
    }
  }

  lemma CasesAreTold(data: Published, b: Option<Experiment>, u: Option<Experiment>, cases: seq<CaseRow>)
    requires var results := Filter(data.results, OfEither(b, u));
             cases == MapCases(Filter(results, IsMeasured), b, u, data.runsPerCell, CaseIds(results))
    ensures CasesTell(data, b, u, cases)
  {
    hide Filter, MakeCase, CaseIds, CaseTells, Exceeds, CasesTell, Occurs, OfEither;
    var results := Filter(data.results, OfEither(b, u));
    var ids := CaseIds(results);
    CaseIdsAscend(results);
    forall c ensures c in ids <==> Occurs(data, b, u, c) {
      IdsAreTold(data, b, u, c);
    }
    forall i | 0 <= i < |ids| ensures CaseTells(data, b, u, cases[i]) && cases[i].caseId == ids[i] {
      CaseIsTold(data, b, u, ids[i]);
      CaseHasId(Filter(results, IsMeasured), b, u, data.runsPerCell, ids[i]);
    }
    CasesTellIf(data, b, u, ids, cases);
  }

  lemma CaseHasId(measured: seq<Measure>, b: Option<Experiment>, u: Option<Experiment>, runsPerCell: int, c: string)
    ensures MakeCase(measured, b, u, runsPerCell, c).caseId == c
  {
  }

  // ------------------------------------------------------------ main theorem

  lemma MadeRowTells(data: Published, g: string, b: Option<Experiment>, u: Option<Experiment>)
    requires Filter(data.experiments, InGroup(g)) != []
    requires Chosen(data.experiments, g, Baseline, b) && Chosen(data.experiments, g, Guided, u)
    ensures var row := MakeRow(data, g, Filter(data.experiments, InGroup(g)));
            row.groupId == g && RowTells(data, b, u, row)
  {
    hide Filter, WeightedAverage, SuccessRate, AverageCost, Sort, FlatMap, CaseIds, First;
    hide RateTells, MeanTells, CostTells, DateTells, CasesTell, Chosen;
    var own := Filter(data.experiments, InGroup(g));
    SearchChooses(data.experiments, g, Baseline, IsBaseline);
    SearchChooses(data.experiments, g, Guided, IsGuided);
    OneChosen(data.experiments, g, Baseline, b, First(own, IsBaseline));
    OneChosen(data.experiments, g, Guided, u, First(own, IsGuided));
    MeasuredAreCounted(data.results, b, u, "");
    RowRateTells(data.results, b, u, b, data.caseCount * data.runsPerCell);
    RowRateTells(data.results, b, u, u, data.caseCount * data.runsPerCell);
    MeanIsTold(data.results, b, u, None, Duration(), DurationMs());
    CostIsTold(data.results, b, u);
    DateIsTold(data.results, b, u);
    CasesAreTold(data, b, u, MakeRow(data, g, own).cases);
  }

  /**
   Every row of the result tells what the published data say about its group: the rates of the first baseline and
   the first guided experiment, the means, the name, the latest date, and the same for every case.
   */
  lemma EveryRowTells(parse: DateParser, data: Published, row: Row, b: Option<Experiment>, u: Option<Experiment>)
    requires row in BenchmarkRows(parse, data)
    requires Chosen(data.experiments, row.groupId, Baseline, b) && Chosen(data.experiments, row.groupId, Guided, u)
    ensures RowTells(data, b, u, row)
  {
    hide MakeRow, MakeRows, Groups, Sort, Filter, RowTells, Chosen;
    var groups := Groups(data);
    var made := MakeRows(data, groups);
    SortPermutes(made, NotAfter(parse));
    InPermutation(row, BenchmarkRows(parse, data), made);
    OneRowPerGroup(data);
    var i :| 0 <= i < |made| && made[i] == row;
    RowHasGroup(data, groups[i], Filter(data.experiments, InGroup(groups[i])));
    MadeRowTells(data, groups[i], b, u);
  }

  lemma RowHasGroup(data: Published, g: string, own: seq<Experiment>)
    requires own != []
    ensures MakeRow(data, g, own).groupId == g
  {
  }

  /** The result has exactly one row for every group that occurs in the data. */
  lemma RowsCoverGroups(parse: DateParser, data: Published)
    ensures var rows := BenchmarkRows(parse, data);
            && (forall row :: row in rows ==> exists e :: e in data.experiments && e.groupId == row.groupId)
            && (forall e :: e in data.experiments ==> exists row :: row in rows && row.groupId == e.groupId)
            && forall i, j :: 0 <= i < j < |rows| ==> rows[i].groupId != rows[j].groupId
  {
    hide MakeRow, MakeRows, Groups, Sort, Filter;
    var groups, rows := Groups(data), BenchmarkRows(parse, data);
    var made := MakeRows(data, groups);
    SortPermutes(made, NotAfter(parse));
    OneRowPerGroup(data);
    forall i | 0 <= i < |made| ensures made[i].groupId == groups[i] {
      RowHasGroup(data, groups[i], Filter(data.experiments, InGroup(groups[i])));
    }
    forall row | row in rows ensures exists e :: e in data.experiments && e.groupId == row.groupId {
      InPermutation(row, rows, made);
      var i :| 0 <= i < |made| && made[i] == row;
      assert HasExperiment(data, groups[i]);
    }
    forall e | e in data.experiments ensures exists row :: row in rows && row.groupId == e.groupId {
      assert HasExperiment(data, e.groupId);
      var i :| 0 <= i < |groups| && groups[i] == e.groupId;
      InPermutation(made[i], made, rows);
    }
    OneEach(made, rows);
  }

  /** Reordering does not make two of a kind. */
  lemma OneEach(made: seq<Row>, rows: seq<Row>)
    requires multiset(made) == multiset(rows)
    requires forall i, j :: 0 <= i < j < |made| ==> made[i].groupId != made[j].groupId
    ensures forall i, j :: 0 <= i < j < |rows| ==> rows[i].groupId != rows[j].groupId
  {
    forall i, j | 0 <= i < j < |rows| ensures rows[i].groupId != rows[j].groupId {
      InPermutation(rows[i], rows, made);
      InPermutation(rows[j], rows, made);
      var k :| 0 <= k < |made| && made[k] == rows[i];
      var l :| 0 <= l < |made| && made[l] == rows[j];
      if k == l { TwiceIsTwice(rows, i, j, made, k); }
    }
  }

  lemma TwiceIsTwice(rows: seq<Row>, i: nat, j: nat, made: seq<Row>, k: nat)
    requires i < j < |rows| && rows[i] == rows[j] && k < |made| && made[k] == rows[i]
    requires multiset(made) == multiset(rows)
    ensures exists m :: 0 <= m < |made| && m != k && made[m] == made[k]
  {
    assert rows == rows[..j] + [rows[j]] + rows[j + 1..];
    assert rows[i] in rows[..j];
    assert multiset(rows)[rows[i]] >= 2;
    assert made == made[..k] + [made[k]] + made[k + 1..];
    if made[k] in made[..k] {
      var m :| 0 <= m < k && made[..k][m] == made[k];
      assert made[m] == made[k];
    } else {
      assert made[k] in multiset(made[k + 1..]);
      var m :| 0 <= m < |made| - k - 1 && made[k + 1..][m] == made[k];
      assert made[k + 1 + m] == made[k];
    }
  }

  // ------------------------------------------------------------ ties

  predicate Ties(parse: DateParser, a: Row, b: Row) { Compare(parse, a, b) <= 0 && Compare(parse, b, a) <= 0 }

  function TiesWith(parse: DateParser, a: Row): Row -> bool { (b: Row) => Ties(parse, a, b) }

  /** Rows that compare equal stand in the order in which their groups first appear in the data. */
  lemma TiesKeepOrder(parse: DateParser, data: Published, row: Row)
    requires forall r :: r in MakeRows(data, Groups(data)) ==> !StampOf(parse, r).Unparsable?
    requires row in MakeRows(data, Groups(data))
    ensures Filter(BenchmarkRows(parse, data), TiesWith(parse, row))
        == Filter(MakeRows(data, Groups(data)), TiesWith(parse, row))
    ensures var groups := Groups(data);
            forall i, j :: 0 <= i < j < |groups| ==>
              ComesBefore(FlatMap(data.experiments, GroupIdOf), groups[i], groups[j])
  {
    hide Compare, MakeRows, Groups;
    var made := MakeRows(data, Groups(data));
    var le := NotAfter(parse);
    forall x, y | x in made && y in made ensures le(x, y) || le(y, x) {
      Related(parse, x, y);
    }
    forall x, y, z | x in made && y in made && z in made && le(x, y) && le(y, z) ensures le(x, z) {
      Chains(parse, x, y, z);
    }
    SortKeepsTies(made, le, row);
    TiesAreSame(parse, row);
    SameFilter(Sort(made, le), TiesWith(parse, row), Same(le, row));
    SameFilter(made, TiesWith(parse, row), Same(le, row));
    GroupsInOrder(data);
  }

  lemma TiesAreSame(parse: DateParser, row: Row)
    ensures forall r: Row :: TiesWith(parse, row)(r) == Same(NotAfter(parse), row)(r)
  {
    hide Compare;
  }

  lemma GroupsInOrder(data: Published)
    ensures var groups := Groups(data);
            forall i, j :: 0 <= i < j < |groups| ==>
              ComesBefore(FlatMap(data.experiments, GroupIdOf), groups[i], groups[j])
  {
    forall i, j | 0 <= i < j < |Groups(data)|
      ensures ComesBefore(FlatMap(data.experiments, GroupIdOf), Groups(data)[i], Groups(data)[j])
    {
      DistinctKeepsOrder(FlatMap(data.experiments, GroupIdOf), i, j);
    }
  }

  lemma {:induction false} SameFilter<T>(xs: seq<T>, f: T -> bool, g: T -> bool)
    requires forall x :: x in xs ==> f(x) == g(x)
    ensures Filter(xs, f) == Filter(xs, g)
  {
    if xs != [] {
      assert xs[0] in xs;
      SameFilter(xs[1..], f, g);
    }
  }
}
