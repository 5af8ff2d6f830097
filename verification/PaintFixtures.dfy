/**
 The paint grid of the offline renderer: a pattern filled into an array, then blobs painted over it.
 Arithmetic is over the reals; the distance function is a parameter.
 */
module PaintFixtures {
  import opened Wrappers
  import opened Arithmetic

  function Max(a: real, b: real): real { if a < b then b else a }
  function Min(a: real, b: real): real { if a < b then a else b }
  function Clamp(x: real): real { Max(0.0, Min(1.0, x)) }

  /** Lines 117-120. */
  function Progress(edge0: real, edge1: real, x: real): real { Clamp((x - edge0) / Max(edge1 - edge0, 0.000001)) }

  function Smoothstep(edge0: real, edge1: real, x: real): real {
    var t := Progress(edge0, edge1, x);
    t * t * (3.0 - 2.0 * t)
  }

  lemma CubeInUnit(t: real)
    requires 0.0 <= t <= 1.0
    ensures 0.0 <= t * t * (3.0 - 2.0 * t) <= 1.0
  {
    var u := 1.0 - t;
    assert t * t >= 0.0 && u * u >= 0.0;
    assert t * t * (3.0 - 2.0 * t) >= 0.0;
    assert 1.0 - t * t * (3.0 - 2.0 * t) == u * u * (1.0 + 2.0 * t);
    assert u * u * (1.0 + 2.0 * t) >= 0.0;
  }

  lemma NonNegative(a: real, b: real)
    requires a >= 0.0 && b >= 0.0
    ensures a * b >= 0.0
  {
  }

  lemma CubeMonotone(t: real, u: real)
    requires 0.0 <= t <= u <= 1.0
    ensures t * t * (3.0 - 2.0 * t) <= u * u * (3.0 - 2.0 * u)
  {
    var a, b := u * (1.0 - u), t * (1.0 - t);
    var rise := 3.0 * (t + u) - 2.0 * (u * u + u * t + t * t);
    assert rise == (t + u - 2.0 * u * t) + 2.0 * a + 2.0 * b by {
      assert a == u - u * u && b == t - t * t;
    }
    NonNegative(u, 1.0 - u);
    NonNegative(t, 1.0 - t);
    assert t + u - 2.0 * u * t == t * (1.0 - u) + u * (1.0 - t);
    NonNegative(t, 1.0 - u);
    NonNegative(u, 1.0 - t);
    NonNegative(u - t, rise);
    CubeDifference(t, u);
  }

  lemma CubeDifference(t: real, u: real)
    ensures u * u * (3.0 - 2.0 * u) - t * t * (3.0 - 2.0 * t)
        == (u - t) * (3.0 * (t + u) - 2.0 * (u * u + u * t + t * t))
  {
    assert u * u * (3.0 - 2.0 * u) == 3.0 * (u * u) - 2.0 * (u * u * u);
    assert t * t * (3.0 - 2.0 * t) == 3.0 * (t * t) - 2.0 * (t * t * t);
    assert (u - t) * (t + u) == u * u - t * t;
    assert (u - t) * (u * u + u * t + t * t) == u * u * u - t * t * t;
  }

  lemma QuotientMonotone(a: real, b: real, w: real)
    requires a <= b && w > 0.0
    ensures a / w <= b / w
  {
    assert (b - a) / w >= 0.0;
    assert b / w - a / w == (b - a) / w;
  }

  /** The step stays in [0, 1] and never falls as x grows, for any two edges. */
  lemma SmoothstepShape(edge0: real, edge1: real, x: real, y: real)
    requires x <= y
    ensures 0.0 <= Smoothstep(edge0, edge1, x) <= Smoothstep(edge0, edge1, y) <= 1.0
  {
    QuotientMonotone(x - edge0, y - edge0, Max(edge1 - edge0, 0.000001));
    CubeInUnit(Progress(edge0, edge1, x));
    CubeInUnit(Progress(edge0, edge1, y));
    CubeMonotone(Progress(edge0, edge1, x), Progress(edge0, edge1, y));
  }

  // ------------------------------------------------------------ cells

  /** Four finite numbers, already parsed. */
  datatype Blob = Blob(x: real, y: real, radius: real, intensity: real)

  type Hypot = (real, real) -> real

  datatype Grid = Grid(width: nat, height: nat, hypot: Hypot)

  /** Lines 107-110: how strong a blob is at a distance, and at a cell. */
  function Falloff(g: Grid, b: Blob, d: real): real { 1.0 - Smoothstep(0.0, RadiusCells(g, b), d) }

  function RadiusCells(g: Grid, b: Blob): real { b.radius * Max(g.width as real, g.height as real) }

  /** How far apart two points are that differ by so many columns and rows. */
  function Apart(g: Grid, dx: real, dy: real): real { g.hypot(dx, dy) }

  /** From the blob's centre, at a share of the side's length, to the centre of a cell. */
  function Offset(cell: nat, share: real, side: nat): real { cell as real + 0.5 - share * side as real }

  function Distance(g: Grid, b: Blob, col: nat, row: nat): real {
    Apart(g, Offset(col, b.x, g.width), Offset(row, b.y, g.height))
  }

  /** What a blob offers to the cell in a column and row, lines 107-112. */
  function PaintAt(g: Grid, b: Blob, col: nat, row: nat): real {
    Offer(b.intensity, Falloff(g, b, Distance(g, b, col, row)))
  }

  function Offer(intensity: real, falloff: real): real { Clamp(intensity * falloff) }

  /** What a blob offers to the cell with index k. */
  function Paint(g: Grid, b: Blob, k: nat): real
    requires g.width > 0
  {
    PaintAt(g, b, k % g.width, k / g.width)
  }

  /** Cell k of a pattern; lines 75-92. */
  function PatternCell(g: Grid, pattern: string, k: nat): real
    requires g.width > 0
  {
    if pattern == "full" then 1.0
    else if pattern == "ramp" then RampAt(g, k % g.width)
    else if pattern == "stripes" then StripeAt(k % g.width)
    else 0.0
  }

  function RampAt(g: Grid, x: nat): real { if g.width <= 1 then 1.0 else x as real / (g.width - 1) as real }

  function StripeAt(x: nat): real { if x % 2 == 0 then 1.0 else 0.0 }

  predicate KnownPattern(pattern: string) { pattern == "full" || pattern == "ramp" || pattern == "stripes" }

  /** Cell k after a list of blobs, painted in order over a starting value. */
  function Painted(g: Grid, start: real, blobs: seq<Blob>, k: nat): real
    requires g.width > 0
  {
    if blobs == [] then start else Max(Painted(g, start, blobs[..|blobs| - 1], k), Paint(g, blobs[|blobs| - 1], k))
  }

  /** Where no pattern was asked for, the grid starts at zero. */
  function StartCell(g: Grid, pattern: Option<string>, k: nat): real
    requires g.width > 0
  {
    if pattern.Some? && pattern.value != "" then PatternCell(g, pattern.value, k) else 0.0
  }

  // ------------------------------------------------------------ properties of the finished grid

  lemma PaintInUnit(g: Grid, b: Blob, k: nat)
    requires g.width > 0
    ensures 0.0 <= Paint(g, b, k) <= 1.0
  {
  }

  lemma PatternInUnit(g: Grid, pattern: string, k: nat)
    requires g.width > 0
    ensures 0.0 <= PatternCell(g, pattern, k) <= 1.0
  {
    if pattern == "ramp" && g.width > 1 {
      Ratio(k % g.width, g.width - 1);
    }
  }

  lemma Ratio(a: nat, b: nat)
    requires a <= b && b > 0
    ensures 0.0 <= a as real / b as real <= 1.0
  {
  }

  /** A painted cell is the greatest of its starting value and all the blobs' offers. */
  lemma {:induction false} PaintedIsGreatest(g: Grid, start: real, blobs: seq<Blob>, k: nat)
    requires g.width > 0
    ensures start <= Painted(g, start, blobs, k)
    ensures forall i :: 0 <= i < |blobs| ==> Paint(g, blobs[i], k) <= Painted(g, start, blobs, k)
    ensures Painted(g, start, blobs, k) == start || exists i ::
        0 <= i < |blobs| && Painted(g, start, blobs, k) == Paint(g, blobs[i], k)
  {
    if blobs != [] {
      PaintedIsGreatest(g, start, blobs[..|blobs| - 1], k);
    }
  }

  /** Every cell of every grid lies in [0, 1], whatever the pattern and the blobs. */
  lemma GridInUnit(g: Grid, pattern: Option<string>, blobs: seq<Blob>, k: nat)
    requires g.width > 0
    ensures 0.0 <= Painted(g, StartCell(g, pattern, k), blobs, k) <= 1.0
  {
    var start := StartCell(g, pattern, k);
    if pattern.Some? { PatternInUnit(g, pattern.value, k); }
    PaintedIsGreatest(g, start, blobs, k);
    if i :| 0 <= i < |blobs| && Painted(g, start, blobs, k) == Paint(g, blobs[i], k) {
      PaintInUnit(g, blobs[i], k);
    }
  }

  /** More blobs never lower a cell. */
  lemma {:induction false} BlobsNeverLower(g: Grid, start: real, blobs: seq<Blob>, more: seq<Blob>, k: nat)
    requires g.width > 0
    ensures Painted(g, start, blobs, k) <= Painted(g, start, blobs + more, k)
  {
    if more == [] {
      assert blobs + more == blobs;
    } else {
      assert (blobs + more)[..|blobs + more| - 1] == blobs + more[..|more| - 1];
      BlobsNeverLower(g, start, blobs, more[..|more| - 1], k);
    }
  }

  /** The finished grid does not depend on the order of the blobs. */
  lemma BlobOrderDoesNotMatter(g: Grid, start: real, blobs: seq<Blob>, others: seq<Blob>, k: nat)
    requires g.width > 0 && multiset(blobs) == multiset(others)
    ensures Painted(g, start, blobs, k) == Painted(g, start, others, k)
  {
    NotBelow(g, start, blobs, others, k);
    NotBelow(g, start, others, blobs, k);
  }

  lemma NotBelow(g: Grid, start: real, blobs: seq<Blob>, others: seq<Blob>, k: nat)
    requires g.width > 0 && multiset(blobs) == multiset(others)
    ensures Painted(g, start, blobs, k) <= Painted(g, start, others, k)
  {
    PaintedIsGreatest(g, start, blobs, k);
    PaintedIsGreatest(g, start, others, k);
    if Painted(g, start, blobs, k) != start {
      var i :| 0 <= i < |blobs| && Painted(g, start, blobs, k) == Paint(g, blobs[i], k);
      assert blobs[i] in multiset(others);
      var j :| 0 <= j < |others| && others[j] == blobs[i];
    }
  }

  /** A blob of positive intensity never paints a farther cell more strongly than a nearer one. */
  lemma FartherIsFainter(g: Grid, b: Blob, col: nat, row: nat, farCol: nat, farRow: nat)
    requires b.intensity >= 0.0 && Distance(g, b, col, row) <= Distance(g, b, farCol, farRow)
    ensures PaintAt(g, b, farCol, farRow) <= PaintAt(g, b, col, row)
  {
    hide Falloff, Distance;
    var d, e := Distance(g, b, col, row), Distance(g, b, farCol, farRow);
    FalloffFalls(g, b, d, e);
    Fainter(b.intensity, Falloff(g, b, d), Falloff(g, b, e));
  }

  lemma Fainter(intensity: real, near: real, far: real)
    requires intensity >= 0.0 && far <= near
    ensures Offer(intensity, far) <= Offer(intensity, near)
  {
    NonNegative(intensity, near - far);
    Spread(intensity, near, far);
    ClampMonotone(intensity * far, intensity * near);
  }

  lemma ClampMonotone(x: real, y: real)
    requires x <= y
    ensures Clamp(x) <= Clamp(y)
  {
  }

  lemma FalloffFalls(g: Grid, b: Blob, d: real, e: real)
    requires d <= e
    ensures 0.0 <= Falloff(g, b, e) <= Falloff(g, b, d) <= 1.0
  {
    hide Smoothstep, RadiusCells;
    SmoothstepShape(0.0, RadiusCells(g, b), d, e);
  }

  lemma Spread(k: real, a: real, b: real)
    ensures k * (a - b) == k * a - k * b
  {
  }

  // ------------------------------------------------------------ the painted values themselves

  /** The ramp rises from 0 in the first column to 1 in the last, by the same step from column to column. */
  lemma RampShape(g: Grid, x: nat)
    requires g.width > 1 && x < g.width - 1
    ensures RampAt(g, 0) == 0.0 && RampAt(g, g.width - 1) == 1.0
    ensures RampAt(g, x + 1) - RampAt(g, x) == RampAt(g, 1)
  {
    var w := (g.width - 1) as real;
    SameDenominator((x + 1) as real, x as real, w);
  }

  lemma SameDenominator(a: real, b: real, w: real)
    requires w != 0.0
    ensures a / w - b / w == (a - b) / w
  {
  }

  /** A ramp of one column is full. */
  lemma RampOfOneColumn(g: Grid, x: nat)
    requires g.width == 1
    ensures RampAt(g, x) == 1.0
  {
  }

  /** Stripes alternate, and the first column is full. */
  lemma StripesAlternate(x: nat)
    ensures StripeAt(0) == 1.0 && StripeAt(x + 1) == 1.0 - StripeAt(x)
  {
  }

  /** What each pattern puts into a cell, and that without one the grid starts at nothing. */
  lemma PatternValues(g: Grid, k: nat)
    requires g.width > 0
    ensures PatternCell(g, "full", k) == 1.0
    ensures PatternCell(g, "ramp", k) == RampAt(g, k % g.width)
    ensures PatternCell(g, "stripes", k) == StripeAt(k % g.width)
    ensures StartCell(g, None, k) == StartCell(g, Some(""), k) == 0.0
  {
    assert "full"[0] == 'f' && "ramp"[0] == 'r' && "stripes"[0] == 's';
  }

  lemma ProgressAt(edge0: real, edge1: real, t: real)
    requires edge1 - edge0 >= 0.000001 && 0.0 <= t <= 1.0
    ensures Progress(edge0, edge1, edge0 + t * (edge1 - edge0)) == t
  {
    var w := edge1 - edge0;
    var x := t * w;
    assert x / w == t;
    assert edge0 + t * (edge1 - edge0) - edge0 == x;
  }

  /**
   The step is 0 up to the first edge and 1 from the second on; between them it is symmetric about the middle and
   leaves both ends without a kink: near its start it is at most three times the square of the progress.
   */
  lemma SmoothstepValues(edge0: real, edge1: real, t: real)
    requires edge1 - edge0 >= 0.000001 && 0.0 <= t <= 1.0
    ensures Smoothstep(edge0, edge1, edge0) == 0.0 && Smoothstep(edge0, edge1, edge1) == 1.0
    ensures Smoothstep(edge0, edge1, edge0 + t * (edge1 - edge0))
        + Smoothstep(edge0, edge1, edge0 + (1.0 - t) * (edge1 - edge0)) == 1.0
    ensures Smoothstep(edge0, edge1, edge0 + t * (edge1 - edge0)) <= 3.0 * (t * t)
  {
    ProgressAt(edge0, edge1, t);
    ProgressAt(edge0, edge1, 1.0 - t);
    ProgressAt(edge0, edge1, 0.0);
    ProgressAt(edge0, edge1, 1.0);
    Symmetric(t);
    NonNegative(t, t);
    NonNegative(t * t, t);
    Stretch(t);
  }

  lemma Symmetric(t: real)
    ensures t * t * (3.0 - 2.0 * t) + (1.0 - t) * (1.0 - t) * (3.0 - 2.0 * (1.0 - t)) == 1.0
  {
    var s, c := t * t, t * t * t;
    assert t * t * (3.0 - 2.0 * t) == 3.0 * s - 2.0 * c;
    assert (1.0 - t) * (1.0 - t) == 1.0 - 2.0 * t + s;
    assert (1.0 - 2.0 * t + s) * (1.0 + 2.0 * t) == 1.0 - 3.0 * s + 2.0 * c;
  }

  lemma Stretch(t: real)
    ensures t * t * (3.0 - 2.0 * t) == 3.0 * (t * t) - 2.0 * (t * t * t)
  {
  }

  /** How far a blob reaches, in cells: its radius as a share of the longer side, and never quite nothing. */
  function Reach(g: Grid, b: Blob): real {
    var longer := if g.width >= g.height then g.width else g.height;
    if b.radius * longer as real < 0.000001 then 0.000001 else b.radius * longer as real
  }

  /**
   A blob paints its centre with its full intensity, cut to [0, 1]; a blob of positive intensity paints every cell
   nearer than its reach, and none from there on.
   */
  lemma BlobShape(g: Grid, b: Blob, col: nat, row: nat)
    requires Distance(g, b, col, row) >= 0.0
    ensures Distance(g, b, col, row) == 0.0 ==> PaintAt(g, b, col, row) == Clamp(b.intensity)
    ensures b.intensity > 0.0 ==> (PaintAt(g, b, col, row) > 0.0 <==> Distance(g, b, col, row) < Reach(g, b))
  {
    hide Distance;
    var d, r := Distance(g, b, col, row), Reach(g, b);
    FalloffShape(g, b, d);
    if b.intensity > 0.0 && d < r { PositiveProduct(b.intensity, Falloff(g, b, d)); }
  }

  lemma PositiveProduct(a: real, b: real)
    requires a > 0.0 && b > 0.0
    ensures a * b > 0.0
  {
  }

  lemma FalloffShape(g: Grid, b: Blob, d: real)
    requires d >= 0.0
    ensures d == 0.0 ==> Falloff(g, b, d) == 1.0
    ensures if d < Reach(g, b) then Falloff(g, b, d) > 0.0 else Falloff(g, b, d) == 0.0
  {
    var r := Reach(g, b);
    assert Max(RadiusCells(g, b) - 0.0, 0.000001) == r;
    if d >= r { QuotientMonotone(r, d, r); } else { BelowOne(d, r); }
    var t := Progress(0.0, RadiusCells(g, b), d);
    if d < r { StepBelowOne(t); }
  }

  lemma PositiveQuotient(a: real, b: real)
    requires a > 0.0 && b > 0.0
    ensures a / b > 0.0
  {
  }

  lemma BelowOne(d: real, r: real)
    requires 0.0 <= d < r
    ensures 0.0 <= d / r < 1.0
  {
    PositiveQuotient(r - d, r);
    SameDenominator(r, d, r);
  }

  function Times(a: real, b: real): real { a * b }

  lemma PositiveTimes(a: real, b: real)
    requires a > 0.0 && b > 0.0
    ensures Times(a, b) > 0.0
  {
  }

  lemma StepFromAbove(t: real)
    ensures 1.0 - t * t * (3.0 - 2.0 * t) == Times(1.0 - t, Times(1.0 - t, 1.0 + 2.0 * t))
  {
  }

  lemma StepBelowOne(t: real)
    requires 0.0 <= t < 1.0
    ensures t * t * (3.0 - 2.0 * t) < 1.0
  {
    hide Times;
    StepFromAbove(t);
    PositiveTimes(1.0 - t, 1.0 + 2.0 * t);
    PositiveTimes(1.0 - t, Times(1.0 - t, 1.0 + 2.0 * t));
  }

  /** Distances are taken between cell centres: of a blob on the centre of a cell, column by column and row by row. */
  lemma DistanceIsBetweenCentres(g: Grid, b: Blob, col: nat, row: nat, centreCol: nat, centreRow: nat)
    requires b.x * g.width as real == centreCol as real + 0.5 && b.y * g.height as real == centreRow as real + 0.5
    ensures Distance(g, b, col, row) == Apart(g, (col - centreCol) as real, (row - centreRow) as real)
  {
    CentreOffset(col, b.x, g.width, centreCol);
    CentreOffset(row, b.y, g.height, centreRow);
  }

  lemma CentreOffset(cell: nat, share: real, side: nat, centreCell: nat)
    requires share * side as real == centreCell as real + 0.5
    ensures Offset(cell, share, side) == (cell - centreCell) as real
  {
  }

  // ------------------------------------------------------------ painting in place

  datatype Error = UnknownPattern | RadiusNotPositive

  method FillPaintPattern(values: array<real>, g: Grid, pattern: string) returns (error: Option<Error>)
    requires g.width > 0 && values.Length == g.width * g.height
    modifies values
    ensures error == if KnownPattern(pattern) then None else Some(UnknownPattern)
    ensures error.None? ==> forall k :: 0 <= k < values.Length ==> values[k] == PatternCell(g, pattern, k)
    ensures error.Some? ==> values[..] == old(values[..])
  {
    if pattern == "full" {
      for i := 0 to values.Length
        invariant forall k :: 0 <= k < i ==> values[k] == 1.0
      {
        values[i] := 1.0;
      }
      return None;
    }
    if pattern == "ramp" {
      FillRamp(values, g);
      return None;
    }
    if pattern == "stripes" {
      FillStripes(values, g);
      return None;
    }
    return Some(UnknownPattern);
  }

  /** Lines 81-83. */
  method FillRamp(values: array<real>, g: Grid)
    requires g.width > 0 && values.Length == g.width * g.height
    modifies values
    ensures forall k :: 0 <= k < values.Length ==> values[k] == RampAt(g, k % g.width)
  {
    hide RampAt;
    for y := 0 to g.height
      invariant y * g.width <= values.Length
      invariant forall k :: 0 <= k < y * g.width ==> values[k] == RampAt(g, k % g.width)
    {
      CellInGrid(g, y);
      var first := y * g.width;
      for x := 0 to g.width
        invariant first + g.width <= values.Length
        invariant forall k :: 0 <= k < first + x ==> values[k] == RampAt(g, k % g.width)
      {
        DivisionIsUnique(first + x, g.width, y, x);
        values[first + x] := RampAt(g, x);
      }
    }
  }

  /** Lines 87-89. */
  method FillStripes(values: array<real>, g: Grid)
    requires g.width > 0 && values.Length == g.width * g.height
    modifies values
    ensures forall k :: 0 <= k < values.Length ==> values[k] == StripeAt(k % g.width)
  {
    hide StripeAt;
    for y := 0 to g.height
      invariant y * g.width <= values.Length
      invariant forall k :: 0 <= k < y * g.width ==> values[k] == StripeAt(k % g.width)
    {
      CellInGrid(g, y);
      var first := y * g.width;
      for x := 0 to g.width
        invariant first + g.width <= values.Length
        invariant forall k :: 0 <= k < first + x ==> values[k] == StripeAt(k % g.width)
      {
        DivisionIsUnique(first + x, g.width, y, x);
        values[first + x] := StripeAt(x);
      }
    }
  }

  lemma CellInGrid(g: Grid, y: nat)
    requires y < g.height
    ensures y * g.width + g.width <= g.width * g.height
    ensures (y + 1) * g.width == y * g.width + g.width
  {
    Product(g.height - y - 1, g.width);
    assert g.width * g.height == (g.height - y - 1) * g.width + (y + 1) * g.width;
  }

  lemma PaintOfCell(g: Grid, b: Blob, row: nat, col: nat)
    requires col < g.width
    ensures Paint(g, b, row * g.width + col) == Offer(b.intensity, Falloff(g, b, Distance(g, b, col, row)))
  {
    hide Falloff, Offer, Distance;
    var k: nat := row * g.width + col;
    DivisionIsUnique(k, g.width, row, col);
    assert k % g.width == col;
    assert k / g.width == row;
    assert Paint(g, b, k) == PaintAt(g, b, col, row);
  }

  method AddPaintBlob(values: array<real>, g: Grid, b: Blob) returns (error: Option<Error>)
    requires g.width > 0 && values.Length == g.width * g.height
    modifies values
    ensures error == if b.radius > 0.0 then None else Some(RadiusNotPositive)
    ensures error.None? ==> forall k :: 0 <= k < values.Length ==> values[k] == Max(old(values[k]), Paint(g, b, k))
    ensures error.Some? ==> values[..] == old(values[..])
  {
    hide Falloff, Offer, Paint, Distance;
    if b.radius <= 0.0 {
      return Some(RadiusNotPositive);
    }
    for row := 0 to g.height
      invariant row * g.width <= values.Length
      invariant forall k :: 0 <= k < row * g.width ==> values[k] == Max(old(values[k]), Paint(g, b, k))
      invariant forall k :: row * g.width <= k < values.Length ==> values[k] == old(values[k])
    {
      CellInGrid(g, row);
      for col := 0 to g.width
        invariant row * g.width + g.width <= values.Length
        invariant forall k :: 0 <= k < row * g.width + col ==> values[k] == Max(old(values[k]), Paint(g, b, k))
        invariant forall k :: row * g.width + col <= k < values.Length ==> values[k] == old(values[k])
      {
        var index := row * g.width + col;
        PaintOfCell(g, b, row, col);
        var falloff := Falloff(g, b, Distance(g, b, col, row));
        values[index] := Max(values[index], Offer(b.intensity, falloff));
      }
    }
    return None;
  }

  /** Lines 21-40: the grid a pattern and a list of blobs produce; the first faulty part stops the build. */
  method BuildPaintSeed(g: Grid, pattern: Option<string>, blobs: seq<Blob>)
      returns (values: array<real>, error: Option<Error>)
    requires g.width > 0
    ensures fresh(values) && values.Length == g.width * g.height
    ensures error == if pattern.Some? && pattern.value != "" && !KnownPattern(pattern.value) then Some(UnknownPattern)
                     else if exists i :: 0 <= i < |blobs| && blobs[i].radius <= 0.0 then Some(RadiusNotPositive)
                     else None
    ensures error.None? ==> forall k :: 0 <= k < values.Length ==>
        values[k] == Painted(g, StartCell(g, pattern, k), blobs, k)
  {
    hide Paint, PatternCell;
    Product(g.width, g.height);
    values := new real[g.width * g.height](i => 0.0);
    if pattern.Some? && pattern.value != "" {
      error := FillPaintPattern(values, g, pattern.value);
      if error.Some? {
        return;
      }
    }
    for i := 0 to |blobs|
      invariant fresh(values) && values.Length == g.width * g.height
      invariant forall j :: 0 <= j < i ==> blobs[j].radius > 0.0
      invariant forall k :: 0 <= k < values.Length ==> values[k] == Painted(g, StartCell(g, pattern, k), blobs[..i], k)
    {
      ghost var before := values[..];
      error := AddPaintBlob(values, g, blobs[i]);
      if error.Some? {
        return;
      }
      assert blobs[..i + 1][..i] == blobs[..i];
      assert forall k :: 0 <= k < values.Length ==> values[k] == Max(before[k], Paint(g, blobs[i], k));
    }
    assert blobs[..|blobs|] == blobs;
    error := None;
  }
}
