/**
 * Resampling several time series onto one time grid (`unify_time_data`,
 * `interpolate_time_data` and the type policy of `interp1d_dtype`). Times
 * are integers. The numeric interpolator (scipy's `interp1d`) is a
 * parameter of the model; object columns take the nearest sample and
 * integer columns are rounded half to even, as `np.round` does.
 */
module TimeUnify {
  import opened Common
  import opened Tables
  import Dtypes

  datatype UnifyError =
    | DomainNotAvailable
    | MissingTimeKey
    | NoTables
    | EmptyTable
    | NonIntegerTime
    | ZeroInterval
    | SampleCountMismatch
    | DuplicateTimes
    | TooFewSamples
    | BelowRange(column: string)
    | AboveRange(column: string)
    | NotComparable(column: string)
    | ValuesNotMatching(column: string)

  // ---------------------------------------------------------------------------
  // The intersection window

  function MinOf(s: seq<int>): (m: int)
    requires s != []
    ensures m in s && forall k :: 0 <= k < |s| ==> m <= s[k]
  {
    if |s| == 1 then s[0]
    else
      var m' := MinOf(s[..|s| - 1]);
      assert forall k :: 0 <= k < |s| - 1 ==> s[..|s| - 1][k] == s[k];
      if s[|s| - 1] < m' then s[|s| - 1] else m'
  }

  function MaxOf(s: seq<int>): (m: int)
    requires s != []
    ensures m in s && forall k :: 0 <= k < |s| ==> s[k] <= m
  {
    if |s| == 1 then s[0]
    else
      var m' := MaxOf(s[..|s| - 1]);
      assert forall k :: 0 <= k < |s| - 1 ==> s[..|s| - 1][k] == s[k];
      if s[|s| - 1] > m' then s[|s| - 1] else m'
  }

  predicate NonEmptySeries(ts: seq<seq<int>>)
  {
    forall i :: 0 <= i < |ts| ==> ts[i] != []
  }

  /** The latest start over all series. */
  function LatestStart(ts: seq<seq<int>>): (lo: int)
    requires ts != [] && NonEmptySeries(ts)
    ensures forall i :: 0 <= i < |ts| ==> MinOf(ts[i]) <= lo
    ensures exists i :: 0 <= i < |ts| && MinOf(ts[i]) == lo
  {
    if |ts| == 1 then MinOf(ts[0])
    else
      var init := ts[..|ts| - 1];
      assert forall i :: 0 <= i < |init| ==> init[i] == ts[i];
      var lo' := LatestStart(init);
      var m := MinOf(ts[|ts| - 1]);
      if m > lo' then m else lo'
  }

  /** The earliest end over all series. */
  function EarliestEnd(ts: seq<seq<int>>): (hi: int)
    requires ts != [] && NonEmptySeries(ts)
    ensures forall i :: 0 <= i < |ts| ==> hi <= MaxOf(ts[i])
    ensures exists i :: 0 <= i < |ts| && MaxOf(ts[i]) == hi
  {
    if |ts| == 1 then MaxOf(ts[0])
    else
      var init := ts[..|ts| - 1];
      assert forall i :: 0 <= i < |init| ==> init[i] == ts[i];
      var hi' := EarliestEnd(init);
      var m := MaxOf(ts[|ts| - 1]);
      if m < hi' then m else hi'
  }

  // ---------------------------------------------------------------------------
  // The time grid

  /** `int(np.ceil(a / b))`, computed exactly. */
  function CeilDiv(a: int, b: int): (r: int)
    requires b != 0
    ensures (r - 1) as real < a as real / b as real <= r as real
  {
    if b > 0 then
      var q := (-a) / b;
      assert q * b <= -a < q * b + b;
      DivBounds(a, b, -q);
      -q
    else
      var q := a / (-b);
      assert q * (-b) <= a < q * (-b) + (-b);
      DivBoundsNeg(a, b, -q);
      -q
  }

  lemma DivBounds(a: int, b: int, r: int)
    requires b > 0 && (r - 1) * b < a <= r * b
    ensures (r - 1) as real < a as real / b as real <= r as real
  {
    assert (r - 1) as real * b as real < a as real <= r as real * b as real;
  }

  lemma DivBoundsNeg(a: int, b: int, r: int)
    requires b < 0 && r * b <= a < (r - 1) * b
    ensures (r - 1) as real < a as real / b as real <= r as real
  {
    var nb := -b;
    assert (r - 1) as real * nb as real < (-a) as real <= r as real * nb as real;
    assert a as real / b as real == (-a) as real / nb as real;
  }

  /** `np.arange(start, end, step)` for integers. */
  function Arange(start: int, end: int, step: int): (r: seq<int>)
    requires step != 0
    ensures |r| == if CeilDiv(end - start, step) > 0 then CeilDiv(end - start, step) else 0
    ensures forall k :: 0 <= k < |r| ==> r[k] == start + k * step
  {
    var n := CeilDiv(end - start, step);
    seq(if n > 0 then n else 0, k => start + k * step)
  }

  /**
   * The grid of `unify_time_data` over the window `[start, end]`: the
   * `arange` samples, followed by `end` unless the count is already
   * `nr + 1`; a count other than `nr + 1` then fails the assertion.
   */
  function Grid(start: int, end: int, interval: int): (r: Result<seq<int>, UnifyError>)
    requires interval != 0
    ensures r.Ok? ==> |r.value| == CeilDiv(end - start, interval) + 1
  {
    var nr := CeilDiv(end - start, interval);
    var samples := Arange(start, end, interval);
    var samples' := if |samples| != nr + 1 then samples + [end] else samples;
    if |samples'| != nr + 1 then Err(SampleCountMismatch) else Ok(samples')
  }

  lemma MulMonotone(a: int, b: int, c: int)
    requires a <= b && c >= 0
    ensures a * c <= b * c
  {
  }

  /**
   * Over a window that is not empty and with a positive interval, the grid
   * has `ceil(span / interval) + 1` samples: `start + k * interval` for all
   * but the last, which is `end` itself. It starts at the window start, is
   * strictly increasing, and its last gap lies in `(0, interval]`.
   */
  lemma GridShape(start: int, end: int, interval: int)
    requires interval > 0 && start <= end
    ensures Grid(start, end, interval).Ok?
    ensures var g := Grid(start, end, interval).value;
      var nr := CeilDiv(end - start, interval);
      |g| == nr + 1 && g[0] == start && g[|g| - 1] == end &&
      (forall k :: 0 <= k < |g| - 1 ==> g[k] == start + k * interval) &&
      (forall i, j :: 0 <= i < j < |g| ==> g[i] < g[j]) &&
      (|g| >= 2 ==> 0 < g[|g| - 1] - g[|g| - 2] <= interval)
  {
    var nr := CeilDiv(end - start, interval);
    var span := end - start;
    assert nr >= 0 by {
      assert (nr - 1) as real < span as real / interval as real;
      assert span as real / interval as real >= 0.0;
    }
    assert (nr - 1) * interval < span <= nr * interval by {
      DivBack(span, interval, nr);
    }
    var g := Grid(start, end, interval).value;
    assert |g| == nr + 1;
    if nr == 0 {
      assert span <= 0;
    } else {
      assert g[0] == start;
      GridIncreasing(g, start, end, interval);
    }
  }

  /** Samples `start + k * interval` followed by an `end` beyond the last of them increase strictly. */
  lemma GridIncreasing(g: seq<int>, start: int, end: int, interval: int)
    requires interval > 0 && |g| >= 2 && g[|g| - 1] == end
    requires forall k :: 0 <= k < |g| - 1 ==> g[k] == start + k * interval
    requires (|g| - 2) * interval < end - start
    ensures forall i, j :: 0 <= i < j < |g| ==> g[i] < g[j]
  {
    var nr := |g| - 1;
    forall i, j | 0 <= i < j < |g| ensures g[i] < g[j] {
      if j < nr {
        assert (j - i) * interval > 0;
        assert g[j] - g[i] == (j - i) * interval;
      } else {
        MulMonotone(i, nr - 1, interval);
        assert g[i] <= start + (nr - 1) * interval;
      }
    }
  }

  lemma DivBack(a: int, b: int, r: int)
    requires b > 0 && (r - 1) as real < a as real / b as real <= r as real
    ensures (r - 1) * b < a <= r * b
  {
    assert (r - 1) as real * b as real < a as real <= r as real * b as real;
  }

  /**
   * With a positive interval, the assertion fails exactly when the window end
   * lies at least two intervals before its start. Between one and two
   * intervals before the start the grid is empty, and less than one interval
   * before the start it is the single sample `end`.
   */
  lemma GridReversedWindow(start: int, end: int, interval: int)
    requires interval > 0
    ensures Grid(start, end, interval).Err? <==> end - start <= -2 * interval
    ensures -2 * interval < end - start <= -interval ==> Grid(start, end, interval) == Ok([])
    ensures -interval < end - start < 0 ==> Grid(start, end, interval) == Ok([end])
  {
    var span := end - start;
    var nr := CeilDiv(span, interval);
    DivBack(span, interval, nr);
    if span <= -2 * interval {
      assert nr * interval <= -2 * interval;
      assert nr <= -2;
    } else if span <= -interval {
      assert nr == -1;
    } else if span < 0 {
      assert nr == 0;
      assert Arange(start, end, interval) == [];
      assert [] + [end] == [end];
    } else {
      assert nr >= 0;
    }
  }

  /** Over a non-empty window every grid sample lies inside the window. */
  lemma GridInWindow(start: int, end: int, interval: int)
    requires interval > 0 && start <= end
    ensures Grid(start, end, interval).Ok?
    ensures forall k :: 0 <= k < |Grid(start, end, interval).value| ==>
      start <= Grid(start, end, interval).value[k] <= end
  {
    GridShape(start, end, interval);
  }

  // ---------------------------------------------------------------------------
  // The interpolation policy of interp1d_dtype

  function Dist(a: int, b: int): nat
  {
    if a <= b then b - a else a - b
  }

  /** The sample nearest to `q` (`cKDTree.query`); among equally near samples the first. */
  function Nearest(ts: seq<int>, q: int): (r: nat)
    requires ts != []
    ensures r < |ts|
    ensures forall j :: 0 <= j < |ts| ==> Dist(ts[r], q) <= Dist(ts[j], q)
    ensures forall j :: 0 <= j < r ==> Dist(ts[r], q) < Dist(ts[j], q)
  {
    if |ts| == 1 then 0
    else
      var init := ts[..|ts| - 1];
      assert forall j :: 0 <= j < |init| ==> init[j] == ts[j];
      var j := Nearest(init, q);
      if Dist(ts[|ts| - 1], q) < Dist(ts[j], q) then |ts| - 1 else j
  }

  function AbsR(x: real): real
  {
    if x < 0.0 then -x else x
  }

  /** `np.round`: to the nearest integer, halves to the even one. */
  function RoundHalfEven(x: real): (r: int)
    ensures AbsR(x - r as real) <= 0.5
    ensures AbsR(x - r as real) == 0.5 ==> r % 2 == 0
  {
    var f := x.Floor;
    var d := x - f as real;
    if d < 0.5 then f
    else if d > 0.5 then f + 1
    else if f % 2 == 0 then f else f + 1
  }

  /** The two conditions pin the rounded value down. */
  lemma RoundHalfEvenUnique(x: real, n: int)
    requires AbsR(x - n as real) <= 0.5
    requires AbsR(x - n as real) == 0.5 ==> n % 2 == 0
    ensures n == RoundHalfEven(x)
  {
  }

  /** A numeric cell as a real. */
  function Num(v: Value): real
  {
    match v
    case IntV(i) => i as real
    case RealV(x) => x
    case _ => 0.0
  }

  function Nums(vs: seq<Value>): (r: seq<real>)
    ensures |r| == |vs|
  {
    seq(|vs|, k requires 0 <= k < |vs| => Num(vs[k]))
  }

  /**
   * The numeric interpolator: sample times, sample values and a query time
   * to the interpolated value (scipy's `interp1d` with the caller's `kind`).
   */
  type Interpolator = (seq<int>, seq<real>, int) -> real

  /**
   * One column resampled at the grid times, by the type policy: an `object`
   * column takes the value of the nearest sample, an integer column the
   * interpolated value rounded and kept at its integer type, a real column
   * the interpolated value.
   */
  function Resample(ts: seq<int>, c: Column, grid: seq<int>, interp: Interpolator): (r: Column)
    requires ts != [] && |c.values| == |ts|
    ensures r.name == c.name && r.dtype == c.dtype && |r.values| == |grid|
  {
    var ys := Nums(c.values);
    Column(c.name, c.dtype, seq(|grid|, k requires 0 <= k < |grid| =>
      if c.dtype == Object then c.values[Nearest(ts, grid[k])]
      else if c.dtype.IsInteger() then IntV(Dtypes.Wrap(RoundHalfEven(interp(ts, ys, grid[k])), c.dtype.Bits()))
      else RealV(interp(ts, ys, grid[k]))))
  }

  /**
   * The type policy, value by value: `object` cells come from the sample
   * nearest in time; integer cells hold the interpolated value rounded half
   * to even and cast back to the column's width, so they fit that width and
   * agree with the rounded value modulo `2^bits`, and they are within one
   * half of the interpolated value whenever the rounded value fits; real
   * cells hold the interpolated value.
   */
  lemma ResamplePolicy(ts: seq<int>, c: Column, grid: seq<int>, interp: Interpolator, k: nat)
    requires ts != [] && |c.values| == |ts| && k < |grid|
    ensures var r := Resample(ts, c, grid, interp);
      var y := interp(ts, Nums(c.values), grid[k]);
      (c.dtype == Object ==> exists j :: 0 <= j < |ts| && r.values[k] == c.values[j] &&
                                         forall i :: 0 <= i < |ts| ==> Dist(ts[j], grid[k]) <= Dist(ts[i], grid[k])) &&
      (c.dtype.IsInteger() ==>
         var bits := c.dtype.Bits();
         r.values[k].IntV? && Dtypes.InRange(r.values[k].i, bits) &&
         (r.values[k].i - RoundHalfEven(y)) % Dtypes.Pow2(bits) == 0 &&
         (Dtypes.InRange(RoundHalfEven(y), bits) ==> AbsR(y - r.values[k].i as real) <= 0.5)) &&
      (c.dtype.IsFloat() ==> r.values[k] == RealV(y))
  {
    if c.dtype == Object {
      var j := Nearest(ts, grid[k]);
      assert Resample(ts, c, grid, interp).values[k] == c.values[j];
    } else if c.dtype.IsInteger() {
      var y := interp(ts, Nums(c.values), grid[k]);
      Dtypes.WrapCongruent(RoundHalfEven(y), c.dtype.Bits());
    }
  }

  lemma ResampleTyped(ts: seq<int>, c: Column, grid: seq<int>, interp: Interpolator)
    requires ts != [] && |c.values| == |ts| && Typed(c)
    ensures Typed(Resample(ts, c, grid, interp))
  {
  }

  // ---------------------------------------------------------------------------
  // Merging the resampled tables

  /** `np.allclose(a, b, rtol=1e-1)`: the default absolute tolerance is 1e-8. */
  predicate AllClose(a: seq<Value>, b: seq<Value>)
    requires |a| == |b|
  {
    forall k :: 0 <= k < |a| ==> AbsR(Num(a[k]) - Num(b[k])) <= 0.00000001 + 0.1 * AbsR(Num(b[k]))
  }

  /** One input table with its time column already read. */
  datatype Source = Source(times: seq<int>, table: Table)

  predicate ValidSource(s: Source)
  {
    s.times != [] && Rectangular(s.table) && UniqueNames(s.table) && NRows(s.table) == |s.times|
  }

  predicate ValidSources(srcs: seq<Source>)
  {
    forall i :: 0 <= i < |srcs| ==> ValidSource(srcs[i])
  }

  // ---------------------------------------------------------------------------
  // Building and calling the interpolants

  /** No two samples share a time. */
  predicate DistinctTimes(ts: seq<int>)
  {
    forall i, j :: 0 <= i < j < |ts| ==> ts[i] != ts[j]
  }

  /** The samples a quadratic spline needs; the study reader merges with `kind="quadratic"`. */
  const SplineSamples := 3

  /**
   * Building one numeric interpolant, `interp1d(x, y, kind="quadratic")`:
   * the spline builder rejects repeated times first, then a series too short
   * for a quadratic. Both checks look at the times alone.
   */
  function SplineError(ts: seq<int>): (r: Option<UnifyError>)
    ensures r.None? <==> DistinctTimes(ts) && |ts| >= SplineSamples
    ensures !DistinctTimes(ts) ==> r == Some(DuplicateTimes)
  {
    if !DistinctTimes(ts) then Some(DuplicateTimes)
    else if |ts| < SplineSamples then Some(TooFewSamples)
    else None
  }

  /**
   * Building one table's interpolants, column by column: an `object` column
   * gets a nearest-neighbour tree, which accepts any times, and the first
   * numeric column meets the spline builder's checks.
   */
  function TableFitError(s: Source): (r: Option<UnifyError>)
    ensures r.None? <==> SplineError(s.times).None? || forall c :: 0 <= c < |s.table| ==> s.table[c].dtype == Object
    ensures r.Some? ==> r == SplineError(s.times)
  {
    if exists c :: 0 <= c < |s.table| && s.table[c].dtype != Object then SplineError(s.times) else None
  }

  /** The first loop of the merge fails with the error of the first table whose interpolants cannot be built. */
  function FitError(srcs: seq<Source>): (r: Option<UnifyError>)
    ensures r.None? <==> forall i :: 0 <= i < |srcs| ==> TableFitError(srcs[i]).None?
    ensures r.Some? ==> exists i :: 0 <= i < |srcs| && r == TableFitError(srcs[i]) &&
                                    forall j :: 0 <= j < i ==> TableFitError(srcs[j]).None?
  {
    if srcs == [] then None
    else
      var init := srcs[..|srcs| - 1];
      assert forall i :: 0 <= i < |init| ==> init[i] == srcs[i];
      match FitError(init)
      case Some(e) => Some(e)
      case None => TableFitError(srcs[|srcs| - 1])
  }

  /**
   * Calling one table's interpolant for column `c` at the grid. A numeric
   * interpolant raises when a grid time lies below the first sample time
   * (checked first) or above the last one; the nearest-neighbour tree never
   * does.
   */
  function Evaluate(ts: seq<int>, c: Column, grid: seq<int>, interp: Interpolator): (r: Result<Column, UnifyError>)
    requires ts != [] && |c.values| == |ts|
    ensures r.Ok? <==> c.dtype == Object || forall k :: 0 <= k < |grid| ==> MinOf(ts) <= grid[k] <= MaxOf(ts)
    ensures r.Ok? ==> r.value == Resample(ts, c, grid, interp)
    ensures r.Err? && (exists k :: 0 <= k < |grid| && grid[k] < MinOf(ts)) ==> r.error == BelowRange(c.name)
    ensures r.Err? && (forall k :: 0 <= k < |grid| ==> MinOf(ts) <= grid[k]) ==> r.error == AboveRange(c.name)
  {
    if c.dtype == Object then Ok(Resample(ts, c, grid, interp))
    else if exists k :: 0 <= k < |grid| && grid[k] < MinOf(ts) then Err(BelowRange(c.name))
    else if exists k :: 0 <= k < |grid| && grid[k] > MaxOf(ts) then Err(AboveRange(c.name))
    else Ok(Resample(ts, c, grid, interp))
  }

  /** What one table contributes to the inner loop for a name. */
  datatype Item = Absent | Failed(error: UnifyError) | Sampled(column: Column)

  /** The column `name` of a source evaluated at the grid, when the source has one. */
  function ItemOf(s: Source, name: string, grid: seq<int>, interp: Interpolator): (r: Item)
    requires ValidSource(s)
    ensures r.Absent? <==> !HasColumn(s.table, name)
    ensures !r.Absent? ==> var c := s.table[IndexOf(s.table, name).value];
      (r.Sampled? <==> Evaluate(s.times, c, grid, interp).Ok?) &&
      (r.Sampled? ==> r.column == Resample(s.times, c, grid, interp)) &&
      (r.Failed? ==> Err(r.error) == Evaluate(s.times, c, grid, interp))
  {
    match IndexOf(s.table, name)
    case None => Absent
    case Some(i) =>
      match Evaluate(s.times, s.table[i], grid, interp)
      case Err(e) => Failed(e)
      case Ok(c) => Sampled(c)
  }

  /**
   * The check of a later table's column `c` against the one already taken,
   * `a`: object columns cannot be compared at all, numeric ones must be close.
   */
  function Compare(name: string, a: Column, c: Column): (r: Option<UnifyError>)
    requires |a.values| == |c.values|
    ensures r.None? <==> a.dtype != Object && c.dtype != Object && AllClose(a.values, c.values)
  {
    if a.dtype == Object || c.dtype == Object then Some(NotComparable(name))
    else if !AllClose(a.values, c.values) then Some(ValuesNotMatching(name))
    else None
  }

  /** The column `name` of every table, evaluated at the grid. */
  function Items(srcs: seq<Source>, name: string, grid: seq<int>, interp: Interpolator): (r: seq<Item>)
    requires ValidSources(srcs)
    ensures |r| == |srcs| && AllOfLength(r, |grid|)
    ensures forall i :: 0 <= i < |srcs| ==> r[i] == ItemOf(srcs[i], name, grid, interp)
  {
    seq(|srcs|, i requires 0 <= i < |srcs| => ItemOf(srcs[i], name, grid, interp))
  }

  /** Every evaluated column has `n` values. */
  predicate AllOfLength(items: seq<Item>, n: nat)
  {
    forall i :: 0 <= i < |items| && items[i].Sampled? ==> |items[i].column.values| == n
  }

  /**
   * The inner loop for one column name, over the tables in order: each
   * table holding the name is evaluated, the first gives the column, and
   * every later one is compared with it.
   */
  function MergeColumn(name: string, items: seq<Item>, n: nat): (r: Result<Option<Column>, UnifyError>)
    requires AllOfLength(items, n)
    ensures r.Ok? && r.value.Some? ==> Sampled(r.value.value) in items
    decreases |items|
  {
    if items == [] then Ok(None)
    else
      var init := items[..|items| - 1];
      assert forall i :: 0 <= i < |init| ==> init[i] == items[i];
      match MergeColumn(name, init, n)
      case Err(e) => Err(e)
      case Ok(acc) => MergeStep(name, acc, items[|items| - 1])
  }

  /**
   * One table's turn in the inner loop: `acc` is the column taken so far,
   * `item` the table's evaluated column when it has one.
   */
  function MergeStep(name: string, acc: Option<Column>, item: Item): (r: Result<Option<Column>, UnifyError>)
    requires acc.Some? && item.Sampled? ==> |acc.value.values| == |item.column.values|
    ensures r.Ok? && r.value.Some? ==> r.value == acc || (item.Sampled? && r.value == Some(item.column))
  {
    match item
    case Absent => Ok(acc)
    case Failed(e) => Err(e)
    case Sampled(c) =>
      match acc
      case None => Ok(Some(c))
      case Some(a) =>
        match Compare(name, a, c)
        case None => Ok(acc)
        case Some(e) => Err(e)
  }

  /** A prefix of the tables keeps the column lengths. */
  lemma AllOfLengthPrefix(items: seq<Item>, n: nat, i: nat)
    requires AllOfLength(items, n) && i <= |items|
    ensures AllOfLength(items[..i], n)
  {
  }

  /** The inner loop over one more table is one more step. */
  lemma MergeColumnNext(name: string, items: seq<Item>, n: nat, i: nat)
    requires AllOfLength(items, n) && i < |items|
    ensures AllOfLength(items[..i], n) && AllOfLength(items[..i + 1], n)
    ensures var prev := MergeColumn(name, items[..i], n);
      MergeColumn(name, items[..i + 1], n) == if prev.Err? then prev else MergeStep(name, prev.value, items[i])
  {
    assert items[..i + 1][..i] == items[..i];
    var r := MergeColumn(name, items[..i], n);
    if r.Ok? && r.value.Some? {
      assert Sampled(r.value.value) in items[..i];
    }
  }

  /** `f` is the first table holding the column. */
  predicate FirstHolder(items: seq<Item>, f: int)
  {
    0 <= f < |items| && !items[f].Absent? && forall i :: 0 <= i < f ==> items[i].Absent?
  }

  /** What a later table does to the column `a` already taken: nothing, or the failure it raises. */
  function Verdict(name: string, a: Column, item: Item): (r: Option<UnifyError>)
    requires item.Sampled? ==> |a.values| == |item.column.values|
    ensures r.None? <==> item.Absent? || (item.Sampled? && Compare(name, a, item.column).None?)
  {
    match item
    case Absent => None
    case Failed(e) => Some(e)
    case Sampled(c) => Compare(name, a, c)
  }

  /** The inner loop gives nothing exactly when no table holds the name. */
  lemma {:induction false} MergeColumnNone(name: string, items: seq<Item>, n: nat)
    requires AllOfLength(items, n)
    ensures MergeColumn(name, items, n) == Ok(None) <==> forall i :: 0 <= i < |items| ==> items[i].Absent?
    decreases |items|
  {
    if items != [] {
      var init := items[..|items| - 1];
      assert forall i :: 0 <= i < |init| ==> init[i] == items[i];
      MergeColumnNone(name, init, n);
    }
  }

  /**
   * The inner loop's outcome in closed form. With `f` the first table
   * holding the name: when its evaluation fails, that is the failure;
   * otherwise its column is kept exactly when no later holder fails to
   * evaluate or disagrees with it, and the failure reported is that of the
   * first later holder that does.
   */
  lemma MergeColumnSpec(name: string, items: seq<Item>, n: nat, f: nat)
    requires AllOfLength(items, n) && FirstHolder(items, f)
    ensures var r := MergeColumn(name, items, n);
      (items[f].Failed? ==> r == Err(items[f].error)) &&
      (items[f].Sampled? ==>
         var a := items[f].column;
         (r.Ok? <==> forall j :: f < j < |items| ==> Verdict(name, a, items[j]).None?) &&
         (r.Ok? ==> r.value == Some(a)) &&
         (r.Err? ==> exists j :: f < j < |items| && Some(r.error) == Verdict(name, a, items[j]) &&
                       forall i :: f < i < j ==> Verdict(name, a, items[i]).None?))
  {
    if items[f].Failed? {
      MergeColumnFailedFirst(name, items, n, f);
    } else {
      MergeColumnKept(name, items, n, f);
      MergeColumnFails(name, items, n, f);
    }
  }

  /** A first holder that cannot be evaluated ends the inner loop with its failure. */
  lemma {:induction false} MergeColumnFailedFirst(name: string, items: seq<Item>, n: nat, f: nat)
    requires AllOfLength(items, n) && FirstHolder(items, f) && items[f].Failed?
    ensures MergeColumn(name, items, n) == Err(items[f].error)
    decreases |items|
  {
    var last := |items| - 1;
    var init := items[..last];
    assert forall i :: 0 <= i < |init| ==> init[i] == items[i];
    if f == last {
      MergeColumnNone(name, init, n);
    } else {
      assert FirstHolder(init, f);
      MergeColumnFailedFirst(name, init, n, f);
    }
  }

  /** The success half: the column of the first holder is kept exactly when no later holder objects. */
  lemma {:induction false} MergeColumnKept(name: string, items: seq<Item>, n: nat, f: nat)
    requires AllOfLength(items, n) && FirstHolder(items, f) && items[f].Sampled?
    ensures var r := MergeColumn(name, items, n);
      var a := items[f].column;
      (r.Ok? <==> forall j :: f < j < |items| ==> Verdict(name, a, items[j]).None?) &&
      (r.Ok? ==> r.value == Some(a))
    decreases |items|
  {
    var last := |items| - 1;
    var init := items[..last];
    assert forall i :: 0 <= i < |init| ==> init[i] == items[i];
    var a := items[f].column;
    if f == last {
      MergeColumnNone(name, init, n);
    } else {
      assert FirstHolder(init, f);
      MergeColumnKept(name, init, n, f);
    }
  }

  /** The failure half: the error reported is that of the first later holder that objects. */
  lemma {:induction false} MergeColumnFails(name: string, items: seq<Item>, n: nat, f: nat)
    requires AllOfLength(items, n) && FirstHolder(items, f) && items[f].Sampled?
    ensures var r := MergeColumn(name, items, n);
      var a := items[f].column;
      r.Err? ==> exists j :: f < j < |items| && Some(r.error) == Verdict(name, a, items[j]) &&
                   forall i :: f < i < j ==> Verdict(name, a, items[i]).None?
    decreases |items|
  {
    var last := |items| - 1;
    var init := items[..last];
    assert forall i :: 0 <= i < |init| ==> init[i] == items[i];
    var a := items[f].column;
    var r := MergeColumn(name, items, n);
    var ri := MergeColumn(name, init, n);
    if f == last {
      MergeColumnNone(name, init, n);
    } else {
      assert FirstHolder(init, f);
      MergeColumnFails(name, init, n, f);
      if ri.Ok? && r.Err? {
        MergeColumnKept(name, init, n, f);
        assert Some(r.error) == Verdict(name, a, items[last]);
      }
    }
  }

  /** Every name's inner-loop outcome, in name order. */
  function MergeOutcomes(srcs: seq<Source>, names: seq<string>, grid: seq<int>, interp: Interpolator): (r: seq<Result<Option<Column>, UnifyError>>)
    requires ValidSources(srcs)
    ensures |r| == |names|
    ensures forall k :: 0 <= k < |names| ==> r[k] == MergeColumn(names[k], Items(srcs, names[k], grid, interp), |grid|)
  {
    seq(|names|, k requires 0 <= k < |names| => MergeColumn(names[k], Items(srcs, names[k], grid, interp), |grid|))
  }

  /** The outer loop over the names: the merged columns in order, or the first failure. */
  function Collect(outs: seq<Result<Option<Column>, UnifyError>>): (r: Result<Table, UnifyError>)
  {
    if outs == [] then Ok([])
    else
      match Collect(outs[..|outs| - 1])
      case Err(e) => Err(e)
      case Ok(cols) =>
        match outs[|outs| - 1]
        case Err(e) => Err(e)
        case Ok(None) => Ok(cols)
        case Ok(Some(c)) => Ok(cols + [c])
  }

  /**
   * The outer loop in closed form: it succeeds exactly when every name's
   * inner loop does, the failure is that of the first name that fails, and
   * when every name yields a column the `k`-th merged column is that name's.
   */
  lemma {:induction false} CollectSpec(outs: seq<Result<Option<Column>, UnifyError>>)
    ensures var r := Collect(outs);
      (r.Ok? <==> forall k :: 0 <= k < |outs| ==> outs[k].Ok?) &&
      (r.Err? ==> exists k :: 0 <= k < |outs| && outs[k] == Err(r.error) &&
                              forall i :: 0 <= i < k ==> outs[i].Ok?) &&
      (r.Ok? && (forall k :: 0 <= k < |outs| ==> outs[k] != Ok(None)) ==>
         |r.value| == |outs| && forall k :: 0 <= k < |outs| ==> outs[k] == Ok(Some(r.value[k])))
  {
    if outs != [] {
      var init := outs[..|outs| - 1];
      assert forall k :: 0 <= k < |init| ==> init[k] == outs[k];
      CollectSpec(init);
    }
  }

  predicate Held(srcs: seq<Source>, name: string)
  {
    exists i :: 0 <= i < |srcs| && HasColumn(srcs[i].table, name)
  }

  /** A name some table holds gives a column or a failure, never nothing. */
  lemma HeldGivesColumn(srcs: seq<Source>, name: string, grid: seq<int>, interp: Interpolator)
    requires ValidSources(srcs) && Held(srcs, name)
    ensures MergeColumn(name, Items(srcs, name, grid, interp), |grid|) != Ok(None)
  {
    var items := Items(srcs, name, grid, interp);
    var i :| 0 <= i < |srcs| && HasColumn(srcs[i].table, name);
    assert !items[i].Absent?;
    MergeColumnNone(name, items, |grid|);
  }

  /** Every column name of every table, in table order (`np.concatenate`). */
  function AllNames(srcs: seq<Source>): (r: seq<string>)
    ensures forall x :: x in r <==> exists i :: 0 <= i < |srcs| && HasColumn(srcs[i].table, x)
  {
    if srcs == [] then []
    else
      var init := srcs[..|srcs| - 1];
      assert forall i :: 0 <= i < |init| ==> init[i] == srcs[i];
      AllNames(init) + Names(srcs[|srcs| - 1].table)
  }

  /** `np.setdiff1d(np.unique(all_columns), [time_k])`. */
  function OtherNames(srcs: seq<Source>, timeK: string): (r: seq<string>)
    ensures StrictlySortedStrings(r)
    ensures forall x :: x in r <==> x != timeK && Held(srcs, x)
  {
    var u := SortedUnique(AllNames(srcs));
    WithoutKeepsOrder(u, timeK);
    Without(u, timeK)
  }

  function IntValues(s: seq<int>): (r: seq<Value>)
    ensures |r| == |s| && forall k :: 0 <= k < |s| ==> r[k] == IntV(s[k])
  {
    seq(|s|, k requires 0 <= k < |s| => IntV(s[k]))
  }

  /**
   * The outcome of `interpolate_time_data(dfs, time_k, grid)`: every
   * table's interpolants are built first, then the names are merged.
   */
  function Interpolate(srcs: seq<Source>, timeK: string, grid: seq<int>, interp: Interpolator): (r: Result<Table, UnifyError>)
    requires ValidSources(srcs)
    ensures r.Ok? ==> |r.value| == |OtherNames(srcs, timeK)| + 1
  {
    match FitError(srcs)
    case Some(e) => Err(e)
    case None =>
      var names := OtherNames(srcs, timeK);
      var outs := MergeOutcomes(srcs, names, grid, interp);
      CollectSpec(outs);
      OutcomesHeld(srcs, names, timeK, grid, interp);
      match Collect(outs)
      case Err(e) => Err(e)
      case Ok(cols) => Ok([Column(timeK, Int64, IntValues(grid))] + cols)
  }

  /** Every other name is held by some table, so its inner loop never gives nothing. */
  lemma OutcomesHeld(srcs: seq<Source>, names: seq<string>, timeK: string, grid: seq<int>, interp: Interpolator)
    requires ValidSources(srcs) && names == OtherNames(srcs, timeK)
    ensures forall k :: 0 <= k < |names| ==> MergeOutcomes(srcs, names, grid, interp)[k] != Ok(None)
  {
    forall k | 0 <= k < |names| ensures MergeOutcomes(srcs, names, grid, interp)[k] != Ok(None) {
      assert names[k] in names;
      HeldGivesColumn(srcs, names[k], grid, interp);
    }
  }

  /**
   * `interpolate_time_data` fails with the first table whose interpolants
   * cannot be built, and otherwise exactly when some name's inner loop
   * fails; when it succeeds it builds the time column first, holding the
   * grid, then one column per other name.
   */
  lemma InterpolateShape(srcs: seq<Source>, timeK: string, grid: seq<int>, interp: Interpolator)
    requires ValidSources(srcs)
    ensures var names := OtherNames(srcs, timeK);
      var r := Interpolate(srcs, timeK, grid, interp);
      (FitError(srcs).Some? ==> r == Err(FitError(srcs).value)) &&
      (r.Ok? <==> FitError(srcs).None? &&
                  forall k :: 0 <= k < |names| ==> MergeColumn(names[k], Items(srcs, names[k], grid, interp), |grid|).Ok?) &&
      (r.Ok? ==> |r.value| == |names| + 1 && r.value[0] == Column(timeK, Int64, IntValues(grid)))
  {
    var names := OtherNames(srcs, timeK);
    var outs := MergeOutcomes(srcs, names, grid, interp);
    CollectSpec(outs);
  }

  /** The other columns follow the time column in sorted name order. */
  lemma InterpolateNames(srcs: seq<Source>, timeK: string, grid: seq<int>, interp: Interpolator, k: nat)
    requires ValidSources(srcs)
    requires Interpolate(srcs, timeK, grid, interp).Ok?
    requires k < |OtherNames(srcs, timeK)|
    ensures Interpolate(srcs, timeK, grid, interp).value[k + 1].name == OtherNames(srcs, timeK)[k]
  {
    var names := OtherNames(srcs, timeK);
    var t := Interpolate(srcs, timeK, grid, interp).value;
    InterpolateMerged(srcs, timeK, grid, interp);
    var items := Items(srcs, names[k], grid, interp);
    assert MergeOutcomes(srcs, names, grid, interp)[k] == Ok(Some(t[k + 1]));
    assert MergeColumn(names[k], items, |grid|) == Ok(Some(t[k + 1]));
    assert Sampled(t[k + 1]) in items;
  }

  /** A successful merge holds, after the time column, each other name's inner-loop column. */
  lemma InterpolateMerged(srcs: seq<Source>, timeK: string, grid: seq<int>, interp: Interpolator)
    requires ValidSources(srcs)
    requires Interpolate(srcs, timeK, grid, interp).Ok?
    ensures var names := OtherNames(srcs, timeK);
      var t := Interpolate(srcs, timeK, grid, interp).value;
      FitError(srcs).None? && |t| == |names| + 1 &&
      forall k :: 0 <= k < |names| ==> MergeOutcomes(srcs, names, grid, interp)[k] == Ok(Some(t[k + 1]))
  {
    var names := OtherNames(srcs, timeK);
    var outs := MergeOutcomes(srcs, names, grid, interp);
    InterpolateUnfold(srcs, timeK, grid, interp);
    OutcomesHeld(srcs, names, timeK, grid, interp);
    var t := Interpolate(srcs, timeK, grid, interp).value;
    CollectedColumns(outs, Collect(outs).value, t, Column(timeK, Int64, IntValues(grid)));
  }

  /** A successful merge is the time column followed by the outer loop's columns. */
  lemma InterpolateUnfold(srcs: seq<Source>, timeK: string, grid: seq<int>, interp: Interpolator)
    requires ValidSources(srcs)
    requires Interpolate(srcs, timeK, grid, interp).Ok?
    ensures var outs := MergeOutcomes(srcs, OtherNames(srcs, timeK), grid, interp);
      FitError(srcs).None? && Collect(outs).Ok? &&
      Interpolate(srcs, timeK, grid, interp).value == [Column(timeK, Int64, IntValues(grid))] + Collect(outs).value
  {
  }

  /**
   * An outer loop that succeeds with a column for every name holds them in
   * order, here after a leading column `head`.
   */
  lemma CollectedColumns(outs: seq<Result<Option<Column>, UnifyError>>, cols: Table, t: Table, head: Column)
    requires Collect(outs) == Ok(cols) && t == [head] + cols
    requires forall k :: 0 <= k < |outs| ==> outs[k] != Ok(None)
    ensures |t| == |outs| + 1 && forall k :: 0 <= k < |outs| ==> outs[k] == Ok(Some(t[k + 1]))
  {
    CollectSpec(outs);
    assert forall k :: 0 <= k < |cols| ==> t[k + 1] == cols[k];
  }

  /**
   * The `k`-th other column of a successful merge is the column of the first
   * table holding that name, evaluated at the grid.
   */
  lemma InterpolateColumn(srcs: seq<Source>, timeK: string, grid: seq<int>, interp: Interpolator, k: nat, f: nat)
    requires ValidSources(srcs)
    requires Interpolate(srcs, timeK, grid, interp).Ok?
    requires k < |OtherNames(srcs, timeK)|
    requires FirstHolder(Items(srcs, OtherNames(srcs, timeK)[k], grid, interp), f)
    ensures var name := OtherNames(srcs, timeK)[k];
      ItemOf(srcs[f], name, grid, interp) == Sampled(Interpolate(srcs, timeK, grid, interp).value[k + 1])
  {
    var names := OtherNames(srcs, timeK);
    var t := Interpolate(srcs, timeK, grid, interp).value;
    InterpolateMerged(srcs, timeK, grid, interp);
    var items := Items(srcs, names[k], grid, interp);
    assert MergeOutcomes(srcs, names, grid, interp)[k] == Ok(Some(t[k + 1]));
    assert MergeColumn(names[k], items, |grid|) == Ok(Some(t[k + 1]));
    MergeColumnSpec(names[k], items, |grid|, f);
  }

  /** Every table's columns are typed. */
  predicate TypedSources(srcs: seq<Source>)
  {
    forall i, c :: 0 <= i < |srcs| && 0 <= c < |srcs[i].table| ==> Typed(srcs[i].table[c])
  }

  /**
   * The `k`-th merged column of typed tables holds one value per grid time,
   * keeps its type and carries the `k`-th other name.
   */
  lemma MergedColumnShape(srcs: seq<Source>, timeK: string, grid: seq<int>, interp: Interpolator, k: nat)
    requires ValidSources(srcs) && TypedSources(srcs)
    requires Interpolate(srcs, timeK, grid, interp).Ok?
    requires k < |OtherNames(srcs, timeK)|
    ensures var c := Interpolate(srcs, timeK, grid, interp).value[k + 1];
      |c.values| == |grid| && Typed(c) && c.name == OtherNames(srcs, timeK)[k]
  {
    var names := OtherNames(srcs, timeK);
    var c := Interpolate(srcs, timeK, grid, interp).value[k + 1];
    InterpolateMerged(srcs, timeK, grid, interp);
    InterpolateNames(srcs, timeK, grid, interp, k);
    var items := Items(srcs, names[k], grid, interp);
    assert MergeOutcomes(srcs, names, grid, interp)[k] == Ok(Some(c));
    assert MergeColumn(names[k], items, |grid|) == Ok(Some(c));
    assert Sampled(c) in items;
    var i :| 0 <= i < |items| && items[i] == Sampled(c);
    var j := IndexOf(srcs[i].table, names[k]).value;
    ResampleTyped(srcs[i].times, srcs[i].table[j], grid, interp);
  }

  /**
   * A successful merge of typed tables is itself a well-formed table: the
   * time column and every merged column hold one value per grid time, keep
   * their types, and the names are distinct because the other names are
   * sorted without repeats and exclude the time key.
   */
  lemma InterpolateWellFormed(srcs: seq<Source>, timeK: string, grid: seq<int>, interp: Interpolator)
    requires ValidSources(srcs) && TypedSources(srcs)
    requires Interpolate(srcs, timeK, grid, interp).Ok?
    ensures var t := Interpolate(srcs, timeK, grid, interp).value;
      WellFormed(t) && NRows(t) == |grid| && HasColumn(t, timeK)
  {
    var names := OtherNames(srcs, timeK);
    var t := Interpolate(srcs, timeK, grid, interp).value;
    InterpolateShape(srcs, timeK, grid, interp);
    assert t[0].name == timeK && |t[0].values| == |grid| && Typed(t[0]);
    forall k | 0 < k < |t| ensures |t[k].values| == |grid| && Typed(t[k]) && t[k].name == names[k - 1] {
      MergedColumnShape(srcs, timeK, grid, interp, k - 1);
    }
    TimeThenNames(t, timeK, names);
    assert timeK in Names(t) by { assert Names(t)[0] == timeK; }
  }

  /** The time column followed by columns named in strictly sorted order, none of them the time key, has distinct names. */
  lemma TimeThenNames(t: Table, timeK: string, names: seq<string>)
    requires StrictlySortedStrings(names) && timeK !in names
    requires |t| == |names| + 1 && t[0].name == timeK
    requires forall k :: 0 < k < |t| ==> t[k].name == names[k - 1]
    ensures UniqueNames(t)
  {
    StrictlySortedDistinct(names);
    forall a, b | 0 <= a < b < |t| ensures t[a].name != t[b].name {
      if a == 0 {
        assert names[b - 1] in names;
      }
    }
  }

  /** A successful unification of typed sources is well formed. */
  lemma UnifySourcesWellFormed(srcs: seq<Source>, timeK: string, interval: int, interp: Interpolator)
    requires srcs != [] && ValidSources(srcs) && TypedSources(srcs) && interval != 0
    requires UnifySources(srcs, timeK, interval, interp).Ok?
    ensures var t := UnifySources(srcs, timeK, interval, interp).value;
      WellFormed(t) && HasColumn(t, timeK)
  {
    var ts := TimeSeries(srcs);
    var g := Grid(LatestStart(ts), EarliestEnd(ts), interval);
    InterpolateWellFormed(srcs, timeK, g.value, interp);
  }

  /** The unified table of well-formed tables is well formed and holds the time key. */
  lemma UnifyWellFormed(tables: seq<Table>, timeK: string, interval: int, domain: string, interp: Interpolator)
    requires forall i :: 0 <= i < |tables| ==> WellFormed(tables[i])
    requires Unify(tables, timeK, interval, domain, interp).Ok?
    ensures var t := Unify(tables, timeK, interval, domain, interp).value;
      WellFormed(t) && HasColumn(t, timeK)
  {
    SourcesTyped(tables, timeK);
    UnifySourcesWellFormed(Sources(tables, timeK), timeK, interval, interp);
  }

  /** The sources of well-formed tables are typed. */
  lemma SourcesTyped(tables: seq<Table>, timeK: string)
    requires forall i :: 0 <= i < |tables| ==> WellFormed(tables[i])
    requires TimedTables(tables, timeK)
    ensures TypedSources(Sources(tables, timeK))
  {
    var srcs := Sources(tables, timeK);
    forall i, c | 0 <= i < |srcs| && 0 <= c < |srcs[i].table| ensures Typed(srcs[i].table[c]) {
      assert srcs[i].table == tables[i];
    }
  }

  // ---------------------------------------------------------------------------
  // interpolate_time_data, as the program runs it

  /**
   * `d` is the dictionary of one table's interpolants: it has a key exactly
   * for the table's columns, and each holds the column its interpolant was
   * built from (over the table's times).
   */
  ghost predicate InterpolantsOf(d: map<string, Column>, s: Source)
    requires ValidSource(s)
  {
    forall x :: (x in d <==> HasColumn(s.table, x)) && (x in d ==> d[x] == s.table[IndexOf(s.table, x).value])
  }

  /** The first loop: one dictionary of interpolants per table, or the first failure to build one. */
  method BuildInterpolants(srcs: seq<Source>) returns (r: Result<seq<map<string, Column>>, UnifyError>)
    requires ValidSources(srcs)
    ensures r.Err? <==> FitError(srcs).Some?
    ensures r.Err? ==> FitError(srcs) == Some(r.error)
    ensures r.Ok? ==> |r.value| == |srcs| && forall i :: 0 <= i < |srcs| ==> InterpolantsOf(r.value[i], srcs[i])
  {
    var fs := [];
    for i := 0 to |srcs|
      invariant |fs| == i && forall j :: 0 <= j < i ==> InterpolantsOf(fs[j], srcs[j])
      invariant forall j :: 0 <= j < i ==> TableFitError(srcs[j]).None?
    {
      var d := BuildTable(srcs[i]);
      if d.Err? {
        FirstFitError(srcs, i);
        return Err(d.error);
      }
      AppendInterpolants(fs, d.value, srcs, i);
      fs := fs + [d.value];
    }
    r := Ok(fs);
  }

  /** One more table's dictionary. */
  lemma AppendInterpolants(fs: seq<map<string, Column>>, d: map<string, Column>, srcs: seq<Source>, i: nat)
    requires ValidSources(srcs) && i < |srcs| && |fs| == i
    requires forall j :: 0 <= j < i ==> InterpolantsOf(fs[j], srcs[j])
    requires InterpolantsOf(d, srcs[i])
    ensures forall j :: 0 <= j < i + 1 ==> InterpolantsOf((fs + [d])[j], srcs[j])
  {
    forall j | 0 <= j < i + 1 ensures InterpolantsOf((fs + [d])[j], srcs[j]) {
      if j < i {
        assert (fs + [d])[j] == fs[j];
      } else {
        assert (fs + [d])[j] == d;
      }
    }
  }

  /** The table failing first decides the first loop's failure. */
  lemma {:induction false} FirstFitError(srcs: seq<Source>, i: nat)
    requires i < |srcs| && TableFitError(srcs[i]).Some?
    requires forall j :: 0 <= j < i ==> TableFitError(srcs[j]).None?
    ensures FitError(srcs) == TableFitError(srcs[i])
    decreases |srcs|
  {
    var init := srcs[..|srcs| - 1];
    assert forall j :: 0 <= j < |init| ==> init[j] == srcs[j];
    if i < |init| {
      FirstFitError(init, i);
    } else {
      assert FitError(init).None?;
    }
  }

  /** The inner loop of the first loop, over one table's columns. */
  method BuildTable(s: Source) returns (r: Result<map<string, Column>, UnifyError>)
    requires ValidSource(s)
    ensures r.Err? <==> TableFitError(s).Some?
    ensures r.Err? ==> TableFitError(s) == Some(r.error)
    ensures r.Ok? ==> InterpolantsOf(r.value, s)
  {
    var t := s.table;
    var d := map[];
    for c := 0 to |t|
      invariant KeyedUpTo(d, t, c)
      invariant forall j :: 0 <= j < c ==> t[j].dtype == Object || SplineError(s.times).None?
    {
      if t[c].dtype != Object {
        var e := SplineError(s.times);
        if e.Some? {
          return Err(e.value);
        }
      }
      AddInterpolant(d, t, c);
      d := d[t[c].name := t[c]];
    }
    InterpolantsByPosition(d, s);
    r := Ok(d);
  }

  /** `d` is keyed by the names of the first `c` columns, each holding its column. */
  ghost predicate KeyedUpTo(d: map<string, Column>, t: Table, c: nat)
    requires c <= |t|
  {
    (forall x :: x in d <==> exists j :: 0 <= j < c && t[j].name == x) &&
    forall j :: 0 <= j < c ==> d[t[j].name] == t[j]
  }

  /** Keying one more column by its name keeps the dictionary keyed by the columns seen so far. */
  lemma AddInterpolant(d: map<string, Column>, t: Table, c: nat)
    requires UniqueNames(t) && c < |t|
    requires KeyedUpTo(d, t, c)
    ensures KeyedUpTo(d[t[c].name := t[c]], t, c + 1)
  {
    var d' := d[t[c].name := t[c]];
    forall x | x in d' ensures exists j :: 0 <= j < c + 1 && t[j].name == x {
      if x != t[c].name {
        var j :| 0 <= j < c && t[j].name == x;
      }
    }
  }

  /** A dictionary keyed by the table's column names, each holding its column, is the table's dictionary of interpolants. */
  lemma InterpolantsByPosition(d: map<string, Column>, s: Source)
    requires ValidSource(s)
    requires KeyedUpTo(d, s.table, |s.table|)
    ensures InterpolantsOf(d, s)
  {
    var t := s.table;
    forall x ensures (x in d <==> HasColumn(t, x)) && (x in d ==> d[x] == t[IndexOf(t, x).value]) {
      if x in d {
        var j :| 0 <= j < |t| && t[j].name == x;
        assert Names(t)[j] == x;
        IndexOfName(t, j);
      }
      if HasColumn(t, x) {
        var j := IndexOf(t, x).value;
        assert t[j].name == x;
      }
    }
  }

  /** Once the inner loop fails, it stays failed. */
  lemma {:induction false} MergeColumnSticky(name: string, items: seq<Item>, n: nat, i: nat)
    requires AllOfLength(items, n) && i <= |items|
    requires MergeColumn(name, items[..i], n).Err?
    ensures MergeColumn(name, items, n) == MergeColumn(name, items[..i], n)
    decreases |items|
  {
    if i < |items| {
      var init := items[..|items| - 1];
      assert init[..i] == items[..i];
      MergeColumnSticky(name, init, n, i);
    } else {
      assert items[..i] == items;
    }
  }

  /** Once the outer loop fails, it stays failed. */
  lemma {:induction false} CollectSticky(outs: seq<Result<Option<Column>, UnifyError>>, i: nat)
    requires i <= |outs| && Collect(outs[..i]).Err?
    ensures Collect(outs) == Collect(outs[..i])
  {
    if i < |outs| {
      var init := outs[..|outs| - 1];
      assert init[..i] == outs[..i];
      CollectSticky(init, i);
    } else {
      assert outs[..i] == outs;
    }
  }

  /** One more step of the outer loop. */
  lemma CollectNext(outs: seq<Result<Option<Column>, UnifyError>>, n: nat, cols: Table)
    requires n < |outs| && Collect(outs[..n]) == Ok(cols)
    ensures Collect(outs[..n + 1]) ==
      match outs[n]
      case Err(e) => Err(e)
      case Ok(None) => Ok(cols)
      case Ok(Some(c)) => Ok(cols + [c])
  {
    assert outs[..n + 1][..n] == outs[..n];
  }

  /**
   * `interpolate_time_data` with its loops: the dictionaries of interpolants
   * are built first, then every other name is looked up in them table by
   * table and evaluated at the grid; the first holder gives the column and
   * later holders are compared with it.
   */
  method InterpolateTimeData(srcs: seq<Source>, timeK: string, grid: seq<int>, interp: Interpolator) returns (r: Result<Table, UnifyError>)
    requires ValidSources(srcs)
    ensures r == Interpolate(srcs, timeK, grid, interp)
  {
    var built := BuildInterpolants(srcs);
    if built.Err? {
      return Err(built.error);
    }
    var names := OtherNames(srcs, timeK);
    var merged := MergeNames(srcs, built.value, names, grid, interp);
    if merged.Err? {
      return Err(merged.error);
    }
    r := Ok([Column(timeK, Int64, IntValues(grid))] + merged.value);
  }

  /** The outer loop of the merge, over the names in order, stopping at the first failure. */
  method MergeNames(srcs: seq<Source>, fs: seq<map<string, Column>>, names: seq<string>, grid: seq<int>, interp: Interpolator)
    returns (r: Result<Table, UnifyError>)
    requires ValidSources(srcs)
    requires |fs| == |srcs| && forall i :: 0 <= i < |srcs| ==> InterpolantsOf(fs[i], srcs[i])
    ensures r == Collect(MergeOutcomes(srcs, names, grid, interp))
  {
    ghost var outs := MergeOutcomes(srcs, names, grid, interp);
    var cols: Table := [];
    for n := 0 to |names|
      invariant Collect(outs[..n]) == Ok(cols)
    {
      var o := MergeName(srcs, fs, names[n], grid, interp);
      CollectNext(outs, n, cols);
      match o {
        case Err(e) =>
          CollectSticky(outs, n + 1);
          return Err(e);
        case Ok(None) =>
        case Ok(Some(c)) =>
          cols := cols + [c];
      }
    }
    assert outs[..|names|] == outs;
    r := Ok(cols);
  }

  /** The inner loop of the merge, for one name over the tables in order. */
  method MergeName(srcs: seq<Source>, fs: seq<map<string, Column>>, name: string, grid: seq<int>, interp: Interpolator)
    returns (o: Result<Option<Column>, UnifyError>)
    requires ValidSources(srcs)
    requires |fs| == |srcs| && forall i :: 0 <= i < |srcs| ==> InterpolantsOf(fs[i], srcs[i])
    ensures o == MergeColumn(name, Items(srcs, name, grid, interp), |grid|)
  {
    ghost var items := Items(srcs, name, grid, interp);
    var current: Option<Column> := None;
    for i := 0 to |srcs|
      invariant AllOfLength(items[..i], |grid|)
      invariant MergeColumn(name, items[..i], |grid|) == Ok(current)
    {
      MergeColumnNext(name, items, |grid|, i);
      if name in fs[i] {
        var value := Evaluate(srcs[i].times, fs[i][name], grid, interp);
        match value {
          case Err(e) =>
            assert items[i] == Failed(e);
            MergeColumnSticky(name, items, |grid|, i + 1);
            return Err(e);
          case Ok(v) =>
            assert items[i] == Sampled(v);
            if current.Some? {
              var e := Compare(name, current.value, v);
              if e.Some? {
                MergeColumnSticky(name, items, |grid|, i + 1);
                return Err(e.value);
              }
            } else {
              current := Some(v);
            }
        }
      } else {
        assert items[i] == Absent;
      }
    }
    assert items[..|srcs|] == items;
    o := Ok(current);
  }

  // ---------------------------------------------------------------------------
  // unify_time_data

  /** The time column of a table that has one. */
  function TimeColumn(t: Table, timeK: string): (c: Column)
    requires HasColumn(t, timeK)
    ensures c in t && c.name == timeK
  {
    t[IndexOf(t, timeK).value]
  }

  /** The integer times held by an integer column. */
  function TimesOf(c: Column): (ts: seq<int>)
    requires forall k :: 0 <= k < |c.values| ==> c.values[k].IntV?
    ensures |ts| == |c.values| && forall k :: 0 <= k < |ts| ==> c.values[k] == IntV(ts[k])
  {
    seq(|c.values|, k requires 0 <= k < |c.values| => c.values[k].i)
  }

  /** Every table has a column `timeK`. */
  predicate AllHaveTimeKey(tables: seq<Table>, timeK: string)
  {
    forall i :: 0 <= i < |tables| ==> HasColumn(tables[i], timeK)
  }

  /** Every table's time column has an integer type. */
  predicate AllIntegerTimes(tables: seq<Table>, timeK: string)
    requires AllHaveTimeKey(tables, timeK)
  {
    forall i :: 0 <= i < |tables| ==> TimeColumn(tables[i], timeK).dtype.IsInteger()
  }

  /** Every table has at least one row. */
  predicate AllNonEmpty(tables: seq<Table>)
  {
    forall i :: 0 <= i < |tables| ==> NRows(tables[i]) > 0
  }

  /** Every table has an integer time column `timeK` and at least one row. */
  predicate TimedTables(tables: seq<Table>, timeK: string)
  {
    AllHaveTimeKey(tables, timeK) && AllIntegerTimes(tables, timeK) && AllNonEmpty(tables)
  }

  /** A table with its time column read. */
  function SourceOf(t: Table, timeK: string): (s: Source)
    requires WellFormed(t) && HasColumn(t, timeK)
    requires TimeColumn(t, timeK).dtype.IsInteger() && NRows(t) > 0
    ensures ValidSource(s) && s.table == t
    ensures |s.times| == NRows(t) && forall k :: 0 <= k < |s.times| ==> TimeColumn(t, timeK).values[k] == IntV(s.times[k])
  {
    var j := IndexOf(t, timeK).value;
    assert Typed(t[j]);
    Source(TimesOf(t[j]), t)
  }

  /** The tables with their time columns read. */
  function Sources(tables: seq<Table>, timeK: string): (srcs: seq<Source>)
    requires forall i :: 0 <= i < |tables| ==> WellFormed(tables[i])
    requires TimedTables(tables, timeK)
    ensures |srcs| == |tables| && ValidSources(srcs)
    ensures forall i :: 0 <= i < |tables| ==> srcs[i] == SourceOf(tables[i], timeK)
  {
    seq(|tables|, i requires 0 <= i < |tables| => SourceOf(tables[i], timeK))
  }

  function TimeSeries(srcs: seq<Source>): (ts: seq<seq<int>>)
    requires ValidSources(srcs)
    ensures |ts| == |srcs| && NonEmptySeries(ts)
    ensures forall i :: 0 <= i < |srcs| ==> ts[i] == srcs[i].times
  {
    seq(|srcs|, i requires 0 <= i < |srcs| => srcs[i].times)
  }

  /**
   * The part of `unify_time_data` after its checks: the intersection window
   * of the tables' times, its grid and the merge at the grid.
   */
  function UnifySources(srcs: seq<Source>, timeK: string, interval: int, interp: Interpolator): (r: Result<Table, UnifyError>)
    requires srcs != [] && ValidSources(srcs) && interval != 0
  {
    var ts := TimeSeries(srcs);
    match Grid(LatestStart(ts), EarliestEnd(ts), interval)
    case Err(e) => Err(e)
    case Ok(g) => Interpolate(srcs, timeK, g, interp)
  }

  /**
   * The outcome of `unify_time_data(dfs, time_k, time_interval, domain)`. The
   * checks come in the program's order: the domain, the time key in every
   * table, then the window (which needs a table, and rows in each), the
   * division by the interval and the sample-count assertion.
   */
  function Unify(tables: seq<Table>, timeK: string, interval: int, domain: string, interp: Interpolator): (r: Result<Table, UnifyError>)
    requires forall i :: 0 <= i < |tables| ==> WellFormed(tables[i])
    ensures r.Ok? ==> domain == "intersection" && tables != [] && TimedTables(tables, timeK) && interval != 0
  {
    if domain != "intersection" then Err(DomainNotAvailable)
    else if !AllHaveTimeKey(tables, timeK) then Err(MissingTimeKey)
    else if tables == [] then Err(NoTables)
    else if !AllIntegerTimes(tables, timeK) then Err(NonIntegerTime)
    else if !AllNonEmpty(tables) then Err(EmptyTable)
    else if interval == 0 then Err(ZeroInterval)
    else UnifySources(Sources(tables, timeK), timeK, interval, interp)
  }

  /**
   * Over a non-empty intersection window and with a positive interval, the
   * unified table is the merge of all tables resampled at the grid of the
   * window, and every grid time lies within every table's own time range,
   * so no interpolant is ever called out of its bounds.
   */
  lemma UnifyWindow(srcs: seq<Source>, timeK: string, interval: int, interp: Interpolator)
    requires srcs != [] && ValidSources(srcs) && interval > 0
    requires var ts := TimeSeries(srcs); LatestStart(ts) <= EarliestEnd(ts)
    ensures var ts := TimeSeries(srcs);
      var g := Grid(LatestStart(ts), EarliestEnd(ts), interval);
      g.Ok? &&
      UnifySources(srcs, timeK, interval, interp) == Interpolate(srcs, timeK, g.value, interp) &&
      (forall i, k :: 0 <= i < |srcs| && 0 <= k < |g.value| ==> MinOf(srcs[i].times) <= g.value[k] <= MaxOf(srcs[i].times)) &&
      forall i, name :: 0 <= i < |srcs| ==> !ItemOf(srcs[i], name, g.value, interp).Failed?
  {
    var ts := TimeSeries(srcs);
    var lo, hi := LatestStart(ts), EarliestEnd(ts);
    GridInWindow(lo, hi, interval);
    var g := Grid(lo, hi, interval).value;
    forall i, k | 0 <= i < |srcs| && 0 <= k < |g| ensures MinOf(srcs[i].times) <= g[k] <= MaxOf(srcs[i].times) {
      assert lo <= g[k] <= hi;
      assert ts[i] == srcs[i].times;
    }
    InBoundsNeverFails(srcs, g, interp);
  }

  /** A grid within every table's time range evaluates every column of every table. */
  lemma InBoundsNeverFails(srcs: seq<Source>, grid: seq<int>, interp: Interpolator)
    requires ValidSources(srcs)
    requires forall i, k :: 0 <= i < |srcs| && 0 <= k < |grid| ==> MinOf(srcs[i].times) <= grid[k] <= MaxOf(srcs[i].times)
    ensures forall i, name :: 0 <= i < |srcs| ==> !ItemOf(srcs[i], name, grid, interp).Failed?
  {
    forall i, name | 0 <= i < |srcs| ensures !ItemOf(srcs[i], name, grid, interp).Failed? {
      var ts := srcs[i].times;
      assert forall k :: 0 <= k < |grid| ==> MinOf(ts) <= grid[k] <= MaxOf(ts);
    }
  }

  /**
   * `unify_time_data` as the program runs it: the window, the grid built by
   * `arange` and the appended end, then the loops of `interpolate_time_data`.
   */
  method UnifyTimeData(tables: seq<Table>, timeK: string, interval: int, domain: string, interp: Interpolator)
    returns (r: Result<Table, UnifyError>)
    requires forall i :: 0 <= i < |tables| ==> WellFormed(tables[i])
    ensures r == Unify(tables, timeK, interval, domain, interp)
  {
    if domain != "intersection" {
      return Err(DomainNotAvailable);
    }
    if !AllHaveTimeKey(tables, timeK) {
      return Err(MissingTimeKey);
    }
    if tables == [] {
      return Err(NoTables);
    }
    if !AllIntegerTimes(tables, timeK) {
      return Err(NonIntegerTime);
    }
    if !AllNonEmpty(tables) {
      return Err(EmptyTable);
    }
    if interval == 0 {
      return Err(ZeroInterval);
    }
    r := UnifySourcesData(Sources(tables, timeK), timeK, interval, interp);
  }

  /** The grid built by `arange` and the appended end, then the merge. */
  method UnifySourcesData(srcs: seq<Source>, timeK: string, interval: int, interp: Interpolator)
    returns (r: Result<Table, UnifyError>)
    requires srcs != [] && ValidSources(srcs) && interval != 0
    ensures r == UnifySources(srcs, timeK, interval, interp)
  {
    var ts := TimeSeries(srcs);
    var start, end := LatestStart(ts), EarliestEnd(ts);
    var nrSamples := CeilDiv(end - start, interval);
    var samples := Arange(start, end, interval);
    if |samples| != nrSamples + 1 {
      samples := samples + [end];
    }
    if |samples| != nrSamples + 1 {
      assert Grid(start, end, interval).Err?;
      return Err(SampleCountMismatch);
    }
    assert Grid(start, end, interval) == Ok(samples);
    r := InterpolateTimeData(srcs, timeK, samples, interp);
  }
}
