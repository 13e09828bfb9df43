/**
 * Column type conversion (`simplify_dataframe_dtypes`) on a mutable data
 * frame, the downcast table the study reader applies to visitag data
 * (`dtype_simplify_dict`), and the collapse of the `X`, `Y`, `Z` columns into
 * one position-vector column (`xyz_to_pos_vec`).
 */
module Dtypes {
  import opened Common
  import opened Tables

  // ---------------------------------------------------------------------------
  // Casting single values (`Series.astype`)

  function Pow2(n: nat): (p: nat)
    ensures p >= 1
  {
    if n == 0 then 1 else 2 * Pow2(n - 1)
  }

  /** The values a signed integer of `bits` bits can hold. */
  predicate InRange(i: int, bits: nat)
    requires bits >= 1
  {
    -(Pow2(bits - 1) as int) <= i < Pow2(bits - 1)
  }

  /**
   * Two's-complement truncation of an integer to `bits` bits, as NumPy's
   * integer casts do: the value is moved by multiples of `2^bits` into range.
   */
  function Wrap(i: int, bits: nat): (r: int)
    requires bits >= 1
    ensures InRange(r, bits)
    ensures InRange(i, bits) ==> r == i
    decreases if i >= Pow2(bits - 1) then i else if i < -(Pow2(bits - 1) as int) then -i else 0
  {
    var h: int := Pow2(bits - 1);
    var m := 2 * h;
    assert Pow2(bits) == m;
    if i >= h then Wrap(i - m, bits)
    else if i < -h then Wrap(i + m, bits)
    else i
  }

  /** Wrapping moves a value by a whole number of `2^bits` turns: it keeps the value modulo `2^bits`. */
  lemma {:induction false} WrapCongruent(i: int, bits: nat)
    requires bits >= 1
    ensures (Wrap(i, bits) - i) % Pow2(bits) == 0
    decreases if i >= Pow2(bits - 1) then i else if i < -(Pow2(bits - 1) as int) then -i else 0
  {
    var h: int := Pow2(bits - 1);
    var m := 2 * h;
    assert Pow2(bits) == m;
    var w := Wrap(i, bits);
    if i >= h {
      WrapCongruent(i - m, bits);
      assert w == Wrap(i - m, bits);
      assert (w - (i - m)) % m == 0;
      ModTurn(w - i, m);
      assert w - (i - m) == (w - i) + m;
      assert (w - i) % m == 0;
    } else if i < -h {
      WrapCongruent(i + m, bits);
      assert w == Wrap(i + m, bits);
      assert (w - (i + m)) % m == 0;
      ModTurn(w - (i + m), m);
      assert w - (i + m) + m == w - i;
      assert (w - i) % m == 0;
    } else {
      assert w == i;
      assert (w - i) % m == 0;
    }
  }

  /** Adding one modulus keeps the remainder. */
  lemma ModTurn(x: int, m: int)
    requires m > 0
    ensures (x + m) % m == x % m
  {
    var q := x / m;
    assert x == q * m + x % m;
    assert x + m == (q + 1) * m + x % m;
    ModUnique(x + m, m, q + 1, x % m);
  }

  /** The remainder is the only one in `[0, m)`. */
  lemma ModUnique(y: int, m: int, q: int, r: int)
    requires m > 0 && 0 <= r < m && y == q * m + r
    ensures y % m == r
  {
    var q' := y / m;
    var d := q - q';
    assert d * m == y % m - r by {
      assert y == q' * m + y % m;
      Distribute(q, q', m);
    }
    if d >= 1 {
      Distribute(d, 1, m);
      MulNonneg(d - 1, m);
    } else if d <= -1 {
      Distribute(-d, 1, m);
      MulNonneg(-d - 1, m);
    }
  }

  lemma Distribute(a: int, b: int, m: int)
    ensures (a - b) * m == a * m - b * m
  {
  }

  lemma MulNonneg(a: int, b: int)
    requires a >= 0 && b >= 0
    ensures a * b >= 0
  {
  }

  /** Out-of-range values wrap around: 300 and -129 as `int8`. */
  lemma WrapExamples()
    ensures Wrap(300, 8) == 44 && Wrap(-129, 8) == 127 && Wrap(32767, 16) == 32767
  {
    assert Pow2(8) == 256 && Pow2(7) == 128;
  }

  /** C's conversion of a real to an integer: the fractional part is dropped. */
  function TruncToZero(x: real): (r: int)
    ensures 0.0 <= x ==> 0 <= r && r as real <= x < r as real + 1.0
    ensures x < 0.0 ==> r <= 0 && r as real - 1.0 < x <= r as real
  {
    if x >= 0.0 then x.Floor else -((-x).Floor)
  }

  /**
   * One cell of `astype(to)`. Integers and reals become `to`'s kind, text is
   * parsed as Python's `int`/`float` would, and a cell that cannot be
   * converted makes the cast fail. The conversion to `object` keeps the cell.
   */
  function CastValue(v: Value, to: Dtype): (r: Option<Value>)
    ensures r.Some? && to.IsInteger() ==> r.value.IntV? && InRange(r.value.i, to.Bits())
    ensures r.Some? && to.IsFloat() ==> r.value.RealV?
    ensures to == Object ==> r == Some(v)
    ensures v.IntV? && to.IsInteger() ==> r == Some(IntV(Wrap(v.i, to.Bits())))
    ensures v.IntV? && to.IsFloat() ==> r == Some(RealV(v.i as real))
    ensures v.RealV? && to.IsFloat() ==> r == Some(v)
  {
    if to == Object then Some(v)
    else if to.IsInteger() then
      match v
      case IntV(i) => Some(IntV(Wrap(i, to.Bits())))
      case RealV(x) => Some(IntV(Wrap(TruncToZero(x), to.Bits())))
      case StrV(s) =>
        (match ParseInt(s)
         case Some(i) => Some(IntV(Wrap(i, to.Bits())))
         case None => None)
      case ListV(_) => None
    else
      match v
      case IntV(i) => Some(RealV(i as real))
      case RealV(x) => Some(RealV(x))
      case StrV(s) =>
        (match ParseDecimal(Strip(s))
         case Some(x) => Some(RealV(x))
         case None => None)
      case ListV(_) => None
  }

  /** `c.astype(to)`: every cell converted, or a failure when one cannot be. */
  function CastColumn(c: Column, to: Dtype): (r: Option<Column>)
    ensures r.Some? <==> forall k :: 0 <= k < |c.values| ==> CastValue(c.values[k], to).Some?
    ensures r.Some? ==> r.value.name == c.name && r.value.dtype == to &&
                        |r.value.values| == |c.values| && Typed(r.value)
    ensures r.Some? ==> forall k :: 0 <= k < |c.values| ==> r.value.values[k] == CastValue(c.values[k], to).value
  {
    if forall k :: 0 <= k < |c.values| ==> CastValue(c.values[k], to).Some? then
      Some(Column(c.name, to, seq(|c.values|, k requires 0 <= k < |c.values| => CastValue(c.values[k], to).value)))
    else None
  }

  // ---------------------------------------------------------------------------
  // simplify_dataframe_dtypes

  /**
   * The type a column is converted to: the mapped type for a listed name,
   * `float32` for an unlisted `float64` column when `doubleToFloat` is set,
   * and no conversion otherwise.
   */
  function Target(c: Column, dtypes: map<string, Dtype>, doubleToFloat: bool): Option<Dtype>
  {
    if c.name in dtypes then Some(dtypes[c.name])
    else if doubleToFloat && c.dtype == Float64 then Some(Float32)
    else None
  }

  /** One iteration of the conversion loop: the new column, or a failure. */
  function Converted(c: Column, dtypes: map<string, Dtype>, doubleToFloat: bool): Option<Column>
  {
    match Target(c, dtypes, doubleToFloat)
    case None => Some(c)
    case Some(to) => CastColumn(c, to)
  }

  /** Position of the first column at or after `i` whose conversion fails, or `|t|`. */
  function FailureFrom(t: Table, dtypes: map<string, Dtype>, doubleToFloat: bool, i: nat): (r: nat)
    requires i <= |t|
    ensures i <= r <= |t|
    ensures forall k :: i <= k < r ==> Converted(t[k], dtypes, doubleToFloat).Some?
    ensures r < |t| ==> Converted(t[r], dtypes, doubleToFloat).None?
    decreases |t| - i
  {
    if i == |t| then |t|
    else if Converted(t[i], dtypes, doubleToFloat).None? then i
    else FailureFrom(t, dtypes, doubleToFloat, i + 1)
  }

  function FirstFailure(t: Table, dtypes: map<string, Dtype>, doubleToFloat: bool): (r: nat)
    ensures r <= |t|
    ensures forall k :: 0 <= k < r ==> Converted(t[k], dtypes, doubleToFloat).Some?
    ensures r < |t| ==> Converted(t[r], dtypes, doubleToFloat).None?
  {
    FailureFrom(t, dtypes, doubleToFloat, 0)
  }

  /**
   * The frame after the loop: every column before the first failing one is
   * converted and the rest are as they were. Without a failure this is the
   * whole converted frame.
   */
  function Simplified(t: Table, dtypes: map<string, Dtype>, doubleToFloat: bool): (r: Table)
    ensures |r| == |t|
  {
    var f := FirstFailure(t, dtypes, doubleToFloat);
    seq(|t|, k requires 0 <= k < |t| =>
      if k < f then Converted(t[k], dtypes, doubleToFloat).value else t[k])
  }

  datatype CastError = CastFailed(column: string)

  /** The outcome of the call on a frame with columns `t`. */
  function Simplify(t: Table, dtypes: map<string, Dtype>, doubleToFloat: bool): (r: Result<Table, CastError>)
    ensures r.Ok? <==> forall k :: 0 <= k < |t| ==> Converted(t[k], dtypes, doubleToFloat).Some?
    ensures r.Ok? ==> r.value == Simplified(t, dtypes, doubleToFloat)
    ensures r.Err? ==> exists k :: 0 <= k < |t| && r.error == CastFailed(t[k].name) &&
                                   Converted(t[k], dtypes, doubleToFloat).None?
  {
    var f := FirstFailure(t, dtypes, doubleToFloat);
    if f == |t| then Ok(Simplified(t, dtypes, doubleToFloat)) else Err(CastFailed(t[f].name))
  }

  /**
   * What a successful conversion promises: names and order are kept, a
   * listed column has its mapped type, an unlisted `float64` column becomes
   * `float32` exactly when `doubleToFloat` is set, every other column is
   * left as it was, and a well-formed frame stays well-formed.
   */
  lemma SimplifyColumns(t: Table, dtypes: map<string, Dtype>, doubleToFloat: bool)
    requires Simplify(t, dtypes, doubleToFloat).Ok?
    ensures var r := Simplify(t, dtypes, doubleToFloat).value;
      |r| == |t| && Names(r) == Names(t) &&
      (forall k :: 0 <= k < |t| && t[k].name in dtypes ==> r[k].dtype == dtypes[t[k].name]) &&
      (forall k :: 0 <= k < |t| && t[k].name !in dtypes && t[k].dtype == Float64 ==>
         r[k].dtype == (if doubleToFloat then Float32 else Float64)) &&
      (forall k :: 0 <= k < |t| && t[k].name !in dtypes && (t[k].dtype != Float64 || !doubleToFloat) ==>
         r[k] == t[k]) &&
      (WellFormed(t) ==> WellFormed(r))
  {
    var r := Simplify(t, dtypes, doubleToFloat).value;
    assert forall k :: 0 <= k < |t| ==> r[k] == Converted(t[k], dtypes, doubleToFloat).value;
    assert Names(r) == Names(t);
    if WellFormed(t) {
      assert NRows(r) == NRows(t);
    }
  }

  /** A frame whose every column converts is converted column by column. */
  lemma SimplifyAllConverted(t: Table, dtypes: map<string, Dtype>, doubleToFloat: bool, r: Table)
    requires |r| == |t|
    requires forall k :: 0 <= k < |t| ==> Converted(t[k], dtypes, doubleToFloat) == Some(r[k])
    ensures Simplify(t, dtypes, doubleToFloat) == Ok(r)
  {
    FailureFromStops(t, dtypes, doubleToFloat, 0, |t|);
    assert FirstFailure(t, dtypes, doubleToFloat) == |t|;
    var s := Simplified(t, dtypes, doubleToFloat);
    forall k | 0 <= k < |t| ensures s[k] == r[k] {
      assert s[k] == Converted(t[k], dtypes, doubleToFloat).value;
    }
    assert s == r;
  }

  lemma ConvertedTestColumns(a: Column, b: Column, m: map<string, Dtype>)
    requires a == Column("a", Int64, [IntV(0), IntV(1), IntV(2)])
    requires b == Column("b", Float64, [RealV(0.0), RealV(0.1), RealV(2.0)])
    requires m == map["a" := Float16]
    ensures Converted(a, m, true) == Some(Column("a", Float16, [RealV(0.0), RealV(1.0), RealV(2.0)]))
    ensures Converted(b, m, true) == Some(Column("b", Float32, b.values))
  {
    ConvertedTestIntColumn(a, m);
    ConvertedTestFloatColumn(b, m);
  }

  lemma ConvertedTestIntColumn(a: Column, m: map<string, Dtype>)
    requires a == Column("a", Int64, [IntV(0), IntV(1), IntV(2)])
    requires m == map["a" := Float16]
    ensures Converted(a, m, true) == Some(Column("a", Float16, [RealV(0.0), RealV(1.0), RealV(2.0)]))
  {
    assert Target(a, m, true) == Some(Float16);
    assert CastColumn(a, Float16).value.values == [RealV(0.0), RealV(1.0), RealV(2.0)];
  }

  lemma ConvertedTestFloatColumn(b: Column, m: map<string, Dtype>)
    requires b == Column("b", Float64, [RealV(0.0), RealV(0.1), RealV(2.0)])
    requires m == map["a" := Float16]
    ensures Converted(b, m, true) == Some(Column("b", Float32, b.values))
  {
    assert Target(b, m, true) == Some(Float32);
    assert CastColumn(b, Float32).value.values == b.values;
  }

  /**
   * The frame of the unit test: listed `a` goes from `int64` to `float16`,
   * unlisted `b` from `float64` to `float32`, and `c` is kept.
   */
  lemma SimplifyTestFrame(a: Column, b: Column, c: Column)
    requires a == Column("a", Int64, [IntV(0), IntV(1), IntV(2)])
    requires b == Column("b", Float64, [RealV(0.0), RealV(0.1), RealV(2.0)])
    requires c == Column("c", Object, [StrV("a"), StrV("b"), StrV("c")])
    ensures Simplify([a, b, c], map["a" := Float16], true) ==
      Ok([Column("a", Float16, [RealV(0.0), RealV(1.0), RealV(2.0)]),
          Column("b", Float32, b.values),
          c])
  {
    var m := map["a" := Float16];
    ConvertedTestColumns(a, b, m);
    assert Converted(c, m, true) == Some(c);
    SimplifyAllConverted([a, b, c], m, true,
      [Column("a", Float16, [RealV(0.0), RealV(1.0), RealV(2.0)]), Column("b", Float32, b.values), c]);
  }

  /** The pandas data frame as a mutable object holding its columns. */
  class DataFrame {
    var columns: Table

    constructor (t: Table)
      ensures columns == t
    {
      columns := t;
    }

    /** `df.copy()`. */
    method Copy() returns (d: DataFrame)
      ensures fresh(d) && d.columns == columns
    {
      d := new DataFrame(columns);
    }

    /** `df[name] = c` for the column at position `k`. */
    method SetColumn(k: nat, c: Column)
      requires k < |columns|
      modifies this
      ensures columns == old(columns)[k := c]
    {
      columns := columns[k := c];
    }
  }

  /**
   * `simplify_dataframe_dtypes(df, dtypes, inplace, double_to_float)`. The
   * frame worked on is `df` itself or, without `inplace`, a fresh copy; `df`
   * is then left unchanged. A failing cast stops the loop with the columns
   * before it already converted.
   */
  method SimplifyDataframeDtypes(df: DataFrame, dtypes: map<string, Dtype>, inplace: bool, doubleToFloat: bool)
      returns (r: Result<DataFrame, CastError>)
    modifies df
    ensures inplace ==> df.columns == Simplified(old(df.columns), dtypes, doubleToFloat)
    ensures !inplace ==> df.columns == old(df.columns)
    ensures r.Ok? <==> Simplify(old(df.columns), dtypes, doubleToFloat).Ok?
    ensures r.Ok? ==> r.value.columns == Simplify(old(df.columns), dtypes, doubleToFloat).value
    ensures r.Ok? ==> (if inplace then r.value == df else fresh(r.value))
    ensures r.Err? ==> r == Err(Simplify(old(df.columns), dtypes, doubleToFloat).error)
  {
    var target := df;
    if !inplace {
      target := df.Copy();
    }
    ghost var t := target.columns;
    var i := 0;
    while i < |target.columns|
      invariant 0 <= i <= |t|
      invariant |target.columns| == |t|
      invariant forall k :: 0 <= k < i ==> Converted(t[k], dtypes, doubleToFloat).Some?
      invariant target.columns == seq(|t|, k requires 0 <= k < |t| =>
        if k < i then Converted(t[k], dtypes, doubleToFloat).value else t[k])
      invariant !inplace ==> df.columns == old(df.columns) && fresh(target)
      invariant inplace ==> target == df
    {
      var c := target.columns[i];
      match Converted(c, dtypes, doubleToFloat) {
        case None =>
          assert FirstFailure(t, dtypes, doubleToFloat) == i by {
            FailureFromStops(t, dtypes, doubleToFloat, 0, i);
          }
          assert target.columns == Simplified(t, dtypes, doubleToFloat);
          return Err(CastFailed(c.name));
        case Some(c') =>
          target.SetColumn(i, c');
      }
      i := i + 1;
    }
    assert FirstFailure(t, dtypes, doubleToFloat) == |t| by {
      FailureFromStops(t, dtypes, doubleToFloat, 0, |t|);
    }
    r := Ok(target);
  }

  /** The first failure is the first position whose conversion fails. */
  lemma {:induction false} FailureFromStops(t: Table, dtypes: map<string, Dtype>, doubleToFloat: bool, i: nat, j: nat)
    requires i <= j <= |t|
    requires forall k :: i <= k < j ==> Converted(t[k], dtypes, doubleToFloat).Some?
    requires j < |t| ==> Converted(t[j], dtypes, doubleToFloat).None?
    ensures FailureFrom(t, dtypes, doubleToFloat, i) == j
    decreases j - i
  {
    if i < j {
      FailureFromStops(t, dtypes, doubleToFloat, i + 1, j);
    }
  }

  // ---------------------------------------------------------------------------
  // dtype_simplify_dict

  /**
   * The downcast table of the study reader, in the order of its dict
   * display. `ChannelID` is listed twice; the later entry wins.
   */
  const SimplifyPairs: seq<(string, Dtype)> :=
    [("InAccurateSeverity", Int8), ("ChannelID", Int32), ("MetalSeverity", Int8),
     ("NeedZeroing", Int8), ("ChannelID", Int16), ("TagIndexStatus", Int8), ("Valid", Int8)]

  function DtypeSimplifyDict(): map<string, Dtype>
  {
    MapOfPairs(SimplifyPairs)
  }

  const SimplifyNames: set<string> :=
    {"InAccurateSeverity", "ChannelID", "MetalSeverity", "NeedZeroing", "TagIndexStatus", "Valid"}

  /** The table holds six names. */
  lemma DtypeSimplifyDictKeys()
    ensures DtypeSimplifyDict().Keys == SimplifyNames
  {
    var ps := SimplifyPairs;
    var m := DtypeSimplifyDict();
    forall k | k in m ensures k in SimplifyNames {
      var i :| 0 <= i < |ps| && ps[i].0 == k;
    }
    forall k | k in SimplifyNames ensures k in m {
      assert ps[0].0 == "InAccurateSeverity" && ps[1].0 == "ChannelID" && ps[2].0 == "MetalSeverity";
      assert ps[3].0 == "NeedZeroing" && ps[5].0 == "TagIndexStatus" && ps[6].0 == "Valid";
    }
  }

  /** The table holds six names, `ChannelID` goes to `int16` and the rest to `int8`. */
  lemma DtypeSimplifyDictContents()
    ensures DtypeSimplifyDict().Keys == SimplifyNames
    ensures DtypeSimplifyDict()["ChannelID"] == Int16
    ensures forall k :: k in DtypeSimplifyDict() && k != "ChannelID" ==> DtypeSimplifyDict()[k] == Int8
  {
    DtypeSimplifyDictKeys();
    DtypeSimplifyDictValues();
  }

  lemma DtypeSimplifyDictValues()
    ensures var m := DtypeSimplifyDict();
      SimplifyNames <= m.Keys &&
      m["InAccurateSeverity"] == Int8 && m["ChannelID"] == Int16 && m["MetalSeverity"] == Int8 &&
      m["NeedZeroing"] == Int8 && m["TagIndexStatus"] == Int8 && m["Valid"] == Int8
  {
    var ps := SimplifyPairs;
    DtypeSimplifyDictKeys();
    MapOfPairsLastWins(ps, 0);
    MapOfPairsLastWins(ps, 2);
    MapOfPairsLastWins(ps, 3);
    MapOfPairsLastWins(ps, 4);
    MapOfPairsLastWins(ps, 5);
    MapOfPairsLastWins(ps, 6);
  }

  // ---------------------------------------------------------------------------
  // xyz_to_pos_vec

  datatype PosError = MissingCoordinates

  /** The columns not named `Y` or `Z`, in order (`drop(labels=["Y", "Z"], axis=1)`). */
  function DropYZ(t: Table): (r: Table)
    ensures |r| <= |t|
    ensures forall c :: c in r <==> c in t && c.name != "Y" && c.name != "Z"
  {
    if t == [] then []
    else (if t[0].name == "Y" || t[0].name == "Z" then [] else [t[0]]) + DropYZ(t[1..])
  }

  /**
   * NumPy's common type of the three coordinate columns: integers stay
   * integers only when every column is integral and there is no `object`
   * column; otherwise integers are promoted to reals.
   */
  function CommonValue(v: Value, allIntegral: bool): Value
  {
    if !allIntegral && v.IntV? then RealV(v.i as real) else v
  }

  /** The `[x, y, z]` lists of `np.stack(...).tolist()`, one per row. */
  function PositionVectors(x: Column, y: Column, z: Column, n: nat): (r: seq<Value>)
    requires |x.values| == n && |y.values| == n && |z.values| == n
    ensures |r| == n
  {
    var anyObject := x.dtype == Object || y.dtype == Object || z.dtype == Object;
    var allIntegral := anyObject || (x.dtype.IsInteger() && y.dtype.IsInteger() && z.dtype.IsInteger());
    seq(n, k requires 0 <= k < n =>
      ListV([CommonValue(x.values[k], allIntegral), CommonValue(y.values[k], allIntegral), CommonValue(z.values[k], allIntegral)]))
  }

  /**
   * `xyz_to_pos_vec(t, posLabel)`: fails unless `X`, `Y` and `Z` are all
   * present; otherwise `Y` and `Z` are dropped and `X` becomes the `object`
   * column `posLabel` holding the position vectors. A duplicated coordinate
   * name is read from its first column.
   */
  function XyzToPosVec(t: Table, posLabel: string): (r: Result<Table, PosError>)
    requires Rectangular(t)
    ensures r.Err? <==> !(HasColumn(t, "X") && HasColumn(t, "Y") && HasColumn(t, "Z"))
  {
    match (IndexOf(t, "X"), IndexOf(t, "Y"), IndexOf(t, "Z"))
    case (Some(ix), Some(iy), Some(iz)) =>
      var n := NRows(t);
      var pos := Column(posLabel, Object, PositionVectors(t[ix], t[iy], t[iz], n));
      var kept := DropYZ(t);
      Ok(seq(|kept|, k requires 0 <= k < |kept| => if kept[k].name == "X" then pos else kept[k]))
    case _ => Err(MissingCoordinates)
  }

  /** `a` is `b`, or the real number of the integer `b` (NumPy's promotion). */
  predicate SameNumber(a: Value, b: Value)
  {
    a == b || (b.IntV? && a == RealV(b.i as real))
  }

  /**
   * The result of `xyz_to_pos_vec`: the frame without `Y` and `Z`, with the
   * position column in the place of `X` and every other column untouched.
   */
  lemma XyzToPosVecColumns(t: Table, posLabel: string)
    requires Rectangular(t) && XyzToPosVec(t, posLabel).Ok?
    ensures var r := XyzToPosVec(t, posLabel).value;
      var kept := DropYZ(t);
      |r| == |kept| &&
      (forall k :: 0 <= k < |r| && kept[k].name != "X" ==> r[k] == kept[k]) &&
      (forall k :: 0 <= k < |r| && kept[k].name == "X" ==> r[k].name == posLabel && r[k].dtype == Object) &&
      (forall c :: c in t && c.name != "X" && c.name != "Y" && c.name != "Z" ==> c in r)
  {
    var r := XyzToPosVec(t, posLabel).value;
    var kept := DropYZ(t);
    forall c | c in t && c.name != "X" && c.name != "Y" && c.name != "Z" ensures c in r {
      var k :| 0 <= k < |kept| && kept[k] == c;
      assert r[k] == c;
    }
  }

  /** Row `j` of the position column is `[X[j], Y[j], Z[j]]`. */
  lemma XyzToPosVecRows(t: Table, posLabel: string, k: nat, j: nat)
    requires Rectangular(t) && XyzToPosVec(t, posLabel).Ok?
    requires k < |DropYZ(t)| && DropYZ(t)[k].name == "X" && j < NRows(t)
    ensures var c := XyzToPosVec(t, posLabel).value[k];
      var x := t[IndexOf(t, "X").value];
      var y := t[IndexOf(t, "Y").value];
      var z := t[IndexOf(t, "Z").value];
      |c.values| == NRows(t) && c.values[j].ListV? && |c.values[j].items| == 3 &&
      SameNumber(c.values[j].items[0], x.values[j]) &&
      SameNumber(c.values[j].items[1], y.values[j]) &&
      SameNumber(c.values[j].items[2], z.values[j])
  {
  }

  /** The row count is kept and, when the new label is not taken, so are distinct names. */
  lemma XyzToPosVecWellFormed(t: Table, posLabel: string)
    requires WellFormed(t) && XyzToPosVec(t, posLabel).Ok?
    requires !HasColumn(t, posLabel)
    ensures WellFormed(XyzToPosVec(t, posLabel).value)
    ensures NRows(XyzToPosVec(t, posLabel).value) == NRows(t)
  {
    var r := XyzToPosVec(t, posLabel).value;
    KeptColumns(t, posLabel);
    XyzToPosVecColumns(t, posLabel);
    XyzToPosVecRectangular(t, posLabel);
    XyzToPosVecUnique(t, posLabel);
  }

  lemma KeptColumns(t: Table, posLabel: string)
    requires WellFormed(t) && !HasColumn(t, posLabel)
    ensures forall c :: c in DropYZ(t) ==> c.name != posLabel && |c.values| == NRows(t) && Typed(c)
  {
    forall c | c in DropYZ(t) ensures c.name != posLabel && |c.values| == NRows(t) && Typed(c) {
      var m :| 0 <= m < |t| && t[m] == c;
      assert Names(t)[m] == c.name;
    }
  }

  lemma XyzToPosVecRectangular(t: Table, posLabel: string)
    requires WellFormed(t) && XyzToPosVec(t, posLabel).Ok?
    requires forall c :: c in DropYZ(t) ==> |c.values| == NRows(t) && Typed(c)
    ensures var r := XyzToPosVec(t, posLabel).value;
      r != [] && NRows(r) == NRows(t) && Rectangular(r) && forall k :: 0 <= k < |r| ==> Typed(r[k])
  {
    var r := XyzToPosVec(t, posLabel).value;
    var kept := DropYZ(t);
    var ix := IndexOf(t, "X").value;
    assert t[ix] in kept;
    forall k | 0 <= k < |r| ensures |r[k].values| == NRows(t) && Typed(r[k]) {
      assert kept[k] in kept;
    }
  }

  lemma XyzToPosVecUnique(t: Table, posLabel: string)
    requires WellFormed(t) && XyzToPosVec(t, posLabel).Ok?
    requires forall c :: c in DropYZ(t) ==> c.name != posLabel
    ensures UniqueNames(XyzToPosVec(t, posLabel).value)
  {
    var r := XyzToPosVec(t, posLabel).value;
    var kept := DropYZ(t);
    DropYZUnique(t);
    forall i, j | 0 <= i < j < |r| ensures r[i].name != r[j].name {
      assert kept[i] in kept && kept[j] in kept;
    }
  }

  lemma {:induction false} DropYZUnique(t: Table)
    requires UniqueNames(t)
    ensures UniqueNames(DropYZ(t))
  {
    if t != [] {
      assert UniqueNames(t[1..]);
      DropYZUnique(t[1..]);
      forall c | c in DropYZ(t[1..]) ensures c.name != t[0].name {
        var k :| 0 <= k < |t[1..]| && t[1..][k] == c;
        assert t[k + 1] == c;
      }
    }
  }
}
