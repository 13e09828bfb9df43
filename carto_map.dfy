/**
 * `CartoMap._simplify`: one point object per row of the low-level map's
 * point table, the window-of-interest filter that drops points whose local
 * activation time lies outside the shifted window, and the consistency
 * checks between the mesh and its metadata.
 */
module CartoMaps {
  import opened Common
  import opened PointDetail

  /** What the low-level map hands over: the mesh is represented by its point and cell counts. */
  datatype LLMap = LLMap(name: string, mains: seq<MainData>, raws: seq<RawPoint>,
                         meshNPoints: nat, meshNCells: nat, meshMetadata: map<string, string>)

  datatype MapError =
    | PointFailed(error: PointError)
    | MissingMetadata(key: string)
    | BadMatrix
    | NotAnInteger(key: string)
    | MeshMismatch(key: string)
    | NoPointColumns

  // ---------------------------------------------------------------------------
  // The points

  function Min(a: nat, b: nat): nat
  {
    if a <= b then a else b
  }

  /** `[f(a, b) for a, b in zip(xs, ys)]`. */
  function ZipWith<A, B, C>(f: (A, B) -> C, xs: seq<A>, ys: seq<B>): (zs: seq<C>)
    ensures |zs| == Min(|xs|, |ys|)
  {
    if xs == [] || ys == [] then [] else [f(xs[0], ys[0])] + ZipWith(f, xs[1..], ys[1..])
  }

  lemma {:induction false} ZipWithAt<A, B, C>(f: (A, B) -> C, xs: seq<A>, ys: seq<B>, k: nat)
    requires k < Min(|xs|, |ys|)
    ensures ZipWith(f, xs, ys)[k] == f(xs[k], ys[k])
    decreases k
  {
    if k > 0 {
      ZipWithAt(f, xs[1..], ys[1..], k - 1);
    }
  }

  /** The point constructor with the flag of the map. */
  function Builder(removeNumbers: bool): (MainData, RawPoint) -> Result<PointRecord, PointError>
  {
    (m, r) => Assemble(m, r, removeNumbers)
  }

  /** The constructor outcome of each pair of `zip(points_main_data.iterrows(), point_raw_data)`. */
  function Outcomes(mains: seq<MainData>, raws: seq<RawPoint>, removeNumbers: bool): (outs: seq<Result<PointRecord, PointError>>)
    ensures |outs| == Min(|mains|, |raws|)
  {
    ZipWith(Builder(removeNumbers), mains, raws)
  }

  /** Point `k` is built from the `k`-th main row and the `k`-th raw data. */
  lemma OutcomesAt(mains: seq<MainData>, raws: seq<RawPoint>, removeNumbers: bool, k: nat)
    requires k < Min(|mains|, |raws|)
    ensures Outcomes(mains, raws, removeNumbers)[k] == Assemble(mains[k], raws[k], removeNumbers)
  {
    ZipWithAt(Builder(removeNumbers), mains, raws, k);
  }

  /** The list comprehension over the outcomes: the records in order, or the first error. */
  function Collect(outs: seq<Result<PointRecord, PointError>>): (r: Result<seq<PointRecord>, PointError>)
    ensures r.Ok? ==> |r.value| == |outs|
  {
    if outs == [] then Ok([])
    else
      match outs[0]
      case Err(e) => Err(e)
      case Ok(p) =>
        match Collect(outs[1..])
        case Err(e) => Err(e)
        case Ok(ps) => Ok([p] + ps)
  }

  /**
   * The point records of the map: as many as the shorter input, built in
   * order; the first point that fails its constructor aborts the list.
   */
  function AssemblePoints(mains: seq<MainData>, raws: seq<RawPoint>, removeNumbers: bool): (r: Result<seq<PointRecord>, PointError>)
    ensures r.Ok? ==> |r.value| == Min(|mains|, |raws|)
  {
    Collect(Outcomes(mains, raws, removeNumbers))
  }

  lemma {:induction false} CollectOk(outs: seq<Result<PointRecord, PointError>>, k: nat)
    requires Collect(outs).Ok? && k < |outs|
    ensures outs[k] == Ok(Collect(outs).value[k])
    decreases k
  {
    if k > 0 {
      CollectOk(outs[1..], k - 1);
    }
  }

  lemma {:induction false} CollectErr(outs: seq<Result<PointRecord, PointError>>) returns (k: nat)
    requires Collect(outs).Err?
    ensures k < |outs| && outs[k] == Err(Collect(outs).error) && forall i :: 0 <= i < k ==> outs[i].Ok?
    decreases |outs|
  {
    if outs[0].Ok? {
      var k' := CollectErr(outs[1..]);
      k := k' + 1;
    } else {
      k := 0;
    }
  }

  /** Every outcome a record: the list holds them all. */
  lemma {:induction false} CollectAllOk(outs: seq<Result<PointRecord, PointError>>)
    requires forall k :: 0 <= k < |outs| ==> outs[k].Ok?
    ensures Collect(outs).Ok? && forall k :: 0 <= k < |outs| ==> Collect(outs).value[k] == outs[k].value
    decreases |outs|
  {
    if outs != [] {
      CollectAllOk(outs[1..]);
      assert forall k :: 1 <= k < |outs| ==> outs[1..][k - 1] == outs[k];
    }
  }

  /** The first error among the outcomes is the list's error. */
  lemma {:induction false} CollectFirstErr(outs: seq<Result<PointRecord, PointError>>, i: nat)
    requires i < |outs| && outs[i].Err? && forall k :: 0 <= k < i ==> outs[k].Ok?
    ensures Collect(outs) == Err(outs[i].error)
    decreases i
  {
    if i > 0 {
      CollectFirstErr(outs[1..], i - 1);
    }
  }

  /**
   * The points are assembled one by one: the list succeeds exactly when
   * every point of the zip does, and the `k`-th record is the `k`-th pair's.
   */
  lemma AssemblePointsOk(mains: seq<MainData>, raws: seq<RawPoint>, removeNumbers: bool, k: nat)
    requires AssemblePoints(mains, raws, removeNumbers).Ok? && k < Min(|mains|, |raws|)
    ensures Assemble(mains[k], raws[k], removeNumbers) == Ok(AssemblePoints(mains, raws, removeNumbers).value[k])
  {
    CollectOk(Outcomes(mains, raws, removeNumbers), k);
    OutcomesAt(mains, raws, removeNumbers, k);
  }

  /** A list that fails carries the error of its first failing point. */
  lemma AssemblePointsErr(mains: seq<MainData>, raws: seq<RawPoint>, removeNumbers: bool) returns (k: nat)
    requires AssemblePoints(mains, raws, removeNumbers).Err?
    ensures k < Min(|mains|, |raws|) &&
      Assemble(mains[k], raws[k], removeNumbers) == Err(AssemblePoints(mains, raws, removeNumbers).error) &&
      forall i :: 0 <= i < k ==> Assemble(mains[i], raws[i], removeNumbers).Ok?
  {
    k := CollectErr(Outcomes(mains, raws, removeNumbers));
    OutcomesAt(mains, raws, removeNumbers, k);
    forall i | 0 <= i < k
      ensures Assemble(mains[i], raws[i], removeNumbers).Ok?
    {
      OutcomesAt(mains, raws, removeNumbers, i);
    }
  }

  /**
   * The point objects of the comprehension, created in order; they hold the
   * records of `AssemblePoints`, and the first constructor failure aborts it.
   */
  method BuildPoints(mains: seq<MainData>, raws: seq<RawPoint>, removeNumbers: bool) returns (r: Result<seq<CartoPointDetailData>, PointError>)
    ensures r.Err? ==> AssemblePoints(mains, raws, removeNumbers) == Err(r.error)
    ensures r.Ok? ==> (AssemblePoints(mains, raws, removeNumbers).Ok? &&
      |r.value| == |AssemblePoints(mains, raws, removeNumbers).value| &&
      forall k :: 0 <= k < |r.value| ==> (fresh(r.value[k]) && r.value[k].Valid() &&
        r.value[k].Record() == AssemblePoints(mains, raws, removeNumbers).value[k]))
  {
    var n := Min(|mains|, |raws|);
    ghost var outs := Outcomes(mains, raws, removeNumbers);
    ghost var recs: seq<PointRecord> := [];
    var objs: seq<CartoPointDetailData> := [];
    var i := 0;
    while i < n
      invariant 0 <= i <= n && |objs| == i && |recs| == i
      invariant forall k :: 0 <= k < i ==> outs[k] == Ok(recs[k])
      invariant forall k :: 0 <= k < i ==> fresh(objs[k])
      invariant HoldRecords(objs, recs)
    {
      var p := BuildPoint(mains, raws, removeNumbers, i);
      if p.Err? {
        CollectFirstErr(outs, i);
        return Err(p.error);
      }
      recs := recs + [p.value.Record()];
      objs := objs + [p.value];
      i := i + 1;
    }
    CollectAllOk(outs);
    r := Ok(objs);
  }

  /** Each object is well formed and holds the record at its index. */
  ghost predicate HoldRecords(objs: seq<CartoPointDetailData>, recs: seq<PointRecord>)
    reads set k | 0 <= k < |objs| :: objs[k]
  {
    |objs| == |recs| && forall k :: 0 <= k < |objs| ==> objs[k].Valid() && objs[k].Record() == recs[k]
  }

  /** The `i`-th point object of the comprehension. */
  method BuildPoint(mains: seq<MainData>, raws: seq<RawPoint>, removeNumbers: bool, i: nat) returns (p: Result<CartoPointDetailData, PointError>)
    requires i < Min(|mains|, |raws|)
    ensures p.Err? ==> Outcomes(mains, raws, removeNumbers)[i] == Err(p.error)
    ensures p.Ok? ==> fresh(p.value) && p.value.Valid() && Outcomes(mains, raws, removeNumbers)[i] == Ok(p.value.Record())
  {
    OutcomesAt(mains, raws, removeNumbers, i);
    p := CartoPointDetailData.Create(mains[i], raws[i], removeNumbers);
  }

  // ---------------------------------------------------------------------------
  // The window-of-interest filter

  /** `woi[0] + ref <= lat <= woi[1] + ref`: the activation time lies in the window shifted by the reference. */
  predicate InWoi(woi: (real, real), ref: int, lat: int)
  {
    woi.0 + ref as real <= lat as real <= woi.1 + ref as real
  }

  /** `valid_mask`, computed from the point table's columns. */
  function WoiMask(rows: seq<PointRow>): (mask: seq<bool>)
    ensures |mask| == |rows| && forall i :: 0 <= i < |rows| ==> (mask[i] <==> InWoi(rows[i].woi, rows[i].refAnnotation, rows[i].mapAnnotation))
  {
    seq(|rows|, i requires 0 <= i < |rows| => InWoi(rows[i].woi, rows[i].refAnnotation, rows[i].mapAnnotation))
  }

  /** The same mask on the point records. */
  function RecordMask(ps: seq<PointRecord>): (mask: seq<bool>)
    ensures |mask| == |ps| && forall i :: 0 <= i < |ps| ==> (mask[i] <==> InWoi(ps[i].woi, ps[i].refAnnotation, ps[i].mapAnnotation))
  {
    seq(|ps|, i requires 0 <= i < |ps| => InWoi(ps[i].woi, ps[i].refAnnotation, ps[i].mapAnnotation))
  }

  /** The positions the mask keeps, increasing. */
  function Kept(mask: seq<bool>): (ks: seq<nat>)
    ensures forall k :: 0 <= k < |ks| ==> ks[k] < |mask| && mask[ks[k]]
    ensures forall i :: 0 <= i < |mask| && mask[i] ==> i in ks
    ensures forall a, b :: 0 <= a < b < |ks| ==> ks[a] < ks[b]
  {
    if mask == [] then []
    else
      var ks := Kept(mask[..|mask| - 1]);
      if mask[|mask| - 1] then ks + [|mask| - 1] else ks
  }

  /** Boolean indexing `xs[mask]` followed by `reset_index`: the kept elements, in order, numbered from 0. */
  function Filter<T>(xs: seq<T>, mask: seq<bool>): (r: seq<T>)
    requires |mask| == |xs|
  {
    if xs == [] then []
    else
      var init := Filter(xs[..|xs| - 1], mask[..|xs| - 1]);
      if mask[|xs| - 1] then init + [xs[|xs| - 1]] else init
  }

  /** `xs[mask]` and `ys[mask]`: both lists filtered by one boolean mask, which keeps them equally long. */
  method FilterBoth<T, U>(xs: seq<T>, ys: seq<U>, mask: seq<bool>) returns (xs': seq<T>, ys': seq<U>)
    requires |xs| == |ys| == |mask|
    ensures xs' == Filter(xs, mask) && ys' == Filter(ys, mask) && |xs'| == |ys'|
  {
    xs', ys' := [], [];
    var i := 0;
    while i < |xs|
      invariant 0 <= i <= |xs|
      invariant xs' == Filter(xs[..i], mask[..i]) && ys' == Filter(ys[..i], mask[..i]) && |xs'| == |ys'|
    {
      FilterStep(xs, mask, i);
      FilterStep(ys, mask, i);
      if mask[i] {
        xs', ys' := xs' + [xs[i]], ys' + [ys[i]];
      }
      i := i + 1;
    }
    assert xs[..i] == xs && ys[..i] == ys && mask[..i] == mask;
  }

  /** One more element either joins the filtered prefix or is dropped. */
  lemma FilterStep<T>(xs: seq<T>, mask: seq<bool>, i: nat)
    requires |mask| == |xs| && i < |xs|
    ensures Filter(xs[..i + 1], mask[..i + 1]) == Filter(xs[..i], mask[..i]) + (if mask[i] then [xs[i]] else [])
  {
    assert xs[..i + 1][..i] == xs[..i] && mask[..i + 1][..i] == mask[..i];
  }

  /** The filtered sequence is the input at exactly the kept positions, in their order. */
  lemma {:induction false} FilterKept<T>(xs: seq<T>, mask: seq<bool>)
    requires |mask| == |xs|
    ensures |Filter(xs, mask)| == |Kept(mask)|
    ensures forall k :: 0 <= k < |Kept(mask)| ==> Filter(xs, mask)[k] == xs[Kept(mask)[k]]
    decreases |xs|
  {
    if xs != [] {
      var n := |xs| - 1;
      FilterKept(xs[..n], mask[..n]);
      assert mask[..n] == mask[..|mask| - 1];
    }
  }

  /**
   * The points table and the raw point list are filtered with the same mask,
   * so the `k`-th kept row still describes the `k`-th kept point object.
   */
  lemma FilterAligned(rows: seq<PointRow>, objs: seq<CartoPointDetailData>, mask: seq<bool>, k: nat)
    requires |rows| == |objs| == |mask|
    requires forall i :: 0 <= i < |rows| ==> rows[i].detail == objs[i]
    requires k < |Filter(rows, mask)|
    ensures |Filter(objs, mask)| == |Filter(rows, mask)| && Filter(rows, mask)[k].detail == Filter(objs, mask)[k]
  {
    FilterKept(rows, mask);
    FilterKept(objs, mask);
  }

  /** A point survives the filter exactly when its activation time lies in the shifted window. */
  lemma FilterKeepsValid(ps: seq<PointRecord>, i: nat)
    requires i < |ps|
    ensures ps[i] in Filter(ps, RecordMask(ps)) <== InWoi(ps[i].woi, ps[i].refAnnotation, ps[i].mapAnnotation)
    ensures forall p :: p in Filter(ps, RecordMask(ps)) ==> InWoi(p.woi, p.refAnnotation, p.mapAnnotation)
  {
    var mask := RecordMask(ps);
    FilterKept(ps, mask);
    var ks := Kept(mask);
    if mask[i] {
      var k :| 0 <= k < |ks| && ks[k] == i;
      assert Filter(ps, mask)[k] == ps[i];
    }
    forall p | p in Filter(ps, mask)
      ensures InWoi(p.woi, p.refAnnotation, p.mapAnnotation)
    {
      var k :| 0 <= k < |Filter(ps, mask)| && Filter(ps, mask)[k] == p;
      assert p == ps[ks[k]];
    }
  }

  /** A window of [-50, 50] around a reference at 1000 keeps exactly the activation times 950 to 1050. */
  lemma WoiExample(woi: (real, real), ref: int, lat: int)
    requires woi == (-50.0, 50.0) && ref == 1000
    ensures InWoi(woi, ref, lat) <==> 950 <= lat <= 1050
  {
  }

  // ---------------------------------------------------------------------------
  // The mesh metadata

  /**
   * The numbers `np.fromstring(text, sep=" ")` reads: the whitespace-separated
   * tokens up to the first one that is not a number.
   */
  function NumberPrefix(ws: seq<string>): (r: seq<real>)
    ensures |r| <= |ws| && (|r| < |ws| ==> ParseDecimal(ws[|r|]).None?)
    ensures forall k :: 0 <= k < |r| ==> ParseDecimal(ws[k]) == Some(r[k])
  {
    if ws == [] then []
    else
      match ParseDecimal(ws[0])
      case None => []
      case Some(x) => [x] + NumberPrefix(ws[1..])
  }

  /** `.reshape([4, 4])` of sixteen numbers: four rows of four, row by row. */
  function Reshape4(xs: seq<real>): (a: seq<seq<real>>)
    requires |xs| == 16
  {
    seq(4, i requires 0 <= i < 4 => xs[4 * i..4 * i + 4])
  }

  lemma Reshape4At(xs: seq<real>, i: nat, j: nat)
    requires |xs| == 16 && i < 4 && j < 4
    ensures |Reshape4(xs)| == 4 && |Reshape4(xs)[i]| == 4 && Reshape4(xs)[i][j] == xs[4 * i + j]
  {
  }

  /** The affine: sixteen numbers reshaped; any other count fails. */
  function ParseMatrix(text: string): (r: Option<seq<seq<real>>>)
  {
    var xs := NumberPrefix(Words(text));
    if |xs| != 16 then None else Some(Reshape4(xs))
  }

  /** The matrix is the metadata's first sixteen numbers in row-major order. */
  lemma ParseMatrixRowMajor(text: string, i: nat, j: nat)
    requires ParseMatrix(text).Some? && i < 4 && j < 4
    ensures var a := ParseMatrix(text).value;
      |a| == 4 && |a[i]| == 4 && 4 * i + j < |Words(text)| && ParseDecimal(Words(text)[4 * i + j]) == Some(a[i][j])
  {
    var ws := Words(text);
    var xs := NumberPrefix(ws);
    assert ParseMatrix(text).value == Reshape4(xs);
    Reshape4At(xs, i, j);
    NumberPrefixAt(ws, 4 * i + j);
  }

  lemma NumberPrefixAt(ws: seq<string>, k: nat)
    requires k < |NumberPrefix(ws)|
    ensures k < |ws| && ParseDecimal(ws[k]) == Some(NumberPrefix(ws)[k])
  {
  }

  /**
   * The matrix parses exactly when the first sixteen words of the metadata
   * are numbers and a seventeenth word, if there is one, is not; words after
   * that are never read.
   */
  lemma ParseMatrixShape(text: string)
    ensures var ws := Words(text);
      ParseMatrix(text).Some? <==>
        |ws| >= 16 && (forall k :: 0 <= k < 16 ==> ParseDecimal(ws[k]).Some?) &&
        (|ws| > 16 ==> ParseDecimal(ws[16]).None?)
  {
  }

  /** A metadata field read as a Python `int`. */
  function IntField(meta: map<string, string>, key: string): (r: Result<int, MapError>)
    ensures r.Ok? <==> key in meta && ParseInt(meta[key]).Some?
    ensures r.Ok? ==> ParseInt(meta[key]) == Some(r.value)
    ensures r.Err? ==> r.error == if key in meta then NotAnInteger(key) else MissingMetadata(key)
  {
    if key !in meta then Err(MissingMetadata(key))
    else
      match ParseInt(meta[key])
      case None => Err(NotAnInteger(key))
      case Some(v) => Ok(v)
  }

  /**
   * The affine matrix from `Matrix`, then the two assertions that the mesh
   * has `NumVertex` points and `NumTriangle` cells.
   */
  function MeshChecks(ll: LLMap): (r: Result<seq<seq<real>>, MapError>)
  {
    if "Matrix" !in ll.meshMetadata then Err(MissingMetadata("Matrix"))
    else
      match ParseMatrix(ll.meshMetadata["Matrix"])
      case None => Err(BadMatrix)
      case Some(a) =>
        match IntField(ll.meshMetadata, "NumVertex")
        case Err(e) => Err(e)
        case Ok(nv) =>
          if ll.meshNPoints != nv then Err(MeshMismatch("NumVertex"))
          else
            match IntField(ll.meshMetadata, "NumTriangle")
            case Err(e) => Err(e)
            case Ok(nt) =>
              if ll.meshNCells != nt then Err(MeshMismatch("NumTriangle"))
              else Ok(a)
  }

  /** The mesh is accepted exactly when its counts are the metadata's and the matrix parses. */
  lemma MeshChecksOk(ll: LLMap)
    ensures MeshChecks(ll).Ok? <==>
      "Matrix" in ll.meshMetadata && ParseMatrix(ll.meshMetadata["Matrix"]).Some? &&
      "NumVertex" in ll.meshMetadata && ParseInt(ll.meshMetadata["NumVertex"]) == Some(ll.meshNPoints) &&
      "NumTriangle" in ll.meshMetadata && ParseInt(ll.meshMetadata["NumTriangle"]) == Some(ll.meshNCells)
    ensures MeshChecks(ll).Ok? ==> Some(MeshChecks(ll).value) == ParseMatrix(ll.meshMetadata["Matrix"])
  {
  }

  // ---------------------------------------------------------------------------
  // The whole map

  datatype MapRecord = MapRecord(name: string, points: seq<PointRecord>, affine: seq<seq<real>>)

  /** The outcome of `CartoMap(ll_map, discard_invalid_points, remove_egm_header_numbers)`. */
  function MapOutcome(ll: LLMap, discard: bool, removeNumbers: bool): (r: Result<MapRecord, MapError>)
  {
    match PointsOutcome(ll, discard, removeNumbers)
    case Err(e) => Err(e)
    case Ok(kept) =>
      match MeshChecks(ll)
      case Err(e) => Err(e)
      case Ok(a) => Ok(MapRecord(ll.name, kept, a))
  }

  /**
   * The point part of `_simplify`: no points for an empty table, otherwise
   * the assembled points, filtered on request. A zip left empty by a missing
   * raw point list yields a table without columns, whose `woi` the filter
   * cannot read.
   */
  function PointsOutcome(ll: LLMap, discard: bool, removeNumbers: bool): (r: Result<seq<PointRecord>, MapError>)
  {
    if |ll.mains| == 0 then Ok([])
    else
      match AssemblePoints(ll.mains, ll.raws, removeNumbers)
      case Err(e) => Err(PointFailed(e))
      case Ok(ps) =>
        if !discard then Ok(ps)
        else if ps == [] then Err(NoPointColumns)
        else Ok(Filter(ps, RecordMask(ps)))
  }

  /**
   * A map is built when every point of the zip assembles and the mesh
   * matches its metadata; the points come first, so a failing point is
   * reported before a mesh mismatch. A map without points has none, and
   * with filtering every remaining point lies in its window.
   */
  lemma MapOutcomeSpec(ll: LLMap, discard: bool, removeNumbers: bool)
    ensures var r := MapOutcome(ll, discard, removeNumbers);
      var pts := AssemblePoints(ll.mains, ll.raws, removeNumbers);
      (|ll.mains| > 0 && pts.Err? ==> r == Err(PointFailed(pts.error))) &&
      (|ll.mains| > 0 && ll.raws == [] && discard ==> r == Err(NoPointColumns)) &&
      (r.Ok? <==> (|ll.mains| == 0 || (pts.Ok? && !(discard && ll.raws == []))) && MeshChecks(ll).Ok?) &&
      (r.Ok? ==> r.value.name == ll.name && Some(r.value.affine) == ParseMatrix(ll.meshMetadata["Matrix"])) &&
      (r.Ok? && |ll.mains| == 0 ==> r.value.points == []) &&
      (r.Ok? && !discard && |ll.mains| > 0 ==> r.value.points == pts.value) &&
      (r.Ok? && discard ==> forall p :: p in r.value.points ==> InWoi(p.woi, p.refAnnotation, p.mapAnnotation))
  {
    MeshChecksOk(ll);
    var pts := AssemblePoints(ll.mains, ll.raws, removeNumbers);
    if discard && |ll.mains| > 0 && pts.Ok? && |pts.value| > 0 {
      FilterKeepsValid(pts.value, 0);
    }
  }

  // ---------------------------------------------------------------------------
  // The object

  /** `CartoMap`: the point objects, the point table whose `detail` column refers to them, and the mesh. */
  class CartoMap {
    var name: string
    var pointsRaw: seq<CartoPointDetailData>
    var points: seq<PointRow>
    var meshAffine: seq<seq<real>>
    var meshNPoints: nat
    var meshNCells: nat

    /** Every row of the point table describes the point object at the same position. */
    ghost predicate Valid()
      reads this
    {
      |points| == |pointsRaw| && forall i :: 0 <= i < |points| ==> points[i].detail == pointsRaw[i]
    }

    constructor (name: string, pointsRaw: seq<CartoPointDetailData>, points: seq<PointRow>)
      ensures this.name == name && this.pointsRaw == pointsRaw && this.points == points
      ensures meshAffine == [] && meshNPoints == 0 && meshNCells == 0
    {
      this.name := name;
      this.pointsRaw := pointsRaw;
      this.points := points;
      meshAffine := [];
      meshNPoints := 0;
      meshNCells := 0;
    }

    /** `nr_points`: the length of the point table, which is the number of point objects. */
    function NrPoints(): (n: nat)
      reads this
      ensures Valid() ==> n == |pointsRaw|
    {
      |points|
    }

    /**
     * The `discard_invalid_points` step: the mask computed from the point
     * table's columns is applied both to the table and to the raw list.
     */
    method DiscardInvalidPoints()
      requires Valid()
      modifies this
      ensures points == Filter(old(points), WoiMask(old(points)))
      ensures pointsRaw == Filter(old(pointsRaw), WoiMask(old(points)))
      ensures name == old(name) && meshAffine == old(meshAffine)
      ensures meshNPoints == old(meshNPoints) && meshNCells == old(meshNCells)
      ensures Valid()
    {
      var mask := WoiMask(points);
      var rows, objs := FilterBoth(points, pointsRaw, mask);
      forall k | 0 <= k < |rows|
        ensures rows[k].detail == objs[k]
      {
        FilterAligned(points, pointsRaw, mask, k);
      }
      points, pointsRaw := rows, objs;
    }

    /**
     * `CartoMap.__init__` through `_simplify`: the point objects, their rows,
     * the filter, then the mesh checks; a failure anywhere leaves no map.
     */
    static method Create(ll: LLMap, discard: bool, removeNumbers: bool) returns (r: Result<CartoMap, MapError>)
      ensures r.Err? ==> MapOutcome(ll, discard, removeNumbers) == Err(r.error)
      ensures r.Ok? ==> fresh(r.value) && MapOutcome(ll, discard, removeNumbers).Ok? && r.value.Valid()
      ensures r.Ok? ==> r.value.name == ll.name && r.value.meshAffine == MapOutcome(ll, discard, removeNumbers).value.affine
      ensures r.Ok? ==> r.value.meshNPoints == ll.meshNPoints && r.value.meshNCells == ll.meshNCells
      ensures r.Ok? ==> |r.value.pointsRaw| == |MapOutcome(ll, discard, removeNumbers).value.points|
      ensures r.Ok? ==> forall k :: 0 <= k < |r.value.pointsRaw| ==>
        r.value.pointsRaw[k].Record() == MapOutcome(ll, discard, removeNumbers).value.points[k] &&
        r.value.points[k] == r.value.pointsRaw[k].MainPointRow()
    {
      var w := WithPoints(ll, discard, removeNumbers);
      if w.Err? {
        return Err(w.error);
      }
      var m := w.value;
      var mesh := MeshChecks(ll);
      if mesh.Err? {
        return Err(mesh.error);
      }
      assert MapOutcome(ll, discard, removeNumbers) ==
        Ok(MapRecord(ll.name, PointsOutcome(ll, discard, removeNumbers).value, mesh.value));
      m.SetMesh(mesh.value, ll.meshNPoints, ll.meshNCells);
      r := Ok(m);
    }

    /** `self.mesh = ll_map.mesh` and `self.mesh_affine = ...`. */
    method SetMesh(affine: seq<seq<real>>, nPoints: nat, nCells: nat)
      modifies this
      ensures meshAffine == affine && meshNPoints == nPoints && meshNCells == nCells
      ensures name == old(name) && points == old(points) && pointsRaw == old(pointsRaw)
    {
      meshAffine := affine;
      meshNPoints := nPoints;
      meshNCells := nCells;
    }

    /** The name and the point part of `_simplify`, on a new map whose mesh is still unset. */
    static method WithPoints(ll: LLMap, discard: bool, removeNumbers: bool) returns (r: Result<CartoMap, MapError>)
      ensures r.Err? ==> PointsOutcome(ll, discard, removeNumbers) == Err(r.error)
      ensures r.Ok? ==> fresh(r.value) && PointsOutcome(ll, discard, removeNumbers).Ok? && r.value.Valid()
      ensures r.Ok? ==> r.value.name == ll.name && r.value.meshAffine == [] && r.value.meshNPoints == 0 && r.value.meshNCells == 0
      ensures r.Ok? ==> |r.value.pointsRaw| == |PointsOutcome(ll, discard, removeNumbers).value|
      ensures r.Ok? ==> forall k :: 0 <= k < |r.value.pointsRaw| ==>
        r.value.pointsRaw[k].Record() == PointsOutcome(ll, discard, removeNumbers).value[k] &&
        r.value.points[k] == r.value.pointsRaw[k].MainPointRow()
    {
      var all := PointTable(ll, removeNumbers);
      if all.Err? {
        return Err(PointFailed(all.error));
      }
      var (objs, rows) := all.value;
      ghost var recs := PointsOutcome(ll, false, removeNumbers).value;
      if discard && |ll.mains| > 0 && rows == [] {
        return Err(NoPointColumns);
      }
      var m := new CartoMap(ll.name, objs, rows);
      if discard && |ll.mains| > 0 {
        MasksAgree(rows, objs, recs);
        m.DiscardInvalidPoints();
        FilteredRecordsAligned(rows, objs, recs, WoiMask(rows));
        PointsOutcomeFiltered(ll, removeNumbers);
      }
      r := Ok(m);
    }
  }

  /**
   * The point objects of `_simplify` and their table rows, in order and
   * before any filter; no points at all when the main table is empty.
   */
  method PointTable(ll: LLMap, removeNumbers: bool) returns (r: Result<(seq<CartoPointDetailData>, seq<PointRow>), PointError>)
    ensures r.Err? ==> PointsOutcome(ll, false, removeNumbers) == Err(PointFailed(r.error))
    ensures r.Ok? ==> PointsOutcome(ll, false, removeNumbers).Ok?
    ensures r.Ok? ==> |r.value.0| == |r.value.1| == |PointsOutcome(ll, false, removeNumbers).value|
    ensures r.Ok? ==> forall k :: 0 <= k < |r.value.0| ==>
      r.value.0[k].Record() == PointsOutcome(ll, false, removeNumbers).value[k] &&
      r.value.1[k] == r.value.0[k].MainPointRow()
  {
    if |ll.mains| == 0 {
      return Ok(([], []));
    }
    var built := BuildPoints(ll.mains, ll.raws, removeNumbers);
    if built.Err? {
      return Err(built.error);
    }
    var rows := RowsOf(built.value);
    r := Ok((built.value, rows));
  }

  /**
   * With filtering, the points are the unfiltered ones whose activation
   * time lies in their window, in their order; a failing point is the same
   * failure, and a non-empty main table whose zip is empty has no columns to
   * filter on.
   */
  lemma PointsOutcomeFiltered(ll: LLMap, removeNumbers: bool)
    ensures var unf := PointsOutcome(ll, false, removeNumbers);
      var r := PointsOutcome(ll, true, removeNumbers);
      (unf.Err? ==> r == unf) &&
      (unf.Ok? && |ll.mains| > 0 && unf.value == [] ==> r == Err(NoPointColumns)) &&
      (unf.Ok? && (|ll.mains| == 0 || unf.value != []) ==>
         r.Ok? && var ps := unf.value; var ks := Kept(RecordMask(ps));
         |r.value| == |ks| && (forall k :: 0 <= k < |ks| ==> r.value[k] == ps[ks[k]]) &&
         (forall k :: 0 <= k < |ks| ==> InWoi(ps[ks[k]].woi, ps[ks[k]].refAnnotation, ps[ks[k]].mapAnnotation)) &&
         forall i :: 0 <= i < |ps| && InWoi(ps[i].woi, ps[i].refAnnotation, ps[i].mapAnnotation) ==> i in ks)
  {
    var unf := PointsOutcome(ll, false, removeNumbers);
    if unf.Ok? && |ll.mains| > 0 && unf.value != [] {
      FilterKept(unf.value, RecordMask(unf.value));
    }
  }

  /** `[p.main_point_pd_row for p in points_raw]`. */
  method RowsOf(objs: seq<CartoPointDetailData>) returns (rows: seq<PointRow>)
    ensures |rows| == |objs| && forall k :: 0 <= k < |objs| ==> rows[k] == objs[k].MainPointRow()
  {
    rows := [];
    var i := 0;
    while i < |objs|
      invariant 0 <= i <= |objs| && |rows| == i
      invariant forall k :: 0 <= k < i ==> rows[k] == objs[k].MainPointRow()
    {
      rows := rows + [objs[i].MainPointRow()];
      i := i + 1;
    }
  }

  /** The window mask of the rows is that of the records they show. */
  lemma MasksAgree(rows: seq<PointRow>, objs: seq<CartoPointDetailData>, recs: seq<PointRecord>)
    requires |rows| == |objs| == |recs|
    requires forall k :: 0 <= k < |objs| ==> rows[k] == objs[k].MainPointRow() && objs[k].Record() == recs[k]
    ensures WoiMask(rows) == RecordMask(recs)
  {
    forall k | 0 <= k < |rows|
      ensures WoiMask(rows)[k] == RecordMask(recs)[k]
    {
      assert rows[k] == objs[k].MainPointRow() && objs[k].Record() == recs[k];
    }
  }

  /** After one filter the kept objects still carry the kept records and show the kept rows. */
  lemma FilteredRecordsAligned(rows: seq<PointRow>, objs: seq<CartoPointDetailData>, recs: seq<PointRecord>, mask: seq<bool>)
    requires |rows| == |objs| == |recs| == |mask|
    requires forall k :: 0 <= k < |objs| ==> rows[k] == objs[k].MainPointRow() && objs[k].Record() == recs[k]
    ensures |Filter(objs, mask)| == |Filter(recs, mask)| == |Filter(rows, mask)|
    ensures forall k :: 0 <= k < |Filter(objs, mask)| ==>
      Filter(objs, mask)[k].Record() == Filter(recs, mask)[k] && Filter(rows, mask)[k] == Filter(objs, mask)[k].MainPointRow()
  {
    KeptAligned(rows, objs, recs, mask);
  }

  /** Filtering rows, objects and records with one mask keeps them aligned. */
  lemma KeptAligned(rows: seq<PointRow>, objs: seq<CartoPointDetailData>, recs: seq<PointRecord>, mask: seq<bool>)
    requires |rows| == |objs| == |recs| == |mask|
    ensures |Filter(rows, mask)| == |Filter(objs, mask)| == |Filter(recs, mask)| == |Kept(mask)|
    ensures forall k :: 0 <= k < |Filter(rows, mask)| ==>
      Filter(rows, mask)[k] == rows[Kept(mask)[k]] && Filter(objs, mask)[k] == objs[Kept(mask)[k]] &&
      Filter(recs, mask)[k] == recs[Kept(mask)[k]]
  {
    FilterKept(rows, mask);
    FilterKept(objs, mask);
    FilterKept(recs, mask);
  }
}
