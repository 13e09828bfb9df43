/**
 * The ablation sites of a study (`AblationSites`): the visitag tables are
 * either resampled onto one time grid or kept apart, converted to the
 * smaller column types of the downcast table, split by ablation session
 * (`groupby("Session")`), and optionally given a single position-vector
 * column in place of `X`, `Y` and `Z`.
 */
module Ablation {
  import opened Common
  import opened Tables
  import Dtypes
  import TimeUnify

  datatype AblationError =
    | MissingFrame(key: string)          // `visitag_data[key]` raises `KeyError`
    | TimeColumnClash                    // renaming `Time` would duplicate `TimeStamp`
    | UnifyFailed(error: TimeUnify.UnifyError)
    | SimplifyFailed(column: string)     // a cast of `simplify_dataframe_dtypes` fails
    | NoSessionColumn                    // `groupby("Session")` raises `KeyError`
    | NonIntegerSession                  // session keys other than integers
    | MissingXyz                         // `xyz_to_pos_vec` finds no `X`, `Y` or `Z`

  /** The tables of one session, keyed by the session number. */
  type Sessions = seq<(int, Table)>

  const SessionKey := "Session"
  const TimeKey := "TimeStamp"
  const ContactForceTime := "Time"
  const TimeInterval := 100
  const PosLabel := "pos"

  // ---------------------------------------------------------------------------
  // groupby("Session")

  predicate IntegerValues(vs: seq<Value>)
  {
    forall k :: 0 <= k < |vs| ==> vs[k].IntV?
  }

  function Ints(vs: seq<Value>): (r: seq<int>)
    requires IntegerValues(vs)
    ensures |r| == |vs| && forall k :: 0 <= k < |vs| ==> vs[k] == IntV(r[k])
  {
    seq(|vs|, k requires 0 <= k < |vs| => vs[k].i)
  }

  /** The positions holding `v`, in increasing order (`groupby(...).indices[v]`). */
  function RowsWith(ks: seq<int>, v: int): (r: seq<nat>)
    ensures forall p :: 0 <= p < |r| ==> r[p] < |ks| && ks[r[p]] == v
    ensures forall k :: 0 <= k < |ks| && ks[k] == v ==> k in r
    ensures forall p, q :: 0 <= p < q < |r| ==> r[p] < r[q]
  {
    if ks == [] then []
    else
      var init := ks[..|ks| - 1];
      assert forall k :: 0 <= k < |init| ==> init[k] == ks[k];
      RowsWith(init, v) + (if ks[|ks| - 1] == v then [|ks| - 1] else [])
  }

  /** The key column's values, when the column is there and holds integers. */
  function SessionKeys(t: Table, key: string): (r: Option<seq<int>>)
    requires Rectangular(t)
    ensures r.Some? <==> HasColumn(t, key) && IntegerValues(t[IndexOf(t, key).value].values)
    ensures r.Some? ==> (|r.value| == NRows(t) &&
      forall k :: 0 <= k < NRows(t) ==> t[IndexOf(t, key).value].values[k] == IntV(r.value[k]))
  {
    match IndexOf(t, key)
    case None => None
    case Some(j) => if IntegerValues(t[j].values) then Some(Ints(t[j].values)) else None
  }

  /**
   * `list(t.groupby(key))`: one pair per distinct key in increasing order,
   * holding the rows with that key in their original order.
   */
  function GroupBy(t: Table, key: string): (r: Result<Sessions, AblationError>)
    requires Rectangular(t)
    ensures r.Err? <==> SessionKeys(t, key).None?
  {
    if !HasColumn(t, key) then Err(NoSessionColumn)
    else match SessionKeys(t, key)
      case None => Err(NonIntegerSession)
      case Some(ks) =>
        var keys := SortedDistinctInts(ks);
        Ok(seq(|keys|, g requires 0 <= g < |keys| => (keys[g], SelectRows(t, RowsWith(ks, keys[g])))))
  }

  /** The failure of a grouping names what is wrong with the key column. */
  lemma GroupByErrors(t: Table, key: string)
    requires Rectangular(t)
    ensures !HasColumn(t, key) ==> GroupBy(t, key) == Err(NoSessionColumn)
    ensures HasColumn(t, key) && SessionKeys(t, key).None? ==> GroupBy(t, key) == Err(NonIntegerSession)
  {
  }

  /** The groups carry the distinct keys of the table, in strictly increasing order. */
  lemma GroupByKeys(t: Table, key: string)
    requires Rectangular(t) && GroupBy(t, key).Ok?
    ensures var gs := GroupBy(t, key).value;
      var ks := SessionKeys(t, key).value;
      (forall g, h :: 0 <= g < h < |gs| ==> gs[g].0 < gs[h].0) &&
      (forall x :: (exists g :: 0 <= g < |gs| && gs[g].0 == x) <==> x in ks)
  {
    var gs := GroupBy(t, key).value;
    var ks := SessionKeys(t, key).value;
    var keys := SortedDistinctInts(ks);
    assert |gs| == |keys| && forall g :: 0 <= g < |gs| ==> gs[g].0 == keys[g];
    forall x ensures (exists g :: 0 <= g < |gs| && gs[g].0 == x) <==> x in ks {
      if x in ks {
        assert x in keys;
        var g :| 0 <= g < |keys| && keys[g] == x;
        assert gs[g].0 == x;
      }
    }
  }

  /**
   * Group `g` is exactly the rows of the table whose key is the group's key,
   * in the table's order, and there is at least one.
   */
  lemma GroupByGroup(t: Table, key: string, g: nat)
    requires Rectangular(t) && GroupBy(t, key).Ok? && g < |GroupBy(t, key).value|
    ensures var gs := GroupBy(t, key).value;
      var ks := SessionKeys(t, key).value;
      var rows := RowsWith(ks, gs[g].0);
      rows != [] && gs[g].1 == SelectRows(t, rows) &&
      forall k :: k in rows <==> 0 <= k < NRows(t) && ks[k] == gs[g].0
  {
    var ks := SessionKeys(t, key).value;
    var keys := SortedDistinctInts(ks);
    assert keys[g] in keys;
    var k :| 0 <= k < |ks| && ks[k] == keys[g];
    assert k in RowsWith(ks, keys[g]);
  }

  /** Every row belongs to the group of its key and to no other group. */
  lemma GroupOfRow(t: Table, key: string, k: nat) returns (g: nat)
    requires Rectangular(t) && GroupBy(t, key).Ok? && k < NRows(t)
    ensures var gs := GroupBy(t, key).value;
      var ks := SessionKeys(t, key).value;
      g < |gs| && gs[g].0 == ks[k] && k in RowsWith(ks, gs[g].0) &&
      forall h :: 0 <= h < |gs| && h != g ==> k !in RowsWith(ks, gs[h].0)
  {
    var gs := GroupBy(t, key).value;
    var ks := SessionKeys(t, key).value;
    GroupByKeys(t, key);
    assert ks[k] in ks;
    g :| 0 <= g < |gs| && gs[g].0 == ks[k];
    forall h | 0 <= h < |gs| && h != g ensures k !in RowsWith(ks, gs[h].0) {
      assert gs[h].0 != gs[g].0;
    }
  }

  /** Within a group the key column holds the group's key on every row. */
  lemma GroupKeyConstant(t: Table, key: string, g: nat, p: nat)
    requires Rectangular(t) && GroupBy(t, key).Ok? && g < |GroupBy(t, key).value|
    requires p < |RowsWith(SessionKeys(t, key).value, GroupBy(t, key).value[g].0)|
    ensures var grp := GroupBy(t, key).value[g];
      var j := IndexOf(t, key).value;
      j < |grp.1| && grp.1[j].name == key && grp.1[j].values[p] == IntV(grp.0)
  {
    GroupByGroup(t, key, g);
  }

  /** Each group keeps the columns of a well-formed table and is well formed. */
  lemma GroupWellFormed(t: Table, key: string, g: nat)
    requires WellFormed(t) && GroupBy(t, key).Ok? && g < |GroupBy(t, key).value|
    ensures var grp := GroupBy(t, key).value[g].1;
      WellFormed(grp) && Names(grp) == Names(t)
  {
    GroupByGroup(t, key, g);
    var gs := GroupBy(t, key).value;
    SelectRowsWellFormed(t, RowsWith(SessionKeys(t, key).value, gs[g].0));
  }

  // ---------------------------------------------------------------------------
  // The steps of the constructor

  /** `visitag_data[key]`. */
  function Lookup(data: map<string, Table>, key: string): (r: Result<Table, AblationError>)
    ensures r.Ok? <==> key in data
    ensures r.Ok? ==> r.value == data[key]
  {
    if key in data then Ok(data[key]) else Err(MissingFrame(key))
  }

  /** `simplify_dataframe_dtypes(t, dtype_simplify_dict)`. */
  function SimplifyFrame(t: Table): (r: Result<Table, AblationError>)
    requires WellFormed(t)
    ensures r.Ok? <==> Dtypes.Simplify(t, Dtypes.DtypeSimplifyDict(), false).Ok?
    ensures r.Ok? ==> r.value == Dtypes.Simplified(t, Dtypes.DtypeSimplifyDict(), false) && WellFormed(r.value)
    ensures r.Ok? ==> Names(r.value) == Names(t)
  {
    match Dtypes.Simplify(t, Dtypes.DtypeSimplifyDict(), false)
    case Err(e) => Err(SimplifyFailed(e.column))
    case Ok(s) =>
      Dtypes.SimplifyColumns(t, Dtypes.DtypeSimplifyDict(), false);
      Ok(s)
  }

  /** `list(simplify_dataframe_dtypes(t, dtype_simplify_dict).groupby("Session"))`. */
  function SimplifiedSessions(t: Table): (r: Result<Sessions, AblationError>)
    requires WellFormed(t)
    ensures r.Ok? ==> GoodSessions(r.value)
    ensures r.Ok? ==> forall g :: 0 <= g < |r.value| ==> Names(r.value[g].1) == Names(t)
  {
    match SimplifyFrame(t)
    case Err(e) => Err(e)
    case Ok(s) =>
      match GroupBy(s, SessionKey)
      case Err(e) => Err(e)
      case Ok(gs) =>
        assert forall g :: 0 <= g < |gs| ==> WellFormed(gs[g].1) && Names(gs[g].1) == Names(s) by {
          forall g | 0 <= g < |gs| ensures WellFormed(gs[g].1) && Names(gs[g].1) == Names(s) {
            GroupWellFormed(s, SessionKey, g);
          }
        }
        Ok(gs)
  }

  /** `lookup` then `SimplifiedSessions`. */
  function FrameSessions(data: map<string, Table>, key: string): (r: Result<Sessions, AblationError>)
    requires forall k :: k in data ==> WellFormed(data[k])
    ensures r.Ok? ==> key in data && r == SimplifiedSessions(data[key])
  {
    match Lookup(data, key)
    case Err(e) => Err(e)
    case Ok(t) => SimplifiedSessions(t)
  }

  /** Renaming a column keeps a table well formed unless the new name is taken. */
  lemma RenameWellFormed(t: Table, from: string, to: string)
    requires WellFormed(t)
    requires HasColumn(t, from) ==> !HasColumn(t, to)
    ensures WellFormed(RenameColumn(t, from, to))
  {
    var r := RenameColumn(t, from, to);
    assert forall c :: 0 <= c < |t| ==> t[c].name == Names(t)[c];
    forall i, j | 0 <= i < j < |r| ensures r[i].name != r[j].name {
      if t[i].name == from {
        assert HasColumn(t, from);
      } else if t[j].name == from {
        assert HasColumn(t, from);
      }
    }
  }

  /**
   * The unified branch up to the merge: the contact-force table with `Time`
   * renamed to `TimeStamp`, then the raw positions and the ablation data,
   * resampled together onto the `TimeStamp` grid with an interval of 100.
   */
  function UnifiedTimes(data: map<string, Table>, interp: TimeUnify.Interpolator): (r: Result<Table, AblationError>)
    requires forall k :: k in data ==> WellFormed(data[k])
    ensures r.Ok? ==> WellFormed(r.value) && HasColumn(r.value, TimeKey)
  {
    if "ContactForceData" !in data then Err(MissingFrame("ContactForceData"))
    else if "RawPositions" !in data then Err(MissingFrame("RawPositions"))
    else if "AblationData" !in data then Err(MissingFrame("AblationData"))
    else
      var cf := data["ContactForceData"];
      if HasColumn(cf, ContactForceTime) && HasColumn(cf, TimeKey) then Err(TimeColumnClash)
      else
        var cf' := RenameColumn(cf, ContactForceTime, TimeKey);
        RenameWellFormed(cf, ContactForceTime, TimeKey);
        var tables := [data["RawPositions"], data["AblationData"], cf'];
        match TimeUnify.Unify(tables, TimeKey, TimeInterval, "intersection", interp)
        case Err(e) => Err(UnifyFailed(e))
        case Ok(u) =>
          TimeUnify.UnifyWellFormed(tables, TimeKey, TimeInterval, "intersection", interp);
          Ok(u)
  }

  /** The three session lists of either branch, before the position vectors. */
  datatype TimeData = TimeData(time: Sessions, rf: Option<Sessions>, force: Option<Sessions>)

  /** Every table of a session list is well formed. */
  predicate GoodSessions(s: Sessions)
  {
    forall g :: 0 <= g < |s| ==> WellFormed(s[g].1)
  }

  /** The resampled branch: one list of sessions over the unified table. */
  function UnifiedSessionData(data: map<string, Table>, interp: TimeUnify.Interpolator): (r: Result<TimeData, AblationError>)
    requires forall k :: k in data ==> WellFormed(data[k])
    ensures r.Ok? ==> GoodSessions(r.value.time) && r.value.rf.None? && r.value.force.None?
  {
    match UnifiedTimes(data, interp)
    case Err(e) => Err(e)
    case Ok(u) =>
      match SimplifiedSessions(u)
      case Err(e) => Err(e)
      case Ok(time) => Ok(TimeData(time, None, None))
  }

  /** The separate branch: the raw positions, ablation data and contact force, each grouped. */
  function SeparateSessionData(data: map<string, Table>): (r: Result<TimeData, AblationError>)
    requires forall k :: k in data ==> WellFormed(data[k])
    ensures r.Ok? ==> GoodSessions(r.value.time) && r.value.rf.Some? && r.value.force.Some?
  {
    match FrameSessions(data, "RawPositions")
    case Err(e) => Err(e)
    case Ok(time) =>
      match FrameSessions(data, "AblationData")
      case Err(e) => Err(e)
      case Ok(rf) =>
        match FrameSessions(data, "ContactForceData")
        case Err(e) => Err(e)
        case Ok(force) => Ok(TimeData(time, Some(rf), Some(force)))
  }

  /** The session lists of the branch `resample_unified_time` selects. */
  function SessionData(data: map<string, Table>, unified: bool, interp: TimeUnify.Interpolator): (r: Result<TimeData, AblationError>)
    requires forall k :: k in data ==> WellFormed(data[k])
    ensures r.Ok? ==> GoodSessions(r.value.time)
    ensures r.Ok? ==> (r.value.rf.None? <==> unified) && (r.value.force.None? <==> unified)
  {
    if unified then UnifiedSessionData(data, interp) else SeparateSessionData(data)
  }

  // ---------------------------------------------------------------------------
  // position_to_vec

  /** `[(id, xyz_to_pos_vec(t)) for id, t in sessions]`: fails when any table has no coordinates. */
  function SessionPositions(s: Sessions): (r: Result<Sessions, AblationError>)
    requires GoodSessions(s)
    ensures r.Err? <==> exists g :: 0 <= g < |s| && Dtypes.XyzToPosVec(s[g].1, PosLabel).Err?
    ensures r.Ok? ==> |r.value| == |s| && forall g :: 0 <= g < |s| ==>
      r.value[g] == (s[g].0, Dtypes.XyzToPosVec(s[g].1, PosLabel).value)
  {
    if exists g :: 0 <= g < |s| && Dtypes.XyzToPosVec(s[g].1, PosLabel).Err? then Err(MissingXyz)
    else Ok(seq(|s|, g requires 0 <= g < |s| => (s[g].0, Dtypes.XyzToPosVec(s[g].1, PosLabel).value)))
  }

  // ---------------------------------------------------------------------------
  // The whole constructor

  datatype SitesRecord = SitesRecord(avg: Table, time: Sessions, rf: Option<Sessions>, force: Option<Sessions>)

  /**
   * `AblationSites(visitag_data, resample_unified_time, position_to_vec)`:
   * the session lists, then the simplified `Sites` table, then, with
   * `position_to_vec`, the position vectors of the `Sites` table and of
   * every time table.
   */
  function Sites(data: map<string, Table>, unified: bool, posToVec: bool, interp: TimeUnify.Interpolator): (r: Result<SitesRecord, AblationError>)
    requires forall k :: k in data ==> WellFormed(data[k])
  {
    match SessionData(data, unified, interp)
    case Err(e) => Err(e)
    case Ok(td) =>
      match Lookup(data, "Sites")
      case Err(e) => Err(e)
      case Ok(sites) =>
        match SimplifyFrame(sites)
        case Err(e) => Err(e)
        case Ok(avg) =>
          if !posToVec then Ok(SitesRecord(avg, td.time, td.rf, td.force))
          else
            match Dtypes.XyzToPosVec(avg, PosLabel)
            case Err(_) => Err(MissingXyz)
            case Ok(avg') =>
              match SessionPositions(td.time)
              case Err(e) => Err(e)
              case Ok(time') => Ok(SitesRecord(avg', time', td.rf, td.force))
  }

  /**
   * Resampling leaves no separate ablation or force lists; keeping the
   * tables apart gives all three.
   */
  lemma SitesBranches(data: map<string, Table>, unified: bool, posToVec: bool, interp: TimeUnify.Interpolator)
    requires forall k :: k in data ==> WellFormed(data[k])
    requires Sites(data, unified, posToVec, interp).Ok?
    ensures var s := Sites(data, unified, posToVec, interp).value;
      (s.rf.None? <==> unified) && (s.force.None? <==> unified)
  {
  }

  /** Every needed table must be present: the `Sites` table always, the three time tables in either branch. */
  lemma SitesNeedTables(data: map<string, Table>, unified: bool, posToVec: bool, interp: TimeUnify.Interpolator)
    requires forall k :: k in data ==> WellFormed(data[k])
    requires Sites(data, unified, posToVec, interp).Ok?
    ensures "Sites" in data && "RawPositions" in data && "AblationData" in data && "ContactForceData" in data
  {
  }

  /**
   * The first table looked up is the contact-force table when resampling,
   * the raw positions otherwise. When resampling, the raw positions and the
   * ablation data are looked up next, before any clash of the renamed time
   * column can be noticed.
   */
  lemma SitesLookupOrder(data: map<string, Table>, unified: bool, posToVec: bool, interp: TimeUnify.Interpolator)
    requires forall k :: k in data ==> WellFormed(data[k])
    ensures unified && "ContactForceData" !in data ==>
      Sites(data, unified, posToVec, interp) == Err(MissingFrame("ContactForceData"))
    ensures unified && "ContactForceData" in data && "RawPositions" !in data ==>
      Sites(data, unified, posToVec, interp) == Err(MissingFrame("RawPositions"))
    ensures unified && "ContactForceData" in data && "RawPositions" in data && "AblationData" !in data ==>
      Sites(data, unified, posToVec, interp) == Err(MissingFrame("AblationData"))
    ensures !unified && "RawPositions" !in data ==>
      Sites(data, unified, posToVec, interp) == Err(MissingFrame("RawPositions"))
  {
  }

  /**
   * Without position vectors, the average table is the `Sites` table with
   * the downcast types, and each time table is well formed, carries the
   * time table's column names and holds its session number in `Session`.
   */
  lemma SitesPlain(data: map<string, Table>, unified: bool, interp: TimeUnify.Interpolator)
    requires forall k :: k in data ==> WellFormed(data[k])
    requires Sites(data, unified, false, interp).Ok?
    ensures var s := Sites(data, unified, false, interp).value;
      s.avg == Dtypes.Simplified(data["Sites"], Dtypes.DtypeSimplifyDict(), false) &&
      (forall g, h :: 0 <= g < h < |s.time| ==> s.time[g].0 < s.time[h].0) &&
      (!unified ==> forall g :: 0 <= g < |s.time| ==> Names(s.time[g].1) == Names(data["RawPositions"])) &&
      (unified ==> forall g :: 0 <= g < |s.time| ==> HasColumn(s.time[g].1, TimeKey))
  {
    var s := Sites(data, unified, false, interp).value;
    if unified {
      var u := UnifiedTimes(data, interp).value;
      var v := SimplifyFrame(u).value;
      GroupByKeys(v, SessionKey);
      forall g | 0 <= g < |s.time| ensures HasColumn(s.time[g].1, TimeKey) {
        GroupWellFormed(v, SessionKey, g);
      }
    } else {
      var v := SimplifyFrame(data["RawPositions"]).value;
      GroupByKeys(v, SessionKey);
    }
  }

  /**
   * With position vectors, neither the average table nor any time table
   * keeps `Y` or `Z`, and each has the position column; every session of
   * the grouping is still there, in the same order.
   */
  lemma SitesPositions(data: map<string, Table>, unified: bool, interp: TimeUnify.Interpolator)
    requires forall k :: k in data ==> WellFormed(data[k])
    requires Sites(data, unified, true, interp).Ok?
    ensures var s := Sites(data, unified, true, interp).value;
      var td := SessionData(data, unified, interp).value;
      HasPositions(s.avg) &&
      |s.time| == |td.time| &&
      forall g :: 0 <= g < |s.time| ==> s.time[g].0 == td.time[g].0 && HasPositions(s.time[g].1)
  {
    var td := SessionData(data, unified, interp).value;
    var avg := SimplifyFrame(data["Sites"]).value;
    SitesWithPositions(data, unified, interp);
    PositionsReplaceXyz(avg);
    forall g | 0 <= g < |td.time| ensures HasPositions(Dtypes.XyzToPosVec(td.time[g].1, PosLabel).value) {
      PositionsReplaceXyz(td.time[g].1);
    }
  }

  /** With position vectors, both conversions succeed and make up the record. */
  lemma SitesWithPositions(data: map<string, Table>, unified: bool, interp: TimeUnify.Interpolator)
    requires forall k :: k in data ==> WellFormed(data[k])
    requires Sites(data, unified, true, interp).Ok?
    ensures SessionData(data, unified, interp).Ok? && "Sites" in data && SimplifyFrame(data["Sites"]).Ok?
    ensures var td := SessionData(data, unified, interp).value;
      var avg := SimplifyFrame(data["Sites"]).value;
      Dtypes.XyzToPosVec(avg, PosLabel).Ok? && SessionPositions(td.time).Ok? &&
      Sites(data, unified, true, interp).value ==
        SitesRecord(Dtypes.XyzToPosVec(avg, PosLabel).value, SessionPositions(td.time).value, td.rf, td.force)
  {
  }

  /** The table has the position column and no `Y` or `Z` column. */
  predicate HasPositions(t: Table)
  {
    HasColumn(t, PosLabel) && !HasColumn(t, "Y") && !HasColumn(t, "Z")
  }

  lemma PositionsReplaceXyz(t: Table)
    requires WellFormed(t) && Dtypes.XyzToPosVec(t, PosLabel).Ok?
    ensures HasPositions(Dtypes.XyzToPosVec(t, PosLabel).value)
  {
    PositionColumnPresent(t);
    CoordinatesDropped(t);
  }

  /** The column `X` of the kept columns becomes the position column. */
  lemma PositionColumnPresent(t: Table)
    requires WellFormed(t) && Dtypes.XyzToPosVec(t, PosLabel).Ok?
    ensures HasColumn(Dtypes.XyzToPosVec(t, PosLabel).value, PosLabel)
  {
    var r := Dtypes.XyzToPosVec(t, PosLabel).value;
    var kept := Dtypes.DropYZ(t);
    var ix := IndexOf(t, "X").value;
    assert t[ix] in kept;
    var k :| 0 <= k < |kept| && kept[k] == t[ix];
    assert Names(r)[k] == PosLabel;
  }

  /** No column of the result is called `Y` or `Z`. */
  lemma CoordinatesDropped(t: Table)
    requires WellFormed(t) && Dtypes.XyzToPosVec(t, PosLabel).Ok?
    ensures !HasColumn(Dtypes.XyzToPosVec(t, PosLabel).value, "Y")
    ensures !HasColumn(Dtypes.XyzToPosVec(t, PosLabel).value, "Z")
  {
    var r := Dtypes.XyzToPosVec(t, PosLabel).value;
    var kept := Dtypes.DropYZ(t);
    forall m | 0 <= m < |r| ensures r[m].name != "Y" && r[m].name != "Z" {
      assert kept[m] in kept;
    }
  }

  // ---------------------------------------------------------------------------
  // The object

  /** High-level access to the ablation sites of one study. */
  class AblationSites {
    var sessionAvgData: Table
    var sessionTimeData: Sessions
    var sessionRfData: Option<Sessions>
    var sessionForceData: Option<Sessions>

    function Record(): SitesRecord
      reads this
    {
      SitesRecord(sessionAvgData, sessionTimeData, sessionRfData, sessionForceData)
    }

    constructor (avg: Table, time: Sessions, rf: Option<Sessions>, force: Option<Sessions>)
      ensures Record() == SitesRecord(avg, time, rf, force)
    {
      sessionAvgData := avg;
      sessionTimeData := time;
      sessionRfData := rf;
      sessionForceData := force;
    }

    /**
     * `AblationSites(visitag_data, resample_unified_time, position_to_vec)`,
     * with an exception of the constructor as an error.
     */
    static method Create(data: map<string, Table>, unified: bool, posToVec: bool, interp: TimeUnify.Interpolator)
        returns (r: Result<AblationSites, AblationError>)
      requires forall k :: k in data ==> WellFormed(data[k])
      ensures r.Ok? ==> fresh(r.value) && Sites(data, unified, posToVec, interp) == Ok(r.value.Record())
      ensures r.Err? ==> Sites(data, unified, posToVec, interp) == Err(r.error)
    {
      var td := SessionData(data, unified, interp);
      if td.Err? {
        return Err(td.error);
      }
      var time, rf, force := td.value.time, td.value.rf, td.value.force;
      if "Sites" !in data {
        return Err(MissingFrame("Sites"));
      }
      var avg := SimplifyFrame(data["Sites"]);
      if avg.Err? {
        return Err(avg.error);
      }
      var sessionAvg := avg.value;
      if posToVec {
        var a := Dtypes.XyzToPosVec(sessionAvg, PosLabel);
        if a.Err? {
          return Err(MissingXyz);
        }
        var ps := SessionPositions(time);
        if ps.Err? {
          return Err(ps.error);
        }
        sessionAvg, time := a.value, ps.value;
      }
      var s := new AblationSites(sessionAvg, time, rf, force);
      r := Ok(s);
    }
  }
}
