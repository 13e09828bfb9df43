/**
 * The tagged table type that stands for a pandas DataFrame: an ordered list of
 * named, typed columns of equal length. Cells are integers, reals, strings or
 * lists (the `[x, y, z]` position vectors).
 */
module Tables {
  import opened Common

  datatype Value = IntV(i: int) | RealV(r: real) | StrV(s: string) | ListV(items: seq<Value>)

  /** The NumPy dtypes that occur in the program. */
  datatype Dtype = Int8 | Int16 | Int32 | Int64 | Float16 | Float32 | Float64 | Object
  {
    predicate IsInteger()
    {
      Int8? || Int16? || Int32? || Int64?
    }

    predicate IsFloat()
    {
      Float16? || Float32? || Float64?
    }

    /** Width in bits of an integer dtype. */
    function Bits(): nat
      requires IsInteger()
    {
      match this
      case Int8 => 8
      case Int16 => 16
      case Int32 => 32
      case Int64 => 64
    }
  }

  datatype Column = Column(name: string, dtype: Dtype, values: seq<Value>)

  type Table = seq<Column>

  /** The values of a column agree with its dtype. */
  predicate Typed(c: Column)
  {
    (c.dtype.IsInteger() ==> forall k :: 0 <= k < |c.values| ==> c.values[k].IntV?) &&
    (c.dtype.IsFloat() ==> forall k :: 0 <= k < |c.values| ==> c.values[k].RealV?)
  }

  function Names(t: Table): (ns: seq<string>)
    ensures |ns| == |t|
    ensures forall k :: 0 <= k < |t| ==> ns[k] == t[k].name
  {
    seq(|t|, k requires 0 <= k < |t| => t[k].name)
  }

  predicate UniqueNames(t: Table)
  {
    forall i, j :: 0 <= i < j < |t| ==> t[i].name != t[j].name
  }

  predicate Rectangular(t: Table)
  {
    forall k :: 0 <= k < |t| ==> |t[k].values| == NRows(t)
  }

  /**
   * The invariant of every table the program builds: distinct column names
   * (pandas' `read_csv` renames duplicates), columns of one length, values
   * that agree with their dtype.
   */
  predicate WellFormed(t: Table)
  {
    UniqueNames(t) && Rectangular(t) && forall k :: 0 <= k < |t| ==> Typed(t[k])
  }

  function NRows(t: Table): nat
  {
    if t == [] then 0 else |t[0].values|
  }

  predicate HasColumn(t: Table, name: string)
  {
    name in Names(t)
  }

  /** Position of the column called `name`. */
  function IndexOf(t: Table, name: string): (r: Option<nat>)
    ensures r.Some? <==> HasColumn(t, name)
    ensures r.Some? ==> r.value < |t| && t[r.value].name == name &&
                        forall k :: 0 <= k < r.value ==> t[k].name != name
  {
    if t == [] then None
    else if t[0].name == name then Some(0)
    else
      match IndexOf(t[1..], name)
      case None => None
      case Some(k) => Some(k + 1)
  }

  /** With distinct names, a column's name leads back to its own position. */
  lemma IndexOfName(t: Table, j: nat)
    requires UniqueNames(t) && j < |t|
    ensures IndexOf(t, t[j].name) == Some(j)
  {
    assert Names(t)[j] == t[j].name;
    assert forall k :: 0 <= k < |t| && k != j ==> t[k].name != t[j].name;
  }

  /** `df.rename(columns={from: to})`: a missing `from` leaves the table as it is. */
  function RenameColumn(t: Table, from: string, to: string): (r: Table)
    ensures |r| == |t|
    ensures forall k :: 0 <= k < |t| ==>
      r[k] == (if t[k].name == from then t[k].(name := to) else t[k])
  {
    seq(|t|, k requires 0 <= k < |t| => if t[k].name == from then t[k].(name := to) else t[k])
  }

  /** The rows of `t` at the given positions, in the given order. */
  function SelectRows(t: Table, rows: seq<nat>): (r: Table)
    requires Rectangular(t)
    requires forall k :: 0 <= k < |rows| ==> rows[k] < NRows(t)
    ensures |r| == |t| && Names(r) == Names(t)
    ensures forall c :: 0 <= c < |t| ==> r[c].dtype == t[c].dtype && |r[c].values| == |rows|
    ensures forall c, k :: 0 <= c < |t| && 0 <= k < |rows| ==> r[c].values[k] == t[c].values[rows[k]]
  {
    seq(|t|, c requires 0 <= c < |t| =>
      t[c].(values := seq(|rows|, k requires 0 <= k < |rows| => t[c].values[rows[k]])))
  }

  /** A selection of rows of a well-formed table is well formed and keeps the column names. */
  lemma SelectRowsWellFormed(t: Table, rows: seq<nat>)
    requires WellFormed(t)
    requires forall k :: 0 <= k < |rows| ==> rows[k] < NRows(t)
    ensures WellFormed(SelectRows(t, rows)) && Names(SelectRows(t, rows)) == Names(t)
  {
    var r := SelectRows(t, rows);
    forall c | 0 <= c < |r| ensures Typed(r[c]) {
      assert Typed(t[c]);
    }
    forall i, j | 0 <= i < j < |r| ensures r[i].name != r[j].name {
      assert Names(r)[i] == t[i].name && Names(r)[j] == t[j].name;
    }
  }
}
