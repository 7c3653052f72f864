/** The pandas DataFrame the transformers work on: named columns of equal length. */
module Frames {

  /** One cell. `Missing` is any of pandas' nulls (NaN, None, NA, NaT); a date is
      counted in days since 1970-01-01. */
  datatype Cell = Missing | Str(s: string) | Num(x: real) | Date(day: int)

  /** A column's dtype: `object` holds anything, a numeric column numbers and
      nulls, a datetime column dates and nulls. */
  datatype Dtype = Object | Numeric | DateTime

  predicate Conforms(c: Cell, t: Dtype) {
    match t
    case Object => true
    case Numeric => c.Missing? || c.Num?
    case DateTime => c.Missing? || c.Date?
  }

  /** The dtype pandas leaves on a column of dtype `t` once its cells are `cells`:
      `t` when they all fit it, `object` when a stored value does not. */
  function Settled(t: Dtype, cells: seq<Cell>): (r: Dtype)
    ensures forall i :: 0 <= i < |cells| ==> Conforms(cells[i], r)
    ensures (forall i :: 0 <= i < |cells| ==> Conforms(cells[i], t)) ==> r == t
    ensures r == t || r == Object
  {
    if forall i :: 0 <= i < |cells| ==> Conforms(cells[i], t) then t else Object
  }

  datatype Column = Column(dtype: Dtype, cells: seq<Cell>)

  predicate ColumnFits(col: Column, rows: nat) {
    |col.cells| == rows && forall i :: 0 <= i < rows ==> Conforms(col.cells[i], col.dtype)
  }

  /** A frame: its row count, its column labels in order, and each column's data. */
  datatype Frame = Frame(rows: nat, names: seq<string>, cols: map<string, Column>)

  predicate Distinct(s: seq<string>) {
    forall i, j :: 0 <= i < j < |s| ==> s[i] != s[j]
  }

  /** The DataFrames modelled: distinct labels, one column per label,
      each column as long as the frame and holding what its dtype admits. */
  predicate WellFormed(f: Frame) {
    && Distinct(f.names)
    && f.cols.Keys == (set n | n in f.names)
    && (forall n :: n in f.cols ==> ColumnFits(f.cols[n], f.rows))
  }

  /** A cell the imputers treat as missing: a null or the empty string. */
  predicate IsBlank(c: Cell) {
    c == Missing || c == Str("")
  }

  /** `r` has the row count and the columns of `f`, in the same order, and differs
      from `f` at most in the columns named in `changed`. */
  predicate OnlyChanged(f: Frame, r: Frame, changed: set<string>) {
    && r.rows == f.rows
    && r.names == f.names
    && r.cols.Keys == f.cols.Keys
    && forall n :: n in f.cols && n !in changed ==> r.cols[n] == f.cols[n]
  }

  /** `X[name] = col` on a copy of `f`, for a column `name` it already has. */
  function WithColumn(f: Frame, name: string, col: Column): (r: Frame)
    requires WellFormed(f) && name in f.cols && ColumnFits(col, f.rows)
    ensures WellFormed(r)
    ensures OnlyChanged(f, r, {name}) && r.cols[name] == col
  {
    f.(cols := f.cols[name := col])
  }
}
