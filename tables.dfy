/**
 * The tabular vocabulary shared by the feature layer: cell values, rows,
 * the exceptions the core raises, an in-place data frame, and frames keyed
 * by `(dt, grid_index)` with the three relational merges the orchestrators use.
 */
module Tables {
  import opened Wrappers

  /** The Python exceptions that escape the core, by kind. */
  datatype Exception =
    | KeyError(key: string)
    | ValueError(text: string)
    | AttributeError(attribute: string)
    | AssertionError
    | IndexError
    | ZeroDivisionError
    | NameError(name: string)
    | ImportError(moduleName: string)
    | TypeError(text: string)
    | OverflowError(text: string)

  /** One cell of a table; `Missing` is pandas' NaN / None. */
  datatype Value =
    | Missing
    | Num(r: real)
    | Int(i: int)
    | Text(s: string)
    | Point(x: real, y: real)

  /** A row maps column names to values; a column absent from the map is missing. */
  type Row = map<string, Value>

  /** A table as the store hands it out: ordered column names and rows. */
  datatype Table = Table(columns: seq<string>, rows: seq<Row>)

  /** A cell of a row; a column the row lacks reads as missing. */
  function Get(row: Row, c: string): Value {
    if c in row then row[c] else Missing
  }

  /** The numeric reading of a cell, as pandas arithmetic sees it. */
  function AsReal(v: Value): Option<real> {
    match v
    case Num(r) => Some(r)
    case Int(i) => Some(i as real)
    case _ => None
  }

  /** A data frame that callers update in place (a column write changes every row). */
  class DataFrame {
    var columns: seq<string>
    var rows: seq<Row>

    constructor (columns: seq<string>, rows: seq<Row>)
      ensures this.columns == columns && this.rows == rows
    {
      this.columns := columns;
      this.rows := rows;
    }
  }

  /** The composite key `['dt', 'grid_index']` every calcer output carries. */
  datatype Key = Key(dt: int, cell: int)

  /** A calcer output: value columns per key (keys are unique). */
  type Frame = map<Key, Row>

  function RowAt(f: Frame, k: Key): Row {
    if k in f then f[k] else map[]
  }

  /** True when `m` carries every value of `right` and the values of `left` it does not shadow. */
  ghost predicate Combines(m: Row, left: Row, right: Row) {
    && m.Keys == left.Keys + right.Keys
    && (forall c :: c in right ==> m[c] == right[c])
    && (forall c :: c in left && c !in right ==> m[c] == left[c])
  }

  /** `merge(how='outer')`: every key of either side, missing values where a side has no row. */
  function OuterMerge(left: Frame, right: Frame): (m: Frame)
    ensures m.Keys == left.Keys + right.Keys
    ensures forall k :: k in m ==> Combines(m[k], RowAt(left, k), RowAt(right, k))
  {
    map k | k in left.Keys + right.Keys :: RowAt(left, k) + RowAt(right, k)
  }

  /** `merge(how='left')`: exactly the left keys. */
  function LeftMerge(left: Frame, right: Frame): (m: Frame)
    ensures m.Keys == left.Keys
    ensures forall k :: k in m ==> Combines(m[k], left[k], RowAt(right, k))
  {
    map k | k in left :: left[k] + RowAt(right, k)
  }

  /** `merge(how='inner')`: only the keys both sides have. */
  function InnerMerge(left: Frame, right: Frame): (m: Frame)
    ensures m.Keys == left.Keys * right.Keys
    ensures forall k :: k in m ==> Combines(m[k], left[k], right[k])
  {
    map k | k in left && k in right :: left[k] + right[k]
  }
}
