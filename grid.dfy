/**
 * The fixed weather grid and the point-to-cell rule (competition/utils.py).
 * Coordinates are exact reals in degrees; the source's float division is
 * modelled as exact division, its `astype(int)` as truncation toward zero.
 */
module Grid {
  import opened Wrappers
  import opened Tables

  const LonMin: real := 19.0
  const LonMax: real := 169.0
  const LatMin: real := 41.0
  const LatMax: real := 81.5
  const Step: real := 0.2

  /** `int(np.ceil(x))`: the least integer not below `x`. */
  function Ceil(x: real): (r: int)
    ensures r as real - 1.0 < x <= r as real
  {
    if x.Floor as real == x then x.Floor else x.Floor + 1
  }

  /** `astype(int)` on a float: truncation toward zero. */
  function Trunc(x: real): (r: int)
    ensures 0.0 <= x ==> 0 <= r && r as real <= x < r as real + 1.0
    ensures x < 0.0 ==> r <= 0 && r as real - 1.0 < x <= r as real
  {
    if x >= 0.0 then x.Floor else -((-x).Floor)
  }

  /** `np.arange(start, stop, step)`: the progression from `start` by `step` that stays below `stop`. */
  function Arange(start: real, stop: real, step: real): (r: seq<real>)
    requires step > 0.0
    ensures forall i :: 0 <= i < |r| ==> r[i] == start + i as real * step && r[i] < stop
    ensures stop <= start + |r| as real * step
  {
    var n := Ceil((stop - start) / step);
    var len := if n < 0 then 0 else n;
    var r := seq(len, i => start + i as real * step);
    assert forall i :: 0 <= i < |r| ==> r[i] < stop by {
      forall i | 0 <= i < |r| ensures r[i] < stop {
        assert i < n && r[i] == start + i as real * step;
        ArangeStep(start, stop, step, i, n);
      }
    }
    if n < 0 then r else (ArangeStep(start, stop, step, n, n); r)
  }

  lemma ArangeStep(start: real, stop: real, step: real, i: int, n: int)
    requires step > 0.0 && n == Ceil((stop - start) / step)
    requires 0 <= i
    ensures i < n ==> start + i as real * step < stop
    ensures i == n ==> stop <= start + i as real * step
  {
    var q := (stop - start) / step;
    assert q * step == stop - start;
    if i < n {
      assert (i as real) < q;
      assert i as real * step < q * step;
    }
    if i == n {
      assert q <= i as real;
      assert q * step <= i as real * step;
    }
  }

  /** `grid_n_rows` and `grid_n_columns`. */
  const NRows: nat := Ceil((LatMax - LatMin) / Step)
  const NColumns: nat := Ceil((LonMax - LonMin) / Step)

  /** `col_n`: the number of grid longitudes `set_grid_index` counts. */
  function ColumnCount(): nat {
    |Arange(LonMin, LonMax, Step)|
  }

  /** The grid is 203 rows by 750 columns, and the longitude count agrees with the column count. */
  lemma GridShape()
    ensures NRows == 203 && NColumns == 750 && ColumnCount() == 750
  {
    assert (LatMax - LatMin) / Step == 202.5;
    assert (LonMax - LonMin) / Step == 750.0;
  }

  function ColumnOf(lon: real): int {
    Trunc((lon - LonMin) / Step)
  }

  function RowOf(lat: real): int {
    Trunc((lat - LatMin) / Step)
  }

  /** The cell id `row_i * col_n + col_i`, with no bounds check. */
  function CellId(lon: real, lat: real): int {
    RowOf(lat) * ColumnCount() + ColumnOf(lon)
  }

  predicate InBox(lon: real, lat: real) {
    LonMin <= lon < LonMax && LatMin <= lat < LatMax
  }

  /** Row-major ids decompose: the row is the quotient and the column the remainder. */
  lemma {:induction false} RowMajorDecomposes(row: int, col: int, width: int)
    requires 0 <= col < width && 0 <= row
    ensures (row * width + col) / width == row && (row * width + col) % width == col
  {
    var id := row * width + col;
    var q, m := id / width, id % width;
    assert id == q * width + m && 0 <= m < width;
    if q < row {
      MulMonotone(q, row - 1, width);
    } else if q > row {
      MulMonotone(row + 1, q, width);
    }
  }

  lemma MulMonotone(a: int, b: int, w: int)
    requires a <= b && 0 <= w
    ensures a * w <= b * w
  {
  }

  /** Inside the box the column lies in 0..749 and the row in 0..202. */
  lemma InBoxCoordinates(lon: real, lat: real)
    requires InBox(lon, lat)
    ensures 0 <= ColumnOf(lon) < NColumns && 0 <= RowOf(lat) < NRows
  {
    GridShape();
    var x := (lon - LonMin) / Step;
    assert x < 750.0;
    var y := (lat - LatMin) / Step;
    assert y < 202.5;
  }

  /** Every point of the box gets an id of the grid, and the id gives back its row and column. */
  lemma CellIdInRange(lon: real, lat: real)
    requires InBox(lon, lat)
    ensures 0 <= CellId(lon, lat) < NRows * NColumns
    ensures CellId(lon, lat) / NColumns == RowOf(lat) && CellId(lon, lat) % NColumns == ColumnOf(lon)
  {
    GridShape();
    InBoxCoordinates(lon, lat);
    var r, c := RowOf(lat), ColumnOf(lon);
    RowMajorDecomposes(r, c, 750);
    assert r * 750 <= 202 * 750;
  }

  /** Within the box two points share an id exactly when they share a row and a column. */
  lemma CellIdInjective(lon1: real, lat1: real, lon2: real, lat2: real)
    requires InBox(lon1, lat1) && InBox(lon2, lat2)
    ensures CellId(lon1, lat1) == CellId(lon2, lat2) <==>
              RowOf(lat1) == RowOf(lat2) && ColumnOf(lon1) == ColumnOf(lon2)
  {
    CellIdInRange(lon1, lat1);
    CellIdInRange(lon2, lat2);
  }

  /** The cells partition the box: a point is in cell `id` iff it lies in that cell's step-by-step square. */
  lemma CellRectangle(lon: real, lat: real, id: int)
    requires InBox(lon, lat) && 0 <= id < NRows * NColumns
    ensures CellId(lon, lat) == id <==>
              && LonMin + (id % NColumns) as real * Step <= lon < LonMin + (id % NColumns + 1) as real * Step
              && LatMin + (id / NColumns) as real * Step <= lat < LatMin + (id / NColumns + 1) as real * Step
  {
    GridShape();
    var c, r := id % NColumns, id / NColumns;
    SameCell(lon, lat, id);
    StepInterval(LonMin, lon, c);
    StepInterval(LatMin, lat, r);
    assert CellId(lon, lat) == id <==> InStep(LonMin, lon, c) && InStep(LatMin, lat, r);
  }

  /** A point of the box has id `id` exactly when its row and column are those of `id`. */
  lemma SameCell(lon: real, lat: real, id: int)
    requires InBox(lon, lat) && 0 <= id
    ensures CellId(lon, lat) == id <==> RowOf(lat) == id / NColumns && ColumnOf(lon) == id % NColumns
  {
    GridShape();
    CellIdInRange(lon, lat);
    var r, c := RowOf(lat), ColumnOf(lon);
    assert CellId(lon, lat) == r * 750 + c;
    assert id == (id / 750) * 750 + id % 750;
  }

  /** `v` lies in the `k`-th step from `origin`. */
  predicate InStep(origin: real, v: real, k: int) {
    origin + k as real * Step <= v < origin + (k + 1) as real * Step
  }

  /** From `origin`, the step index of `v` is `k` exactly when `v` lies in the `k`-th step. */
  lemma StepInterval(origin: real, v: real, k: int)
    requires origin <= v && 0 <= k
    ensures Trunc((v - origin) / Step) == k <==> InStep(origin, v, k)
  {
    var x := (v - origin) / Step;
    assert x * Step == v - origin;
    assert k as real <= x <==> k as real * Step <= x * Step;
    assert x < (k + 1) as real <==> x * Step < (k + 1) as real * Step;
  }


  /** A point less than one step west of the box truncates into column 0 instead of leaving the grid. */
  lemma NearMissTruncatesToZero(lon: real)
    requires LonMin - Step < lon < LonMin
    ensures ColumnOf(lon) == 0
  {
  }

  /** A point just east of the box aliases the first cell of the next row up. */
  lemma EastOverflowAliases(lon: real, lat: real)
    requires LonMax <= lon < LonMax + Step && LatMin <= lat
    ensures CellId(lon, lat) == CellId(lon - (LonMax - LonMin), lat + Step)
  {
    GridShape();
    assert ColumnOf(lon) == 750 by {
      assert 750.0 <= (lon - LonMin) / Step < 751.0;
    }
    assert ColumnOf(lon - (LonMax - LonMin)) == 0;
    assert RowOf(lat + Step) == RowOf(lat) + 1 by {
      assert (lat + Step - LatMin) / Step == (lat - LatMin) / Step + 1.0;
    }
  }

  /** A point more than a step south of the box gets a negative id. */
  lemma SouthOfBoxNegative(lon: real, lat: real)
    requires LonMin <= lon < LonMax && lat <= LatMin - Step
    ensures CellId(lon, lat) < 0
  {
    GridShape();
    InBoxCoordinates(lon, LatMin);
    assert RowOf(lat) <= -1;
  }

  /** `set_grid_index` does not normalise longitude: -10 and 350 degrees get different ids. */
  lemma NoLongitudeNormalisation()
    ensures CellId(-10.0, 50.0) != CellId(350.0, 50.0)
  {
    GridShape();
    assert ColumnOf(-10.0) == -145;
    assert ColumnOf(350.0) == 1655;
  }

  /** pandas refuses to cast a NaN coordinate to an integer. */
  const NaNCast: string := "Cannot convert non-finite values (NA or inf) to integer"

  /** Python refuses to subtract the grid origin from a text or point cell. */
  const BadOperand: string := "unsupported operand type(s) for -"

  /** A cell the subtraction `data[col] - origin` refuses: present, but not a number. */
  predicate NonNumeric(v: Value) {
    !v.Missing? && AsReal(v).None?
  }

  /**
   * `((data[col] - origin) / grid_step).astype(int)` over one column present in the frame:
   * the subtraction raises TypeError on any non-numeric cell before the cast looks at a
   * NaN, and the cast raises ValueError on any NaN.
   */
  function CastColumn(rows: seq<Row>, col: string): (r: Option<Exception>)
    ensures r.None? <==> forall i :: 0 <= i < |rows| ==> AsReal(Get(rows[i], col)).Some?
    ensures r.Some? ==> r.value == TypeError(BadOperand) || r.value == ValueError(NaNCast)
    ensures (exists i :: 0 <= i < |rows| && NonNumeric(Get(rows[i], col))) <==> r == Some(TypeError(BadOperand))
  {
    if exists i :: 0 <= i < |rows| && NonNumeric(Get(rows[i], col)) then Some(TypeError(BadOperand))
    else if exists i :: 0 <= i < |rows| && Get(rows[i], col).Missing? then Some(ValueError(NaNCast))
    else None
  }

  /** True when both coordinate columns exist and every row holds a number in each. */
  predicate Locatable(columns: seq<string>, rows: seq<Row>, lonCol: string, latCol: string) {
    && lonCol in columns && latCol in columns
    && forall i :: 0 <= i < |rows| ==> AsReal(Get(rows[i], lonCol)).Some? && AsReal(Get(rows[i], latCol)).Some?
  }

  /**
   * What `set_grid_index` raises, if anything: the longitude column is read and cast in
   * full before the latitude column is looked up.
   */
  function GridIndexError(columns: seq<string>, rows: seq<Row>, lonCol: string, latCol: string): (r: Option<Exception>)
    ensures r.None? <==> Locatable(columns, rows, lonCol, latCol)
    ensures lonCol !in columns ==> r == Some(KeyError(lonCol))
    ensures r == Some(KeyError(latCol)) && latCol != lonCol ==> latCol !in columns
    ensures lonCol in columns && (exists i :: 0 <= i < |rows| && NonNumeric(Get(rows[i], lonCol))) ==> r == Some(TypeError(BadOperand))
    ensures r == Some(TypeError(BadOperand)) ==>
              exists i :: 0 <= i < |rows| && (NonNumeric(Get(rows[i], lonCol)) || NonNumeric(Get(rows[i], latCol)))
    ensures r == Some(ValueError(NaNCast)) ==>
              exists i :: 0 <= i < |rows| && (Get(rows[i], lonCol).Missing? || Get(rows[i], latCol).Missing?)
  {
    if lonCol !in columns then Some(KeyError(lonCol))
    else if CastColumn(rows, lonCol).Some? then CastColumn(rows, lonCol)
    else if latCol !in columns then Some(KeyError(latCol))
    else CastColumn(rows, latCol)
  }

  /** A NaN longitude is reported even when a later latitude is text: the longitude goes first. */
  lemma LongitudeFirst(columns: seq<string>, rows: seq<Row>, lonCol: string, latCol: string, k: int)
    requires lonCol in columns && 0 <= k < |rows| && Get(rows[k], lonCol).Missing?
    requires forall i :: 0 <= i < |rows| ==> !NonNumeric(Get(rows[i], lonCol))
    ensures GridIndexError(columns, rows, lonCol, latCol) == Some(ValueError(NaNCast))
  {
    assert !(exists i :: 0 <= i < |rows| && NonNumeric(Get(rows[i], lonCol)));
  }

  /** The cell id of one locatable row. */
  function RowCell(row: Row, lonCol: string, latCol: string): int
    requires AsReal(Get(row, lonCol)).Some? && AsReal(Get(row, latCol)).Some?
  {
    CellId(AsReal(Get(row, lonCol)).value, AsReal(Get(row, latCol)).value)
  }

  /**
   * `set_grid_index`: writes the `grid_index` column into `data` and changes nothing else.
   * `r` is what pandas raises (a missing column, a non-numeric or NaN coordinate), and then
   * the frame is untouched.
   */
  method SetGridIndex(data: DataFrame, lonCol: string, latCol: string) returns (r: Option<Exception>)
    modifies data
    ensures r == old(GridIndexError(data.columns, data.rows, lonCol, latCol))
    ensures r.Some? ==> data.columns == old(data.columns) && data.rows == old(data.rows)
    ensures r.None? ==> data.columns == old(if "grid_index" in data.columns then data.columns else data.columns + ["grid_index"])
    ensures r.None? ==> |data.rows| == old(|data.rows|)
    ensures r.None? ==> forall i :: 0 <= i < |data.rows| ==>
                          && data.rows[i] == old(data.rows[i])["grid_index" := Int(RowCell(old(data.rows[i]), lonCol, latCol))]
  {
    r := GridIndexError(data.columns, data.rows, lonCol, latCol);
    if r.Some? {
      return;
    }
    var rows := data.rows;
    var updated: seq<Row> := [];
    var i := 0;
    while i < |rows|
      invariant 0 <= i <= |rows|
      invariant |updated| == i
      invariant forall j :: 0 <= j < i ==> updated[j] == rows[j]["grid_index" := Int(RowCell(rows[j], lonCol, latCol))]
    {
      var row := rows[i];
      var cell := CellId(AsReal(Get(row, lonCol)).value, AsReal(Get(row, latCol)).value);
      updated := updated + [row["grid_index" := Int(cell)]];
      i := i + 1;
    }
    if "grid_index" !in data.columns {
      data.columns := data.columns + ["grid_index"];
    }
    data.rows := updated;
  }
}
