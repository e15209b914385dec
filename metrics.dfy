/**
 * The competition score (competition/metrics.py). Each row of a target or prediction
 * table is eight-ish day columns; a row's "day count" is the sum of the row after every
 * 0 (and NaN) has been replaced by the last non-zero value to its left, or by 0 when
 * there is none. The per-row error is the difference of day counts, an under-prediction
 * costing `fail_coef` times more, and the score is one minus the mean of an exponential
 * penalty, rounded to five places. Floating-point `**` and `round` are parameters.
 */
module Metrics {
  import opened Wrappers
  import opened Tables

  /** A numeric cell; None is NaN. */
  type Cell = Option<real>

  /** A data frame of numbers: its column count and its rows. */
  datatype Matrix = Matrix(width: nat, rows: seq<seq<Cell>>)

  /** Every row of a data frame has one cell per column. */
  predicate Rectangular(m: Matrix) {
    forall i :: 0 <= i < |m.rows| ==> |m.rows[i]| == m.width
  }

  /** A cell `replace(0, nan)` turns into NaN, or that already is NaN. */
  predicate Blank(c: Cell) {
    c.None? || c.value == 0.0
  }

  /** The last cell of `row` that is neither 0 nor NaN, or 0 when there is none. */
  function LastNonZero(row: seq<Cell>): real
    decreases |row|
  {
    if row == [] then 0.0
    else if !Blank(row[|row| - 1]) then row[|row| - 1].value
    else LastNonZero(row[..|row| - 1])
  }

  /** `.replace(0, nan).fillna(axis=1, method="ffill").fillna(0)` on one row. */
  function FillForward(row: seq<Cell>): (r: seq<real>)
    ensures |r| == |row|
    ensures forall i :: 0 <= i < |row| ==> r[i] == LastNonZero(row[..i + 1])
  {
    seq(|row|, i requires 0 <= i < |row| => LastNonZero(row[..i + 1]))
  }

  function Sum(s: seq<real>): real
    decreases |s|
  {
    if s == [] then 0.0 else Sum(s[..|s| - 1]) + s[|s| - 1]
  }

  /** `.sum(axis=1)` after the forward fill: the day count of one row. */
  function DayCount(row: seq<Cell>): real {
    Sum(FillForward(row))
  }

  // ------------------------------------------------------------ binary rows

  /** A row of a prediction that passes the second assertion: every cell is 0 or 1. */
  predicate BinaryRow(row: seq<Cell>) {
    forall i :: 0 <= i < |row| ==> row[i] == Some(0.0) || row[i] == Some(1.0)
  }

  predicate Binary(m: Matrix) {
    forall i :: 0 <= i < |m.rows| ==> BinaryRow(m.rows[i])
  }

  /** The 0-based position of the first 1 of a row, or its length when it has none. */
  function FirstOne(row: seq<Cell>): (p: nat)
    ensures p <= |row|
    ensures forall i :: 0 <= i < p ==> row[i] != Some(1.0)
    ensures p < |row| ==> row[p] == Some(1.0)
  {
    if row == [] then 0
    else if row[0] == Some(1.0) then 0
    else 1 + FirstOne(row[1..])
  }

  /** In a 0/1 row the last non-zero value is 1 exactly when the row holds a 1. */
  lemma {:induction false} LastNonZeroBinary(row: seq<Cell>)
    requires BinaryRow(row)
    ensures LastNonZero(row) == if exists i :: 0 <= i < |row| && row[i] == Some(1.0) then 1.0 else 0.0
    decreases |row|
  {
    if row != [] {
      var prefix := row[..|row| - 1];
      LastNonZeroBinary(prefix);
      assert forall i :: 0 <= i < |prefix| ==> prefix[i] == row[i];
      if row[|row| - 1] == Some(1.0) {
        assert !Blank(row[|row| - 1]);
      }
    }
  }

  /**
   * Forward-filling a 0/1 row keeps the zeros before its first 1 and turns everything
   * from the first 1 onward into 1.
   */
  lemma BinaryFill(row: seq<Cell>)
    requires BinaryRow(row)
    ensures forall i :: 0 <= i < |row| ==> FillForward(row)[i] == if FirstOne(row) <= i then 1.0 else 0.0
  {
    forall i | 0 <= i < |row|
      ensures FillForward(row)[i] == if FirstOne(row) <= i then 1.0 else 0.0
    {
      var prefix := row[..i + 1];
      assert forall j :: 0 <= j < |prefix| ==> prefix[j] == row[j];
      LastNonZeroBinary(prefix);
      if FirstOne(row) <= i {
        assert prefix[FirstOne(row)] == Some(1.0);
      }
    }
  }

  /** A sequence of zeros up to position `p` and ones from there sums to its count of ones. */
  lemma {:induction false} SumOfStep(s: seq<real>, p: nat)
    requires p <= |s|
    requires forall i :: 0 <= i < |s| ==> s[i] == if p <= i then 1.0 else 0.0
    ensures Sum(s) == (|s| - p) as real
    decreases |s|
  {
    if s != [] {
      var prefix := s[..|s| - 1];
      SumOfStep(prefix, if p < |s| then p else |prefix|);
    }
  }

  /**
   * The day count of a 0/1 row of width `w` whose first 1 is at 1-based position `q` is
   * `w - q + 1`, and 0 when the row has no 1.
   */
  lemma BinaryDayCount(row: seq<Cell>)
    requires BinaryRow(row)
    ensures FirstOne(row) < |row| ==> DayCount(row) == (|row| - (FirstOne(row) + 1) + 1) as real
    ensures FirstOne(row) == |row| ==> DayCount(row) == 0.0
  {
    BinaryFill(row);
    SumOfStep(FillForward(row), FirstOne(row));
  }

  // ------------------------------------------------------------ the score

  /** Line 27: a negative error is multiplied by `-fail_coef`. */
  function RowError(predSum: real, trueSum: real, failCoef: real): (e: real)
    ensures predSum >= trueSum ==> e == predSum - trueSum
    ensures predSum < trueSum ==> e == failCoef * (trueSum - predSum)
  {
    var d := predSum - trueSum;
    if d < 0.0 then d * (-failCoef) else d
  }

  /** `days_error_series`: one error per row. */
  function Errors(yTrue: Matrix, yPred: Matrix, failCoef: real): (r: seq<real>)
    requires |yTrue.rows| == |yPred.rows|
    ensures |r| == |yTrue.rows|
  {
    seq(|yTrue.rows|, i requires 0 <= i < |yTrue.rows| =>
      RowError(DayCount(yPred.rows[i]), DayCount(yTrue.rows[i]), failCoef))
  }

  /** Line 24: `max_penalty`, the column count times `fail_coef`. */
  function MaxPenalty(yTrue: Matrix, failCoef: real): real {
    yTrue.width as real * failCoef
  }

  /** Line 30: `(C ** (x / max_penalty) - 1) / (C - 1)` for each row error `x`. */
  function Penalties(errors: seq<real>, maxPenalty: real, c: real, power: (real, real) -> real): (r: seq<real>)
    requires maxPenalty != 0.0 && c != 1.0
    ensures |r| == |errors|
  {
    seq(|errors|, i requires 0 <= i < |errors| => (power(c, errors[i] / maxPenalty) - 1.0) / (c - 1.0))
  }

  function Mean(s: seq<real>): real
    requires |s| > 0
  {
    Sum(s) / |s| as real
  }

  /**
   * `competition_metric(y_true, y_pred, fail_coef, C)`, with `power(a, b)` for `a ** b`
   * and `round5` for `round(_, 5)`. A failed assertion is AssertionError. `apply` hands
   * the lambda plain Python floats, so a zero `max_penalty` or `C == 1` raises
   * ZeroDivisionError at the first row. Success(None) stands for the NaN that the mean
   * of an empty series gives.
   */
  function CompetitionMetric(yTrue: Matrix, yPred: Matrix, failCoef: real, c: real,
                             power: (real, real) -> real, round5: real -> real): (r: Result<Option<real>, Exception>)
    ensures r.Failure? ==> r.error == AssertionError || r.error == ZeroDivisionError
    ensures r == Success(None) ==> |yTrue.rows| == 0
  {
    if yTrue.width != yPred.width || |yTrue.rows| != |yPred.rows| then Failure(AssertionError)
    else if !Binary(yPred) then Failure(AssertionError)
    else if |yTrue.rows| == 0 then Success(None)
    else if MaxPenalty(yTrue, failCoef) == 0.0 || c == 1.0 then Failure(ZeroDivisionError)
    else
      var penalties := Penalties(Errors(yTrue, yPred, failCoef), MaxPenalty(yTrue, failCoef), c, power);
      Success(Some(round5(1.0 - Mean(penalties))))
  }

  /**
   * The outcomes of the metric: AssertionError exactly when the shapes differ or a
   * prediction is not 0/1; otherwise NaN exactly for empty frames, and ZeroDivisionError
   * exactly when a row meets a zero `max_penalty` or `C == 1`.
   */
  lemma MetricAssertions(yTrue: Matrix, yPred: Matrix, failCoef: real, c: real,
                         power: (real, real) -> real, round5: real -> real)
    ensures var r := CompetitionMetric(yTrue, yPred, failCoef, c, power, round5);
      && (r == Failure(AssertionError) <==> (yTrue.width, |yTrue.rows|) != (yPred.width, |yPred.rows|) || !Binary(yPred))
      && (r == Success(None) <==> yTrue.width == yPred.width && |yTrue.rows| == |yPred.rows| == 0 && Binary(yPred))
      && (r == Failure(ZeroDivisionError) <==>
            && yTrue.width == yPred.width && |yTrue.rows| == |yPred.rows| > 0 && Binary(yPred)
            && (yTrue.width as real * failCoef == 0.0 || c == 1.0))
      && (r.Failure? ==> r.error == AssertionError || r.error == ZeroDivisionError)
  {
  }

  /**
   * With a positive `fail_coef` no row error is negative, and under-predicting by `d`
   * days costs `fail_coef * d` where over-predicting costs `d`.
   */
  lemma ErrorsNonNegative(yTrue: Matrix, yPred: Matrix, failCoef: real)
    requires |yTrue.rows| == |yPred.rows| && failCoef > 0.0
    ensures forall i :: 0 <= i < |yTrue.rows| ==> Errors(yTrue, yPred, failCoef)[i] >= 0.0
    ensures forall d: real :: d > 0.0 ==> RowError(0.0, d, failCoef) == failCoef * RowError(d, 0.0, failCoef)
  {
  }

  lemma ProductNonZero(a: real, b: real)
    requires a != 0.0 && b != 0.0
    ensures a * b != 0.0
  {
  }

  lemma ZeroOver(x: real)
    requires x != 0.0
    ensures 0.0 / x == 0.0
  {
  }

  lemma {:induction false} SumOfZeros(s: seq<real>)
    requires forall i :: 0 <= i < |s| ==> s[i] == 0.0
    ensures Sum(s) == 0.0
    decreases |s|
  {
    if s != [] {
      SumOfZeros(s[..|s| - 1]);
    }
  }

  /** Rows without error cost nothing: their mean penalty is 0 when `C ** 0` is 1. */
  lemma NoErrorNoPenalty(errors: seq<real>, maxPenalty: real, c: real, power: (real, real) -> real)
    requires maxPenalty != 0.0 && c != 1.0 && |errors| > 0
    requires forall i :: 0 <= i < |errors| ==> errors[i] == 0.0
    requires power(c, 0.0) == 1.0
    ensures Mean(Penalties(errors, maxPenalty, c, power)) == 0.0
  {
    var penalties := Penalties(errors, maxPenalty, c, power);
    forall i | 0 <= i < |penalties|
      ensures penalties[i] == 0.0
    {
      ZeroOver(maxPenalty);
      assert errors[i] / maxPenalty == 0.0;
      ZeroOver(c - 1.0);
    }
    SumOfZeros(penalties);
    ZeroOver(|penalties| as real);
  }

  /**
   * A prediction equal to the truth scores 1 (when `C ** 0` is 1 and rounding keeps 1):
   * every row error is 0, so every penalty is 0.
   */
  lemma PerfectPrediction(y: Matrix, failCoef: real, c: real, power: (real, real) -> real, round5: real -> real)
    requires Binary(y) && y.width > 0 && |y.rows| > 0 && failCoef != 0.0 && c != 1.0
    requires power(c, 0.0) == 1.0 && round5(1.0) == 1.0
    ensures CompetitionMetric(y, y, failCoef, c, power, round5) == Success(Some(1.0))
  {
    ProductNonZero(y.width as real, failCoef);
    var errors := Errors(y, y, failCoef);
    assert forall i :: 0 <= i < |errors| ==> errors[i] == 0.0;
    NoErrorNoPenalty(errors, MaxPenalty(y, failCoef), c, power);
  }
}
