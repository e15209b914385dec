/**
 * The baseline pipeline (competition/pipeline/pipelines.py): nine models, one for the
 * fire-day number and one per day 1..8. Fitting turns the eight binary day targets into
 * "on fire from the first fire day on" by the same forward fill the score uses, and
 * trains each model on every column that is neither a target nor a key. Predicting
 * thresholds each day's class-1 probability at 0.51 and then, in rows where no day was
 * predicted, marks the day the day-number model predicts. The estimators themselves
 * (training, `predict_proba`, `predict`) are not visible here: a fitted model is the
 * record of the inputs and labels handed to training, and its predictions are parameters.
 */
module Pipelines {
  import opened Wrappers
  import opened Tables
  import opened Grid
  import opened FeaturiseBase
  import opened Metrics

  /** `BaselinePipeline.name`, the key the registry finds the pipeline under. */
  const PipelineName: string := "baseline_pipeline"

  /** The day-number target. */
  const NumTarget: string := "infire_day_num"

  /** `f'infire_day_{i}'`. */
  function DayName(i: nat): string {
    "infire_day_" + Decimal(i)
  }

  /** A one-digit day's column name ends in that digit. */
  lemma DayNameDigit(i: nat)
    requires 1 <= i <= 8
    ensures |DayName(i)| == 12 && DayName(i)[11] == ('0' as int + i) as char
  {
  }

  /** `infire_day_1` .. `infire_day_8`, in order. */
  function DayNames(): (r: seq<string>)
    ensures |r| == 8 && forall i :: 0 <= i < 8 ==> r[i] == DayName(i + 1)
  {
    seq(8, i requires 0 <= i < 8 => DayName(i + 1))
  }

  /** `list(self.models.keys())`: the day-number target first, then the eight days. */
  function TargetNames(): (r: seq<string>)
    ensures |r| == 9 && r[0] == NumTarget && forall i :: 1 <= i < 9 ==> r[i] == DayName(i)
  {
    [NumTarget] + DayNames()
  }

  /** The nine target names are pairwise different, so the models map has nine keys. */
  lemma TargetNamesDistinct()
    ensures forall i, j :: 0 <= i < j < 9 ==> TargetNames()[i] != TargetNames()[j]
  {
    forall i, j | 0 <= i < j < 9
      ensures TargetNames()[i] != TargetNames()[j]
    {
      DayNameDigit(j);
      if i > 0 {
        DayNameDigit(i);
        assert TargetNames()[i][11] != TargetNames()[j][11];
      } else {
        assert |NumTarget| == 14;
      }
    }
  }

  /** The eight day names are pairwise different and differ from the day-number target. */
  lemma DayNamesDistinct()
    ensures forall i, j :: 0 <= i < 8 && 0 <= j < 8 && i != j ==> DayNames()[i] != DayNames()[j]
    ensures NumTarget !in DayNames()
  {
    TargetNamesDistinct();
    assert forall i :: 0 <= i < 8 ==> DayNames()[i] == TargetNames()[i + 1];
  }

  /** `set(columns) - set(targets) - set(['dt', 'grid_index'])`. */
  function FeatureColumns(columns: seq<string>): (r: set<string>)
    ensures forall c :: c in r <==> c in columns && c !in TargetNames() && c != "dt" && c != "grid_index"
  {
    (set c | c in columns) - (set t | t in TargetNames()) - {"dt", "grid_index"}
  }

  // ------------------------------------------------------------ the target transform

  /** A target cell as the numeric chain reads it; None for one `astype(int)` cannot convert. */
  function NumericCell(v: Value): Option<Cell> {
    match v
    case Missing => Some(None)
    case Int(i) => Some(Some(i as real))
    case Num(x) => Some(Some(x))
    case _ => None
  }

  /** The eight day cells of a row, in day order. */
  function DayValues(row: Row): (r: seq<Value>)
    ensures |r| == 8 && forall j :: 0 <= j < 8 ==> r[j] == Get(row, DayNames()[j])
  {
    seq(8, j requires 0 <= j < 8 => Get(row, DayNames()[j]))
  }

  /** The index of the first of `names` not in `columns`, or the length when all are there. */
  function FirstAbsent(names: seq<string>, columns: seq<string>): (k: nat)
    ensures k <= |names|
    ensures forall i :: 0 <= i < k ==> names[i] in columns
    ensures k < |names| ==> names[k] !in columns
  {
    if names == [] then 0
    else if names[0] !in columns then 0
    else 1 + FirstAbsent(names[1..], columns)
  }

  /** A row whose eight day cells are all numbers or NaN, so the cast can succeed. */
  predicate Numeric(row: Row) {
    forall j :: 0 <= j < 8 ==> NumericCell(DayValues(row)[j]).Some?
  }

  /** The eight day cells of a numeric row. */
  function DayCells(row: Row): (r: seq<Cell>)
    requires Numeric(row)
    ensures |r| == 8 && forall j :: 0 <= j < 8 ==> r[j] == NumericCell(DayValues(row)[j]).value
  {
    seq(8, j requires 0 <= j < 8 => NumericCell(DayValues(row)[j]).value)
  }

  /** The eight transformed day columns of a row, from its forward-filled cells. */
  function DayColumns(filled: seq<real>): (r: Row)
    requires |filled| == 8
    ensures forall j :: 0 <= j < 8 ==> DayNames()[j] in r && r[DayNames()[j]] == Int(Trunc(filled[j]))
    ensures forall c :: c in r ==> c in DayNames()
  {
    DayNamesDistinct();
    map j | 0 <= j < 8 :: DayNames()[j] := Int(Trunc(filled[j]))
  }

  /**
   * One row of lines 34-39: the eight day cells forward-filled and cast to int (a cell
   * that is not a number fails the cast), and the day-number cell copied unchanged.
   */
  function TransformRow(row: Row): Result<Row, Exception> {
    if !Numeric(row) then Failure(ValueError("astype(int)"))
    else Success(DayColumns(FillForward(DayCells(row)))[NumTarget := Get(row, NumTarget)])
  }

  /** Every row transformed; the first row that fails the cast decides the error. */
  function TransformRows(rows: seq<Row>): (r: Result<seq<Row>, Exception>)
    ensures r.Success? ==> |r.value| == |rows| && forall i :: 0 <= i < |rows| ==> TransformRow(rows[i]) == Success(r.value[i])
    ensures r.Success? <==> forall i :: 0 <= i < |rows| ==> TransformRow(rows[i]).Success?
  {
    if rows == [] then Success([])
    else
      var first :- TransformRow(rows[0]);
      var rest :- TransformRows(rows[1..]);
      Success([first] + rest)
  }

  /**
   * `targets_df` of `fit`: KeyError for the first day column the frame lacks, then
   * ValueError for a cell the cast refuses, then KeyError when the day-number column is
   * missing.
   */
  function TransformTargets(t: Table): (r: Result<Table, Exception>)
    ensures r.Success? ==> r.value.columns == DayNames() + [NumTarget] && |r.value.rows| == |t.rows|
    ensures r.Success? ==> forall c :: c in DayNames() + [NumTarget] ==> c in t.columns
  {
    var k := FirstAbsent(DayNames(), t.columns);
    if k < 8 then Failure(KeyError(DayName(k + 1)))
    else
      var rows :- TransformRows(t.rows);
      if NumTarget !in t.columns then Failure(KeyError(NumTarget))
      else Success(Table(DayNames() + [NumTarget], rows))
  }

  /** The day cells of a row that already holds 0/1 targets, as the numeric chain reads them. */
  predicate BinaryTargets(row: Row) {
    forall j :: 0 <= j < 8 ==> Get(row, DayNames()[j]) == Int(0) || Get(row, DayNames()[j]) == Int(1)
  }

  /**
   * A row of 0/1 day targets becomes "0 before the first fire day, 1 from it on", and
   * its day-number cell is copied unchanged.
   */
  lemma BinaryTargetRow(row: Row)
    requires BinaryTargets(row)
    ensures TransformRow(row).Success?
    ensures NumTarget in TransformRow(row).value && TransformRow(row).value[NumTarget] == Get(row, NumTarget)
    ensures forall j :: 0 <= j < 8 ==>
              DayNames()[j] in TransformRow(row).value
              && TransformRow(row).value[DayNames()[j]] == Int(if FirstOne(DayCells(row)) <= j then 1 else 0)
  {
    assert Numeric(row);
    var cells := DayCells(row);
    assert BinaryRow(cells);
    BinaryFill(cells);
    DayNamesDistinct();
  }

  // ------------------------------------------------------------ features and fitted models

  /** A column that is neither one of the nine targets nor a key column. */
  predicate IsFeature(c: string) {
    c !in TargetNames() && c != "dt" && c != "grid_index"
  }

  /**
   * `list(set(columns) - set(targets) - set(['dt', 'grid_index']))`: every feature column
   * once. Python's set order is not specified; this list keeps the columns' own order.
   */
  function FeatureList(columns: seq<string>): (r: seq<string>)
    ensures forall c :: c in r <==> c in FeatureColumns(columns)
    ensures forall i, j :: 0 <= i < j < |r| ==> r[i] != r[j]
  {
    if columns == [] then []
    else
      var rest := FeatureList(columns[1..]);
      if IsFeature(columns[0]) && columns[0] !in rest then [columns[0]] + rest else rest
  }

  /** A row cut down to the given columns (`features_df.loc[:, features]`, one row). */
  function Restrict(row: Row, columns: seq<string>): (r: Row)
    ensures forall c :: c in r <==> c in columns
    ensures forall c :: c in columns ==> r[c] == Get(row, c)
  {
    map c | c in columns :: Get(row, c)
  }

  /**
   * `features_df.loc[:, self.features]`: KeyError before `fit` has set a feature list,
   * and KeyError for the first feature the frame lacks.
   */
  function Inputs(t: Table, features: Option<seq<string>>): (r: Result<seq<Row>, Exception>)
    ensures r.Success? <==> features.Some? && forall c :: c in features.value ==> c in t.columns
    ensures r.Success? ==> |r.value| == |t.rows|
                           && forall i :: 0 <= i < |t.rows| ==> r.value[i] == Restrict(t.rows[i], features.value)
  {
    if features.None? then Failure(KeyError("None"))
    else
      var k := FirstAbsent(features.value, t.columns);
      if k < |features.value| then Failure(KeyError(features.value[k]))
      else Success(seq(|t.rows|, i requires 0 <= i < |t.rows| => Restrict(t.rows[i], features.value)))
  }

  /** `targets_df.loc[:, target]`: one label per row. */
  function Labels(rows: seq<Row>, target: string): (r: seq<Value>)
    ensures |r| == |rows| && forall i :: 0 <= i < |rows| ==> r[i] == Get(rows[i], target)
  {
    seq(|rows|, i requires 0 <= i < |rows| => Get(rows[i], target))
  }

  /** Line 55: the day-number model is scored with MultiClass, the day models with F1. */
  function EvalMetric(target: string): string {
    if target == NumTarget then "MultiClass" else "F1"
  }

  /**
   * A fitted estimator as far as this layer sees it: the target it predicts, the settings
   * lines 55-56 give it, and the inputs and labels handed to training (the estimator's
   * own train/test split of them is not modelled).
   */
  datatype Model = Model(target: string, randomSeed: int, evalMetric: string, inputs: seq<Row>, labels: seq<Value>)

  /** The `i`-th model `fit` trains: on the feature inputs, against the transformed target. */
  function FittedModel(seed: int, inputs: seq<Row>, targets: Table, i: nat): Model
    requires i < 9
  {
    var target := TargetNames()[i];
    Model(target, seed + i, EvalMetric(target), inputs, Labels(targets.rows, target))
  }

  /** The models of the first `n` targets, as `fit`'s loop has stored them after `n` rounds. */
  function Trained(seed: int, inputs: seq<Row>, targets: Table, n: nat): map<string, Option<Model>>
    requires n <= 9
  {
    if n == 0 then map[]
    else Trained(seed, inputs, targets, n - 1)[TargetNames()[n - 1] := Some(FittedModel(seed, inputs, targets, n - 1))]
  }

  /** After `n` rounds exactly the first `n` targets have a model, each the one trained for it. */
  lemma {:induction false} TrainedFacts(seed: int, inputs: seq<Row>, targets: Table, n: nat)
    requires n <= 9
    ensures forall name :: name in Trained(seed, inputs, targets, n) <==> exists i :: 0 <= i < n && TargetNames()[i] == name
    ensures forall i :: 0 <= i < n ==>
              Trained(seed, inputs, targets, n)[TargetNames()[i]] == Some(FittedModel(seed, inputs, targets, i))
  {
    if n > 0 {
      TrainedFacts(seed, inputs, targets, n - 1);
      var names := TargetNames();
      var key := names[n - 1];
      forall i | 0 <= i < n - 1
        ensures names[i] != key
      {
        TargetNamesDistinct();
      }
    }
  }

  /** A successful target transform holds one transformed row per input row. */
  lemma TransformedRows(t: Table, targets: Table)
    requires TransformTargets(t) == Success(targets)
    ensures targets.columns == DayNames() + [NumTarget]
    ensures |targets.rows| == |t.rows|
    ensures forall r :: 0 <= r < |t.rows| ==> TransformRow(t.rows[r]) == Success(targets.rows[r])
  {
  }

  /**
   * What `fit` trains: nine models with seeds `seed`, `seed + 1`, .., MultiClass for the
   * day number only, each on the same inputs and with one label per row.
   */
  lemma FitTrains(seed: int, t: Table, inputs: seq<Row>, targets: Table)
    requires TransformTargets(t) == Success(targets)
    ensures forall name :: name in Trained(seed, inputs, targets, 9) <==> name in TargetNames()
    ensures forall i :: 0 <= i < 9 ==>
              var m := Trained(seed, inputs, targets, 9)[TargetNames()[i]];
              m.Some? && m.value.target == TargetNames()[i] && m.value.randomSeed == seed + i
              && (m.value.evalMetric == "MultiClass" <==> i == 0)
              && m.value.inputs == inputs && |m.value.labels| == |t.rows|
  {
    TrainedFacts(seed, inputs, targets, 9);
    TransformedRows(t, targets);
  }

  /** Each target's model, by name: the day-number model is the first trained, day `j + 1`'s the next ones. */
  lemma TrainedByName(seed: int, inputs: seq<Row>, targets: Table)
    ensures NumTarget in Trained(seed, inputs, targets, 9)
            && Trained(seed, inputs, targets, 9)[NumTarget] == Some(FittedModel(seed, inputs, targets, 0))
    ensures forall j :: 0 <= j < 8 ==>
              DayNames()[j] in Trained(seed, inputs, targets, 9)
              && Trained(seed, inputs, targets, 9)[DayNames()[j]] == Some(FittedModel(seed, inputs, targets, j + 1))
  {
    TrainedFacts(seed, inputs, targets, 9);
    assert forall j :: 0 <= j < 8 ==> TargetNames()[j + 1] == DayNames()[j];
  }

  /** The day-number model learns the day numbers unchanged. */
  lemma NumLabels(seed: int, t: Table, inputs: seq<Row>, targets: Table)
    requires TransformTargets(t) == Success(targets)
    ensures |FittedModel(seed, inputs, targets, 0).labels| == |t.rows|
    ensures forall r :: 0 <= r < |t.rows| ==>
              FittedModel(seed, inputs, targets, 0).labels[r] == Get(t.rows[r], NumTarget)
  {
    TransformedRows(t, targets);
    forall r | 0 <= r < |t.rows|
      ensures FittedModel(seed, inputs, targets, 0).labels[r] == Get(t.rows[r], NumTarget)
    {
      CopiedDayNumber(t.rows[r], targets.rows[r]);
    }
  }

  /** A transformed row carries the day number of its source row. */
  lemma CopiedDayNumber(row: Row, out: Row)
    requires TransformRow(row) == Success(out)
    ensures Get(out, NumTarget) == Get(row, NumTarget)
  {
  }

  /** On a row of 0/1 targets, the model of day `i` learns 1 from the row's first fire day on. */
  lemma DayLabel(seed: int, t: Table, inputs: seq<Row>, targets: Table, r: nat, i: nat)
    requires TransformTargets(t) == Success(targets)
    requires r < |t.rows| && 1 <= i < 9 && BinaryTargets(t.rows[r])
    ensures r < |FittedModel(seed, inputs, targets, i).labels|
    ensures FittedModel(seed, inputs, targets, i).labels[r] == Int(if FirstOne(DayCells(t.rows[r])) < i then 1 else 0)
  {
    TransformedRows(t, targets);
    var out := targets.rows[r];
    BinaryTargetRow(t.rows[r]);
    var name := DayNames()[i - 1];
    assert TargetNames()[i] == name;
    assert FittedModel(seed, inputs, targets, i).labels[r] == Get(out, name);
  }

  /** Writing into the right operand of a map union is writing into the union. */
  lemma UnionUpdate<K, V>(m: map<K, V>, t: map<K, V>, k: K, v: V)
    ensures (m + t)[k := v] == m + t[k := v]
  {
  }

  /** A sequence without repetitions has as many distinct elements as it is long. */
  lemma {:induction false} DistinctCount(s: seq<string>)
    requires forall i, j :: 0 <= i < j < |s| ==> s[i] != s[j]
    ensures |set x | x in s| == |s|
  {
    if s != [] {
      var tail := s[1..];
      DistinctCount(tail);
      assert (set x | x in s) == (set x | x in tail) + {s[0]};
      assert s[0] !in tail;
    }
  }

  // ------------------------------------------------------------ predictions

  /** Line 83: a day is predicted iff its class-1 probability is strictly above 0.51. */
  function Threshold(p: real): (b: int)
    ensures b == 0 || b == 1
    ensures b == 1 <==> p > 0.51
  {
    if p > 0.51 then 1 else 0
  }

  function SumInts(s: seq<int>): int
    decreases |s|
  {
    if s == [] then 0 else SumInts(s[..|s| - 1]) + s[|s| - 1]
  }

  /** A row of 0/1 values sums to 0 exactly when every value is 0. */
  lemma {:induction false} SumZeroIffAllZero(s: seq<int>)
    requires forall i :: 0 <= i < |s| ==> s[i] == 0 || s[i] == 1
    ensures SumInts(s) >= 0
    ensures SumInts(s) == 0 <==> forall i :: 0 <= i < |s| ==> s[i] == 0
    decreases |s|
  {
    if s != [] {
      var prefix := s[..|s| - 1];
      SumZeroIffAllZero(prefix);
      assert forall i :: 0 <= i < |prefix| ==> prefix[i] == s[i];
    }
  }

  /**
   * Lines 88-91 on one row: when the eight day predictions sum to 0, the day the
   * day-number model names is set to 1; every other cell keeps its value.
   */
  function Fix(bits: seq<int>, num: int): (r: seq<int>)
    ensures |r| == |bits|
  {
    seq(|bits|, d requires 0 <= d < |bits| => if SumInts(bits) == 0 && num == d + 1 then 1 else bits[d])
  }

  /**
   * The fix changes only rows whose day predictions are all 0; such a row gets exactly the
   * day `num` when `num` is 1..8 and stays all 0 otherwise; the result stays 0/1.
   */
  lemma FixOnlyZeroRows(bits: seq<int>, num: int)
    requires |bits| == 8 && forall d :: 0 <= d < 8 ==> bits[d] == 0 || bits[d] == 1
    ensures (exists d :: 0 <= d < 8 && bits[d] == 1) ==> Fix(bits, num) == bits
    ensures (forall d :: 0 <= d < 8 ==> bits[d] == 0) ==>
              forall d :: 0 <= d < 8 ==> Fix(bits, num)[d] == if num == d + 1 then 1 else 0
    ensures !(1 <= num <= 8) ==> Fix(bits, num) == bits
    ensures forall d :: 0 <= d < 8 ==> Fix(bits, num)[d] == 0 || Fix(bits, num)[d] == 1
  {
    SumZeroIffAllZero(bits);
  }

  /** The day-`d` model (0-based) with the method `predict` calls on it. */
  function DayModel(models: map<string, Option<Model>>, d: nat): Result<Model, Exception>
    requires d < 8
  {
    ModelFor(models, DayNames()[d], "predict_proba")
  }

  /**
   * `self.models[name].<call>`: KeyError for a name the map lacks, AttributeError on
   * `None` (a model `fit` has not trained).
   */
  function ModelFor(models: map<string, Option<Model>>, name: string, call: string): (r: Result<Model, Exception>)
    ensures r.Success? <==> name in models && models[name].Some?
    ensures r.Success? ==> r.value == models[name].value
  {
    if name !in models then Failure(KeyError(name))
    else if models[name].None? then Failure(AttributeError(call))
    else Success(models[name].value)
  }

  /** The first day (0-based) whose model cannot predict, or 8. */
  function FirstUnfitted(models: map<string, Option<Model>>, from: nat): (d: nat)
    requires from <= 8
    ensures from <= d <= 8
    ensures forall e :: from <= e < d ==> DayModel(models, e).Success?
    ensures d < 8 ==> DayModel(models, d).Failure?
    decreases 8 - from
  {
    if from == 8 || DayModel(models, from).Failure? then from else FirstUnfitted(models, from + 1)
  }

  /** Every model `predict` calls is there and trained. */
  predicate AllFitted(models: map<string, Option<Model>>) {
    FirstUnfitted(models, 0) == 8 && ModelFor(models, NumTarget, "predict").Success?
  }

  /** The eight thresholded day predictions for one input row. */
  function RawBits(models: map<string, Option<Model>>, proba: (Model, Row) -> real, x: Row): (r: seq<int>)
    requires AllFitted(models)
    ensures |r| == 8 && forall d :: 0 <= d < 8 ==> r[d] == Threshold(proba(DayModel(models, d).value, x))
  {
    seq(8, d requires 0 <= d < 8 => Threshold(proba(DayModel(models, d).value, x)))
  }

  /** The output row for one input row: the thresholded days, then the fix. */
  function PredictedRow(models: map<string, Option<Model>>, proba: (Model, Row) -> real,
                        classify: (Model, Row) -> int, x: Row): seq<int>
    requires AllFitted(models)
  {
    Fix(RawBits(models, proba, x), classify(ModelFor(models, NumTarget, "predict").value, x))
  }

  /** A predictions frame, column-major: `data[j]` is the column named `columns[j]`. */
  datatype Predictions = Predictions(columns: seq<string>, data: seq<seq<int>>)

  /** The row `i` of a column-major table of eight columns. */
  function DayRow(columns: seq<seq<int>>, i: nat): (r: seq<int>)
    requires |columns| == 8 && forall d :: 0 <= d < 8 ==> i < |columns[d]|
    ensures |r| == 8 && forall d :: 0 <= d < 8 ==> r[d] == columns[d][i]
  {
    seq(8, d requires 0 <= d < 8 => columns[d][i])
  }

  // ------------------------------------------------------------ the pipeline

  /**
   * Lines 81-83: one thresholded probability column per day, in day order; the first
   * day whose model is missing or untrained stops the loop with its error.
   */
  method ThresholdColumns(models: map<string, Option<Model>>, proba: (Model, Row) -> real, xs: seq<Row>)
    returns (r: Result<seq<seq<int>>, Exception>)
    ensures FirstUnfitted(models, 0) < 8 ==> r == Failure(DayModel(models, FirstUnfitted(models, 0)).error)
    ensures FirstUnfitted(models, 0) == 8 ==>
              r.Success? && |r.value| == 8
              && (forall d :: 0 <= d < 8 ==> |r.value[d]| == |xs|)
              && forall d, i :: 0 <= d < 8 && 0 <= i < |xs| ==>
                   r.value[d][i] == Threshold(proba(DayModel(models, d).value, xs[i]))
  {
    var n := |xs|;
    var columns: seq<seq<int>> := [];
    for d := 0 to 8
      invariant |columns| == d
      invariant FirstUnfitted(models, 0) >= d
      invariant forall e :: 0 <= e < d ==> |columns[e]| == n
      invariant forall e, i :: 0 <= e < d && 0 <= i < n ==> columns[e][i] == Threshold(proba(DayModel(models, e).value, xs[i]))
    {
      var m := DayModel(models, d);
      if m.Failure? {
        assert FirstUnfitted(models, 0) == d;
        return Failure(m.error);
      }
      columns := columns + [seq(n, i requires 0 <= i < n => Threshold(proba(m.value, xs[i])))];
    }
    r := Success(columns);
  }

  /**
   * Lines 88-91: in every row whose eight day bits are all 0, the day named by the
   * day-number prediction is set to 1; every other cell keeps its bit.
   */
  method FixColumns(raw: seq<seq<int>>, num: seq<int>) returns (columns: seq<seq<int>>)
    requires |raw| == 8 && forall d :: 0 <= d < 8 ==> |raw[d]| == |num|
    ensures |columns| == 8 && forall d :: 0 <= d < 8 ==> |columns[d]| == |num|
    ensures forall d, i :: 0 <= d < 8 && 0 <= i < |num| ==> columns[d][i] == Fix(DayRow(raw, i), num[i])[d]
  {
    var n := |num|;
    var mask := seq(n, i requires 0 <= i < n => SumInts(DayRow(raw, i)) == 0);
    columns := raw;
    for d := 0 to 8
      invariant |columns| == 8
      invariant forall e :: 0 <= e < 8 ==> |columns[e]| == n
      invariant forall e, i :: 0 <= e < d && 0 <= i < n ==>
                  columns[e][i] == if mask[i] && num[i] == e + 1 then 1 else raw[e][i]
      invariant forall e :: d <= e < 8 ==> columns[e] == raw[e]
    {
      var column := columns[d];
      columns := columns[d := seq(n, i requires 0 <= i < n => if mask[i] && num[i] == d + 1 then 1 else column[i])];
    }
  }

  class BaselinePipeline {
    const seed: int
    var models: map<string, Option<Model>>
    var features: Option<seq<string>>

    /** Lines 17-21: the nine targets, none trained, and no feature list yet. */
    constructor (seed: int)
      ensures this.seed == seed && features == None
      ensures forall name :: name in models <==> name in TargetNames()
      ensures forall name :: name in models ==> models[name] == None
      ensures |models.Keys| == 9
    {
      TargetNamesDistinct();
      this.seed := seed;
      models := map i | 0 <= i < 9 :: TargetNames()[i] := None;
      features := None;
      new;
      DistinctCount(TargetNames());
      assert models.Keys == set x | x in TargetNames();
    }

    /**
     * Lines 23-73: the feature list is stored first, so a target frame that fails the
     * transform leaves it set and the models untouched; otherwise target `i` of the nine
     * gets its model, trained with seed `seed + i`, and the pipeline is returned.
     */
    method Fit(t: Table) returns (r: Result<BaselinePipeline, Exception>)
      modifies this
      ensures features == Some(FeatureList(t.columns))
      ensures TransformTargets(t).Failure? ==> r == Failure(TransformTargets(t).error) && models == old(models)
      ensures TransformTargets(t).Success? ==>
                r == Success(this)
                && models == old(models) + Trained(seed, Inputs(t, features).value, TransformTargets(t).value, 9)
    {
      features := Some(FeatureList(t.columns));
      var targets :- TransformTargets(t);
      var featureInputs := Inputs(t, features);
      assert featureInputs.Success? by {
        var list := FeatureList(t.columns);
        assert forall c :: c in list ==> c in FeatureColumns(t.columns);
      }
      var inputs := featureInputs.value;
      TrainModels(inputs, targets);
      r := Success(this);
    }

    /** Lines 42-71: one model per target, trained in order and stored under the target's name. */
    method TrainModels(inputs: seq<Row>, targets: Table)
      modifies this
      ensures features == old(features)
      ensures models == old(models) + Trained(seed, inputs, targets, 9)
    {
      ghost var before := models;
      assert before + Trained(seed, inputs, targets, 0) == before;
      var i := 0;
      while i < 9
        invariant 0 <= i <= 9
        invariant features == old(features)
        invariant models == before + Trained(seed, inputs, targets, i)
      {
        var name := TargetNames()[i];
        var model := Some(FittedModel(seed, inputs, targets, i));
        UnionUpdate(before, Trained(seed, inputs, targets, i), name, model);
        assert Trained(seed, inputs, targets, i + 1) == Trained(seed, inputs, targets, i)[name := model];
        models := models[name := model];
        i := i + 1;
      }
    }

    /**
     * Lines 75-94: the inputs and the nine models are looked up in the order the source
     * touches them (the eight day models, then the day-number model); with all present,
     * column `j` holds, row by row, day `j + 1` of the thresholded and fixed prediction,
     * and the day-number column is dropped.
     */
    method Predict(t: Table, proba: (Model, Row) -> real, classify: (Model, Row) -> int)
      returns (r: Result<Predictions, Exception>)
      ensures Inputs(t, features).Failure? ==> r == Failure(Inputs(t, features).error)
      ensures Inputs(t, features).Success? && FirstUnfitted(models, 0) < 8 ==>
                r == Failure(DayModel(models, FirstUnfitted(models, 0)).error)
      ensures Inputs(t, features).Success? && FirstUnfitted(models, 0) == 8 && !AllFitted(models) ==>
                r == Failure(ModelFor(models, NumTarget, "predict").error)
      ensures r.Success? <==> Inputs(t, features).Success? && AllFitted(models)
      ensures r.Success? ==>
                var xs := Inputs(t, features).value;
                r.value.columns == DayNames() && |r.value.data| == 8
                && (forall j :: 0 <= j < 8 ==> |r.value.data[j]| == |xs|)
                && forall j, i :: 0 <= j < 8 && 0 <= i < |xs| ==> r.value.data[j][i] == PredictedRow(models, proba, classify, xs[i])[j]
    {
      var xs :- Inputs(t, features);
      var raw :- ThresholdColumns(models, proba, xs);
      assert FirstUnfitted(models, 0) == 8;
      var numModel :- ModelFor(models, NumTarget, "predict");
      var num := seq(|xs|, i requires 0 <= i < |xs| => classify(numModel, xs[i]));
      var columns := FixColumns(raw, num);
      forall j, i | 0 <= j < 8 && 0 <= i < |xs|
        ensures columns[j][i] == PredictedRow(models, proba, classify, xs[i])[j]
      {
        assert DayRow(raw, i) == RawBits(models, proba, xs[i]);
        assert num[i] == classify(ModelFor(models, NumTarget, "predict").value, xs[i]);
      }
      r := Success(Predictions(DayNames(), columns));
    }
  }
}
