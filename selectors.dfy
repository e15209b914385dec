/**
 * The feature selector of competition/estimators/selectors.py, with the mask contract of
 * its base class (competition/estimators/base.py): `fit` keeps exactly the columns that
 * hold more than one distinct value, where pandas' `nunique` ignores NaN and counts an
 * integer and the float of the same number as one value; the support mask is whatever
 * `fit` stored, and nothing before it.
 */
module Selectors {
  import opened Wrappers
  import opened Tables

  /** The array `fit` receives: its column count and its rows. */
  datatype Sample = Sample(width: nat, rows: seq<seq<Value>>)

  /** A data frame has one cell per column in every row. */
  predicate Rectangular(x: Sample) {
    forall i :: 0 <= i < |x.rows| ==> |x.rows[i]| == x.width
  }

  /** A cell as `nunique` compares it: an integer equals the float of the same number. */
  function Canon(v: Value): (c: Value)
    ensures !c.Int?
    ensures v.Num? || v.Int? ==> c == Num(AsReal(v).value)
    ensures !v.Int? ==> c == v
  {
    match v
    case Int(i) => Num(i as real)
    case _ => v
  }

  /** The distinct non-NaN values of column `j`. */
  function ColumnValues(x: Sample, j: nat): set<Value>
    requires Rectangular(x) && j < x.width
  {
    set i | 0 <= i < |x.rows| && x.rows[i][j] != Missing :: Canon(x.rows[i][j])
  }

  /** `nunique()` of column `j`. */
  function NUnique(x: Sample, j: nat): nat
    requires Rectangular(x) && j < x.width
  {
    |ColumnValues(x, j)|
  }

  /** Line 8: `nunique() > 1`, one flag per column. */
  function KeepMask(x: Sample): (mask: seq<bool>)
    requires Rectangular(x)
    ensures |mask| == x.width
    ensures forall j :: 0 <= j < x.width ==> mask[j] == (NUnique(x, j) > 1)
  {
    seq(x.width, j requires 0 <= j < x.width => NUnique(x, j) > 1)
  }

  /** Two rows hold different non-NaN values in column `j`. */
  predicate Varies(x: Sample, j: nat)
    requires Rectangular(x) && j < x.width
  {
    exists a, b :: 0 <= a < |x.rows| && 0 <= b < |x.rows|
      && x.rows[a][j] != Missing && x.rows[b][j] != Missing
      && Canon(x.rows[a][j]) != Canon(x.rows[b][j])
  }

  /** A finite set has more than one element exactly when it holds two different ones. */
  lemma TwoElements<T>(s: set<T>)
    ensures |s| > 1 <==> exists a, b :: a in s && b in s && a != b
  {
    if |s| > 1 {
      var a :| a in s;
      var rest := s - {a};
      assert |rest| == |s| - 1;
      var b :| b in rest;
      assert a in s && b in s && a != b;
    }
    if a, b :| a in s && b in s && a != b {
      assert {a, b} <= s;
      assert |{a, b}| == 2;
      SubsetSize({a, b}, s);
    }
  }

  lemma SubsetSize<T>(small: set<T>, big: set<T>)
    requires small <= big
    ensures |small| <= |big|
  {
    assert big == small + (big - small);
  }

  /**
   * A column is kept exactly when two of its rows hold different values, NaN not
   * counting as a value.
   */
  lemma KeepIffVaries(x: Sample, j: nat)
    requires Rectangular(x) && j < x.width
    ensures KeepMask(x)[j] <==> Varies(x, j)
  {
    var values := ColumnValues(x, j);
    TwoElements(values);
    if Varies(x, j) {
      var a, b :| 0 <= a < |x.rows| && 0 <= b < |x.rows|
        && x.rows[a][j] != Missing && x.rows[b][j] != Missing
        && Canon(x.rows[a][j]) != Canon(x.rows[b][j]);
      assert Canon(x.rows[a][j]) in values && Canon(x.rows[b][j]) in values;
    }
    if |values| > 1 {
      var u, v :| u in values && v in values && u != v;
      var a :| 0 <= a < |x.rows| && x.rows[a][j] != Missing && Canon(x.rows[a][j]) == u;
      var b :| 0 <= b < |x.rows| && x.rows[b][j] != Missing && Canon(x.rows[b][j]) == v;
      assert Canon(x.rows[a][j]) != Canon(x.rows[b][j]);
    }
  }

  /**
   * A column of one number and NaNs is dropped, even when the number appears once as
   * an integer and once as a float.
   */
  lemma ConstantColumnDropped(n: int)
    ensures KeepMask(Sample(1, [[Int(n)], [Missing], [Num(n as real)]])) == [false]
  {
    var x := Sample(1, [[Int(n)], [Missing], [Num(n as real)]]);
    KeepIffVaries(x, 0);
  }

  /** `_more_tags`: the selector accepts NaN input. */
  function MoreTags(): (tags: map<string, bool>)
    ensures "allow_nan" in tags && tags["allow_nan"]
  {
    map["allow_nan" := true]
  }

  class DummySelector {
    var mask: Option<seq<bool>>

    /** `BaseSelector.__init__`: no mask before `fit`. */
    constructor ()
      ensures mask == None
    {
      mask := None;
    }

    /** Lines 7-9: stores one keep flag per column and returns the selector itself. */
    method Fit(x: Sample) returns (r: DummySelector)
      requires Rectangular(x)
      modifies this
      ensures r == this && mask == Some(KeepMask(x))
      ensures |mask.value| == x.width
      ensures forall j :: 0 <= j < x.width ==> mask.value[j] == Varies(x, j)
    {
      mask := Some(KeepMask(x));
      forall j | 0 <= j < x.width
        ensures mask.value[j] == Varies(x, j)
      {
        KeepIffVaries(x, j);
      }
      r := this;
    }

    /** `_get_support_mask`: the stored mask, None before `fit`. */
    method SupportMask() returns (m: Option<seq<bool>>)
      ensures m == mask
    {
      m := mask;
    }
  }

  /** A caller's view: no support before `fit`, the keep flags after it. */
  method FitThenSupport(x: Sample)
    requires Rectangular(x)
  {
    var selector := new DummySelector();
    var before := selector.SupportMask();
    assert before == None;
    var fitted := selector.Fit(x);
    var after := fitted.SupportMask();
    assert after.Some? && |after.value| == x.width;
    assert forall j :: 0 <= j < x.width ==> after.value[j] == Varies(x, j);
  }
}
