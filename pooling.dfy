/**
 * `make_pooling` (competition/utils.py): a NaN-aware k-by-k neighbourhood
 * reduction over the flat, row-major weather grid. A cell value is
 * `Option<T>` (`None` is NaN) and the reducer is any function of the
 * non-NaN values of a window, as `nanmax`, `nanmin` or `nanmean` are.
 */
module Pooling {
  import opened Wrappers
  import Grid

  lemma IndexInGrid(i: int, j: int, h: nat, w: nat)
    requires 0 <= i < h && 0 <= j < w
    ensures 0 <= i * w + j < h * w
  {
    Grid.MulMonotone(i, h - 1, w);
  }

  /** The value at grid position (i, j); positions outside the grid are the NaN padding. */
  function At<T>(g: seq<Option<T>>, h: nat, w: nat, i: int, j: int): Option<T>
    requires |g| == h * w
  {
    if 0 <= i < h && 0 <= j < w then IndexInGrid(i, j, h, w); g[i * w + j] else None
  }

  /** Entry (a, b) of the window around (r, c): grid row r - k/2 + a, grid column c - k/2 + b. */
  function Neighbour<T>(g: seq<Option<T>>, h: nat, w: nat, k: nat, r: int, c: int, a: int, b: int): Option<T>
    requires |g| == h * w
  {
    At(g, h, w, r - k / 2 + a, c - k / 2 + b)
  }

  /** The k-by-k block of the NaN-padded grid around (r, c), row by row (one `polling[r, c]`). */
  function Window<T>(g: seq<Option<T>>, h: nat, w: nat, k: nat, r: int, c: int): (win: seq<seq<Option<T>>>)
    requires |g| == h * w
    ensures |win| == k && forall a :: 0 <= a < k ==> |win[a]| == k
    ensures forall a, b :: 0 <= a < k && 0 <= b < k ==> win[a][b] == Neighbour(g, h, w, k, r, c, a, b)
  {
    seq(k, a => seq(k, b => Neighbour(g, h, w, k, r, c, a, b)))
  }

  /** True when some entry of the block is not NaN (the source's `mask`). */
  predicate Observed<T>(win: seq<seq<Option<T>>>) {
    exists a, b :: 0 <= a < |win| && 0 <= b < |win[a]| && win[a][b].Some?
  }

  /** The non-NaN entries of one window row, in order. */
  function RowValues<T>(s: seq<Option<T>>): seq<T> {
    if s == [] then []
    else (if s[0].Some? then [s[0].value] else []) + RowValues(s[1..])
  }

  /** The non-NaN entries of a block, row by row. */
  function Values<T>(win: seq<seq<Option<T>>>): seq<T> {
    if win == [] then [] else RowValues(win[0]) + Values(win[1..])
  }

  /** Output cell (r, c): NaN for an all-NaN window, otherwise the reducer over the window's values. */
  function PoolCell<T>(g: seq<Option<T>>, h: nat, w: nat, k: nat, func: seq<T> -> T, r: int, c: int): Option<T>
    requires |g| == h * w
  {
    var win: seq<seq<Option<T>>> := Window(g, h, w, k, r, c);
    if Observed(win) then Some(func(Values(win))) else None
  }

  /** The whole pooled grid, flattened row-major. */
  function Pooled<T>(g: seq<Option<T>>, h: nat, w: nat, k: nat, func: seq<T> -> T): (r: seq<Option<T>>)
    requires |g| == h * w
    ensures |r| == h * w
  {
    seq(h * w, i requires 0 <= i < h * w => PoolCell(g, h, w, k, func, i / w, i % w))
  }

  /** `input[:min_len] = array[:min_len]` on an all-NaN buffer of length `n`. */
  function FitToLength<T>(a: seq<Option<T>>, n: nat): (g: seq<Option<T>>)
    ensures |g| == n
    ensures forall i :: 0 <= i < n && i < |a| ==> g[i] == a[i]
    ensures forall i :: |a| <= i < n ==> g[i] == None
  {
    seq(n, i requires 0 <= i < n => if i < |a| then a[i] else None)
  }

  /**
   * `make_pooling`: the result always covers the whole grid; a shorter input is
   * NaN-padded at the end and a longer one truncated before pooling.
   */
  method MakePooling<T>(values: array<Option<T>>, k: nat, func: seq<T> -> T) returns (result: array<Option<T>>)
    ensures fresh(result)
    ensures result.Length == Grid.NRows * Grid.NColumns
    ensures result[..] == Pooled(FitToLength(values[..], Grid.NRows * Grid.NColumns), Grid.NRows, Grid.NColumns, k, func)
  {
    var h, w := Grid.NRows, Grid.NColumns;
    var n := h * w;
    var input := new Option<T>[n](_ => None);
    var minLen := if n < values.Length then n else values.Length;
    forall i | 0 <= i < minLen {
      input[i] := values[i];
    }
    var grid := input[..];
    assert grid == FitToLength(values[..], n);
    result := new Option<T>[n](_ => None);
    ghost var pooled := Pooled(grid, h, w, k, func);
    var i := 0;
    while i < n
      invariant 0 <= i <= n
      invariant result[..i] == pooled[..i]
      invariant forall j :: i <= j < n ==> result[j] == None
    {
      var win := Window(grid, h, w, k, i / w, i % w);
      ghost var done := result[..i];
      if Observed(win) {
        result[i] := Some(func(Values(win)));
      }
      assert result[i] == pooled[i];
      assert result[..i + 1] == done + [pooled[i]];
      assert pooled[..i + 1] == pooled[..i] + [pooled[i]];
      i := i + 1;
    }
    assert result[..] == result[..n];
  }

  /** For odd k the window is centred: it holds the cell itself and reaches k/2 cells each way. */
  lemma WindowCentred<T>(g: seq<Option<T>>, h: nat, w: nat, k: nat, r: int, c: int)
    requires |g| == h * w && k % 2 == 1
    ensures Window(g, h, w, k, r, c)[k / 2][k / 2] == At(g, h, w, r, c)
    ensures Window(g, h, w, k, r, c)[0][0] == At(g, h, w, r - k / 2, c - k / 2)
    ensures Window(g, h, w, k, r, c)[k - 1][k - 1] == At(g, h, w, r + k / 2, c + k / 2)
  {
  }

  /** The values of one row are exactly its non-NaN entries. */
  lemma {:induction false} RowValuesExact<T>(s: seq<Option<T>>)
    ensures forall b :: 0 <= b < |s| && s[b].Some? ==> s[b].value in RowValues(s)
    ensures forall x :: x in RowValues(s) ==> Some(x) in s
  {
    if s != [] {
      RowValuesExact(s[1..]);
      assert forall b :: 1 <= b < |s| ==> s[b] == s[1..][b - 1];
    }
  }

  /** The values of a block are exactly its non-NaN entries, and there are some iff the block is observed. */
  lemma {:induction false} ValuesExact<T>(win: seq<seq<Option<T>>>)
    ensures forall a, b :: 0 <= a < |win| && 0 <= b < |win[a]| && win[a][b].Some? ==> win[a][b].value in Values(win)
    ensures forall x :: x in Values(win) ==> exists a :: 0 <= a < |win| && Some(x) in win[a]
    ensures |Values(win)| > 0 <==> Observed(win)
  {
    if win != [] {
      ValuesExact(win[1..]);
      RowValuesExact(win[0]);
      assert forall a :: 1 <= a < |win| ==> win[a] == win[1..][a - 1];
      if |Values(win)| > 0 {
        var x := Values(win)[0];
        assert x in Values(win);
        var a :| 0 <= a < |win| && Some(x) in win[a];
        var b :| 0 <= b < |win[a]| && win[a][b] == Some(x);
      }
      forall x | x in Values(win) ensures exists a :: 0 <= a < |win| && Some(x) in win[a] {
        if x in RowValues(win[0]) {
          assert Some(x) in win[0];
        } else {
          assert x in Values(win[1..]);
          var a :| 0 <= a < |win[1..]| && Some(x) in win[1..][a];
          assert Some(x) in win[a + 1];
        }
      }
    }
  }

  /** An output cell is NaN exactly when every entry of its window is NaN. */
  lemma PoolCellMissingIff<T>(g: seq<Option<T>>, h: nat, w: nat, k: nat, func: seq<T> -> T, r: int, c: int)
    requires |g| == h * w
    ensures PoolCell(g, h, w, k, func, r, c) == None <==>
              forall a, b :: 0 <= a < k && 0 <= b < k ==> Neighbour(g, h, w, k, r, c, a, b) == None
  {
    var win: seq<seq<Option<T>>> := Window(g, h, w, k, r, c);
    if Observed(win) {
      var a: int, b: int :| 0 <= a < |win| && 0 <= b < |win[a]| && win[a][b].Some?;
      assert Neighbour(g, h, w, k, r, c, a, b).Some?;
    }
  }

  lemma MissingNeighbour<T>(g: seq<Option<T>>, h: nat, w: nat, k: nat, r: int, c: int, a: int, b: int)
    requires |g| == h * w
    requires forall i :: 0 <= i < |g| ==> g[i] == None
    ensures Neighbour(g, h, w, k, r, c, a, b) == None
  {
    var i, j := r - k / 2 + a, c - k / 2 + b;
    if 0 <= i < h && 0 <= j < w {
      IndexInGrid(i, j, h, w);
      assert g[i * w + j] == None;
    }
  }

  /** An all-NaN grid pools to an all-NaN grid, for every kernel size and reducer. */
  lemma AllMissingStaysMissing<T>(g: seq<Option<T>>, h: nat, w: nat, k: nat, func: seq<T> -> T)
    requires |g| == h * w
    requires forall i :: 0 <= i < |g| ==> g[i] == None
    ensures forall i :: 0 <= i < h * w ==> Pooled(g, h, w, k, func)[i] == None
  {
    var p := Pooled(g, h, w, k, func);
    forall i | 0 <= i < h * w
      ensures p[i] == None
    {
      var r, c := i / w, i % w;
      assert p[i] == PoolCell(g, h, w, k, func, r, c);
      forall a, b | 0 <= a < k && 0 <= b < k
        ensures Neighbour(g, h, w, k, r, c, a, b) == None
      {
        MissingNeighbour(g, h, w, k, r, c, a, b);
      }
      PoolCellMissingIff(g, h, w, k, func, r, c);
    }
  }

  /** With k = 1 and a reducer that returns a lone value unchanged, pooling is the identity. */
  lemma KernelOneIdentity<T>(g: seq<Option<T>>, h: nat, w: nat, func: seq<T> -> T)
    requires |g| == h * w
    requires forall x :: func([x]) == x
    ensures Pooled(g, h, w, 1, func) == g
  {
    forall i | 0 <= i < h * w
      ensures Pooled(g, h, w, 1, func)[i] == g[i]
    {
      var r, c := i / w, i % w;
      assert i == r * w + c;
      assert 0 <= r < h by {
        if r >= h {
          Grid.MulMonotone(h, r, w);
        }
      }
      var win := Window(g, h, w, 1, r, c);
      assert 1 / 2 == 0;
      assert win[0][0] == Neighbour(g, h, w, 1, r, c, 0, 0) == At(g, h, w, r, c);
      assert At(g, h, w, r, c) == g[i];
      assert |win| == 1 && |win[0]| == 1;
      assert win[0] == [g[i]];
      assert win == [[g[i]]];
      assert win[1..] == [];
      assert Values(win) == RowValues([g[i]]) + Values(win[1..]);
      assert [g[i]][1..] == [];
      assert RowValues([g[i]]) == (if g[i].Some? then [g[i].value] else []) + RowValues([g[i]][1..]);
      assert Values(win) == if g[i].Some? then [g[i].value] else [];
    }
  }

  /** `nanmax` over the values of a window (never applied to an empty list). */
  function MaxOf(s: seq<int>): (m: int)
    ensures |s| > 0 ==> m in s
    ensures forall i :: 0 <= i < |s| ==> s[i] <= m
  {
    if |s| == 0 then 0
    else if |s| == 1 then s[0]
    else
      var rest := MaxOf(s[1..]);
      assert forall i :: 1 <= i < |s| ==> s[i] == s[1..][i - 1];
      if s[0] >= rest then s[0] else rest
  }

  /** `nanmin` over the values of a window (never applied to an empty list). */
  function MinOf(s: seq<int>): (m: int)
    ensures |s| > 0 ==> m in s
    ensures forall i :: 0 <= i < |s| ==> m <= s[i]
  {
    if |s| == 0 then 0
    else if |s| == 1 then s[0]
    else
      var rest := MinOf(s[1..]);
      assert forall i :: 1 <= i < |s| ==> s[i] == s[1..][i - 1];
      if s[0] <= rest then s[0] else rest
  }

  /** With k = 1, max- and min-pooling return the grid unchanged. */
  lemma KernelOneMaxMinIdentity(g: seq<Option<int>>, h: nat, w: nat)
    requires |g| == h * w
    ensures Pooled(g, h, w, 1, MaxOf) == g && Pooled(g, h, w, 1, MinOf) == g
  {
    KernelOneIdentity(g, h, w, MaxOf);
    KernelOneIdentity(g, h, w, MinOf);
  }

  /** Max-pooling dominates: an output cell is at least every non-NaN value in its window. */
  lemma MaxPoolDominates(g: seq<Option<int>>, h: nat, w: nat, k: nat, r: int, c: int, a: int, b: int, v: int)
    requires |g| == h * w && 0 <= a < k && 0 <= b < k
    requires Neighbour(g, h, w, k, r, c, a, b) == Some(v)
    ensures PoolCell(g, h, w, k, MaxOf, r, c).Some?
    ensures v <= PoolCell(g, h, w, k, MaxOf, r, c).value
  {
    var win: seq<seq<Option<int>>> := Window(g, h, w, k, r, c);
    ValuesExact(win);
    assert win[a][b] == Some(v);
    var vs := Values(win);
    assert v in vs;
  }

  /** For odd k, a max-pooled cell is at least the cell's own value. */
  lemma MaxPoolAtLeastSelf(g: seq<Option<int>>, h: nat, w: nat, k: nat, r: int, c: int, v: int)
    requires |g| == h * w && k % 2 == 1
    requires At(g, h, w, r, c) == Some(v)
    ensures PoolCell(g, h, w, k, MaxOf, r, c).Some? && v <= PoolCell(g, h, w, k, MaxOf, r, c).value
  {
    MaxPoolDominates(g, h, w, k, r, c, k / 2, k / 2, v);
  }
}
