/**
  The match grid: row i holds the outcome of comparing A[i] with every
  element of B, collapsed to a boolean. The grid is built as
  test_find_matches builds its grid: one flat list over the Cartesian
  product of A and B, then cut into |A| slices of length |B|.
 */
module MatchGrid {
  import opened Comparison

  type Grid = seq<seq<bool>>

  /** A grid position: (index in A, index in B). */
  type Point = (nat, nat)

  /** p is a true cell of the grid. */
  predicate IsCell(grid: Grid, p: Point)
  {
    p.0 < |grid| && p.1 < |grid[p.0]| && grid[p.0][p.1]
  }

  /** p lies strictly above and strictly left of q. */
  predicate Precedes(p: Point, q: Point)
  {
    p.0 < q.0 && p.1 < q.1
  }

  /** Each point of s precedes the next. */
  predicate IsAscending(s: seq<Point>)
  {
    forall k :: 0 < k < |s| ==> Precedes(s[k - 1], s[k])
  }

  /** A chain of the grid: true cells, strictly increasing in both coordinates. */
  predicate IsChain(grid: Grid, s: seq<Point>)
  {
    && (forall k :: 0 <= k < |s| ==> IsCell(grid, s[k]))
    && IsAscending(s)
  }

  /** Every row of the grid has `width` columns. */
  predicate IsRectangular(grid: Grid, width: nat)
  {
    forall i :: 0 <= i < |grid| ==> |grid[i]| == width
  }

  /** The comparisons of a with every element of B, in order. */
  function Comparisons<T>(a: T, B: seq<T>, cmp: (T, T) -> Outcome): (row: seq<bool>)
    ensures |row| == |B|
    ensures forall j :: 0 <= j < |B| ==> row[j] == IsMatch(cmp(a, B[j]))
  {
    if |B| == 0 then [] else [IsMatch(cmp(a, B[0]))] + Comparisons(a, B[1..], cmp)
  }

  /** All comparisons in the order of the Cartesian product of A and B, A outermost. */
  function Product<T>(A: seq<T>, B: seq<T>, cmp: (T, T) -> Outcome): (flat: seq<bool>)
    ensures |flat| == |A| * |B|
  {
    if |A| == 0 then []
    else
      MulSucc(|A|, |B|);
      Comparisons(A[0], B, cmp) + Product(A[1..], B, cmp)
  }

  lemma MulSucc(m: nat, n: nat)
    requires 0 < m
    ensures m * n == n + (m - 1) * n
  {
  }

  /** `flat` cut into m consecutive slices of length n. */
  function Slices(flat: seq<bool>, n: nat, m: nat): (rows: seq<seq<bool>>)
    requires |flat| == m * n
    ensures |rows| == m
    ensures forall i :: 0 <= i < m ==> |rows[i]| == n
  {
    if m == 0 then []
    else
      MulSucc(m, n);
      [flat[..n]] + Slices(flat[n..], n, m - 1)
  }

  /** Slice i of the product is the row of comparisons of A[i]. */
  lemma {:induction false} SliceIsRow<T>(A: seq<T>, B: seq<T>, cmp: (T, T) -> Outcome, i: nat)
    requires i < |A|
    ensures Slices(Product(A, B, cmp), |B|, |A|)[i] == Comparisons(A[i], B, cmp)
  {
    var flat := Product(A, B, cmp);
    MulSucc(|A|, |B|);
    assert flat[..|B|] == Comparisons(A[0], B, cmp);
    assert flat[|B|..] == Product(A[1..], B, cmp);
    if i > 0 {
      SliceIsRow(A[1..], B, cmp, i - 1);
    }
  }

  /**
    The grid of A against B: one row per element of A, each |B| long, and
    grid[i][j] is a match exactly when A[i] and B[j] compare Equal or Close.
   */
  function CreateGrid<T>(A: seq<T>, B: seq<T>, cmp: (T, T) -> Outcome): (grid: Grid)
    ensures |grid| == |A|
    ensures IsRectangular(grid, |B|)
    ensures forall i, j :: 0 <= i < |A| && 0 <= j < |B| ==> (grid[i][j] <==> IsMatch(cmp(A[i], B[j])))
  {
    var grid := Slices(Product(A, B, cmp), |B|, |A|);
    assert forall i :: 0 <= i < |A| ==> grid[i] == Comparisons(A[i], B, cmp) by {
      forall i | 0 <= i < |A| ensures grid[i] == Comparisons(A[i], B, cmp) {
        SliceIsRow(A, B, cmp, i);
      }
    }
    grid
  }

  /** The true cells of one row, (i, j) for each matching column j at or after `from`. */
  function MatchesFrom(row: seq<bool>, i: nat, from: nat): seq<Point>
    requires from <= |row|
    decreases |row| - from
  {
    if from == |row| then []
    else if row[from] then [(i, from)] + MatchesFrom(row, i, from + 1)
    else MatchesFrom(row, i, from + 1)
  }

  lemma {:induction false} MatchesFromSpec(row: seq<bool>, i: nat, from: nat)
    requires from <= |row|
    ensures forall k :: 0 <= k < |MatchesFrom(row, i, from)| ==>
      var m := MatchesFrom(row, i, from)[k]; m.0 == i && from <= m.1 < |row| && row[m.1]
    ensures forall j :: from <= j < |row| && row[j] ==> (i, j) in MatchesFrom(row, i, from)
    ensures forall a, b :: 0 <= a < b < |MatchesFrom(row, i, from)| ==>
      MatchesFrom(row, i, from)[a].1 < MatchesFrom(row, i, from)[b].1
    decreases |row| - from
  {
    if from < |row| {
      MatchesFromSpec(row, i, from + 1);
      var tail := MatchesFrom(row, i, from + 1);
      if row[from] {
        var ms := [(i, from)] + tail;
        assert ms == MatchesFrom(row, i, from);
        assert forall k :: 0 < k < |ms| ==> ms[k] == tail[k - 1];
      }
    }
  }

  /**
    The true cells of row i of a grid: exactly the (i, j) with row[j] true,
    in increasing column order.
   */
  function FindMatches(row: seq<bool>, i: nat): (ms: seq<Point>)
    ensures forall k :: 0 <= k < |ms| ==> ms[k].0 == i && ms[k].1 < |row| && row[ms[k].1]
    ensures forall j :: 0 <= j < |row| && row[j] ==> (i, j) in ms
    ensures forall a, b :: 0 <= a < b < |ms| ==> ms[a].1 < ms[b].1
  {
    MatchesFromSpec(row, i, 0);
    MatchesFrom(row, i, 0)
  }

  /** The last element of a non-empty sequence. */
  function Last<T>(s: seq<T>): T
    requires |s| > 0
  {
    s[|s| - 1]
  }

  /** Along a chain, every earlier point precedes every later one. */
  lemma {:induction false} ChainIncreasing(grid: Grid, s: seq<Point>, a: nat, b: nat)
    requires IsChain(grid, s) && a < b < |s|
    ensures Precedes(s[a], s[b])
    decreases b - a
  {
    if a + 1 < b {
      ChainIncreasing(grid, s, a + 1, b);
      assert Precedes(s[a], s[a + 1]);
    }
  }

  /** A chain whose last point lies above row R is a chain of the first R rows. */
  lemma ChainInPrefix(grid: Grid, s: seq<Point>, R: nat)
    requires IsChain(grid, s) && |s| > 0 && Last(s).0 < R <= |grid|
    ensures IsChain(grid[..R], s)
  {
    forall t | 0 <= t < |s| ensures IsCell(grid[..R], s[t]) {
      if t < |s| - 1 {
        ChainIncreasing(grid, s, t, |s| - 1);
      }
    }
  }

  /** Dropping the last point of a chain leaves a chain. */
  lemma ChainFront(grid: Grid, s: seq<Point>)
    requires IsChain(grid, s) && |s| > 1
    ensures IsChain(grid, s[..|s| - 1])
    ensures Precedes(Last(s[..|s| - 1]), Last(s))
  {
  }

  /** The positions 0..n-1 paired with themselves: the diagonal of a square grid. */
  function Diagonal(n: nat): (s: seq<Point>)
    ensures |s| == n && forall t :: 0 <= t < n ==> s[t] == (t, t)
  {
    if n == 0 then [] else Diagonal(n - 1) + [(n - 1, n - 1)]
  }
}
