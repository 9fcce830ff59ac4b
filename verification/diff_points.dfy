/**
  diff_points: the walk from the longest common subsequence of the grid to
  the ordered list of edit operations. Between two consecutive anchors the
  skipped rows of A are emitted as deletions, then the skipped columns of B
  as additions, then the anchor itself as unchanged.
 */
module DiffPoints {
  import opened MatchGrid
  import opened LcsExtraction

  /** One entry of diff_points: ('deleted', i, None), ('added', None, j) or ('unchanged', i, j). */
  datatype Op = Deleted(left: nat) | Added(right: nat) | Unchanged(left: nat, right: nat)

  /** The indices lo, lo + 1, ..., hi - 1. */
  function Range(lo: nat, hi: nat): (r: seq<nat>)
    requires lo <= hi
    ensures |r| == hi - lo
    ensures forall t :: 0 <= t < |r| ==> r[t] == lo + t
    decreases hi - lo
  {
    if lo == hi then [] else [lo] + Range(lo + 1, hi)
  }

  /** A deletion for every index of A in [lo, hi). */
  function Deletions(lo: nat, hi: nat): (r: seq<Op>)
    requires lo <= hi
    ensures |r| == hi - lo
    ensures forall t :: 0 <= t < |r| ==> r[t] == Deleted(lo + t)
    decreases hi - lo
  {
    if lo == hi then [] else [Deleted(lo)] + Deletions(lo + 1, hi)
  }

  /** An addition for every index of B in [lo, hi). */
  function Additions(lo: nat, hi: nat): (r: seq<Op>)
    requires lo <= hi
    ensures |r| == hi - lo
    ensures forall t :: 0 <= t < |r| ==> r[t] == Added(lo + t)
    decreases hi - lo
  {
    if lo == hi then [] else [Added(lo)] + Additions(lo + 1, hi)
  }

  /**
    The anchors can be walked from cursors (a, b) within an m-by-n grid:
    they ascend, the first lies at or past the cursors and all lie inside
    the grid.
   */
  predicate Fits(anchors: seq<Point>, a: nat, b: nat, m: nat, n: nat)
  {
    && a <= m && b <= n
    && IsAscending(anchors)
    && (|anchors| > 0 ==> a <= anchors[0].0 && b <= anchors[0].1)
    && (forall t :: 0 <= t < |anchors| ==> anchors[t].0 < m && anchors[t].1 < n)
  }

  /** The operations from cursors (a, b) to the end of an m-by-n grid, through the given anchors. */
  function Walk(anchors: seq<Point>, a: nat, b: nat, m: nat, n: nat): seq<Op>
    requires Fits(anchors, a, b, m, n)
    decreases |anchors|
  {
    if |anchors| == 0 then Deletions(a, m) + Additions(b, n)
    else
      var (i, j) := anchors[0];
      assert |anchors| > 1 ==> Precedes(anchors[0], anchors[1]);
      Gap(a, b, i, j) + Walk(anchors[1..], i + 1, j + 1, m, n)
  }

  /**
    diff_points: the operations for a grid of |grid| rows and `width`
    columns, anchored on its longest common subsequence.
   */
  function DiffPointsOf(grid: Grid, width: nat): seq<Op>
    requires IsRectangular(grid, width)
  {
    LcsFits(grid, width);
    Walk(Lcs(grid), 0, 0, |grid|, width)
  }

  lemma LcsFits(grid: Grid, width: nat)
    requires IsRectangular(grid, width)
    ensures Fits(Lcs(grid), 0, 0, |grid|, width)
  {
    LcsIsChain(grid);
    var s := Lcs(grid);
    forall t | 0 <= t < |s| ensures s[t].0 < |grid| && s[t].1 < width {
      assert IsCell(grid, s[t]);
    }
  }

  /** The left indices the operations consume, in order. */
  function Lefts(ops: seq<Op>): seq<nat>
  {
    if |ops| == 0 then []
    else
      (match ops[0]
       case Added(_) => []
       case Deleted(i) => [i]
       case Unchanged(i, _) => [i])
      + Lefts(ops[1..])
  }

  /** The right indices the operations consume, in order. */
  function Rights(ops: seq<Op>): seq<nat>
  {
    if |ops| == 0 then []
    else
      (match ops[0]
       case Deleted(_) => []
       case Added(j) => [j]
       case Unchanged(_, j) => [j])
      + Rights(ops[1..])
  }

  /** The anchors the operations keep, in order. */
  function Kept(ops: seq<Op>): seq<Point>
  {
    if |ops| == 0 then []
    else
      (match ops[0]
       case Unchanged(i, j) => [(i, j)]
       case _ => [])
      + Kept(ops[1..])
  }

  lemma {:induction false} ProjectionsConcat(x: seq<Op>, y: seq<Op>)
    ensures Lefts(x + y) == Lefts(x) + Lefts(y)
    ensures Rights(x + y) == Rights(x) + Rights(y)
    ensures Kept(x + y) == Kept(x) + Kept(y)
    decreases |x|
  {
    if |x| > 0 {
      assert (x + y)[1..] == x[1..] + y;
      ProjectionsConcat(x[1..], y);
    } else {
      assert x + y == y;
    }
  }

  lemma {:induction false} DeletionsProject(lo: nat, hi: nat)
    requires lo <= hi
    ensures Lefts(Deletions(lo, hi)) == Range(lo, hi)
    ensures Rights(Deletions(lo, hi)) == []
    ensures Kept(Deletions(lo, hi)) == []
    decreases hi - lo
  {
    if lo < hi {
      DeletionsProject(lo + 1, hi);
      assert Deletions(lo, hi)[1..] == Deletions(lo + 1, hi);
    }
  }

  lemma {:induction false} AdditionsProject(lo: nat, hi: nat)
    requires lo <= hi
    ensures Lefts(Additions(lo, hi)) == []
    ensures Rights(Additions(lo, hi)) == Range(lo, hi)
    ensures Kept(Additions(lo, hi)) == []
    decreases hi - lo
  {
    if lo < hi {
      AdditionsProject(lo + 1, hi);
      assert Additions(lo, hi)[1..] == Additions(lo + 1, hi);
    }
  }

  lemma RangeSplit(lo: nat, mid: nat, hi: nat)
    requires lo <= mid < hi
    ensures Range(lo, mid) + [mid] + Range(mid + 1, hi) == Range(lo, hi)
  {
    var s := Range(lo, mid) + [mid] + Range(mid + 1, hi);
    forall t | 0 <= t < |s| ensures s[t] == Range(lo, hi)[t] {
      if t < mid - lo {
        assert s[t] == Range(lo, mid)[t];
      } else if t > mid - lo {
        assert s[t] == Range(mid + 1, hi)[t - (mid - lo) - 1];
      }
    }
  }

  /** One gap and its closing anchor: deletions up to i, additions up to j, then (i, j). */
  function Gap(a: nat, b: nat, i: nat, j: nat): seq<Op>
    requires a <= i && b <= j
  {
    Deletions(a, i) + Additions(b, j) + [Unchanged(i, j)]
  }

  lemma GapProject(a: nat, b: nat, i: nat, j: nat)
    requires a <= i && b <= j
    ensures Lefts(Gap(a, b, i, j)) == Range(a, i) + [i]
    ensures Rights(Gap(a, b, i, j)) == Range(b, j) + [j]
    ensures Kept(Gap(a, b, i, j)) == [(i, j)]
  {
    DeletionsProject(a, i);
    AdditionsProject(b, j);
    var dels, adds := Deletions(a, i), Additions(b, j);
    ProjectionsConcat(dels, adds);
    ProjectionsConcat(dels + adds, [Unchanged(i, j)]);
  }

  /**
    The walk consumes every index of A in [a, m) exactly once and in order,
    every index of B in [b, n) likewise, and keeps exactly the anchors.
   */
  lemma WalkCovers(anchors: seq<Point>, a: nat, b: nat, m: nat, n: nat)
    requires Fits(anchors, a, b, m, n)
    ensures Lefts(Walk(anchors, a, b, m, n)) == Range(a, m)
    ensures Rights(Walk(anchors, a, b, m, n)) == Range(b, n)
    ensures Kept(Walk(anchors, a, b, m, n)) == anchors
  {
    WalkLefts(anchors, a, b, m, n);
    WalkRights(anchors, a, b, m, n);
    WalkKept(anchors, a, b, m, n);
  }

  lemma {:induction false} WalkLefts(anchors: seq<Point>, a: nat, b: nat, m: nat, n: nat)
    requires Fits(anchors, a, b, m, n)
    ensures Lefts(Walk(anchors, a, b, m, n)) == Range(a, m)
    decreases |anchors|
  {
    if |anchors| == 0 {
      DeletionsProject(a, m);
      AdditionsProject(b, n);
      ProjectionsConcat(Deletions(a, m), Additions(b, n));
    } else {
      var (i, j) := anchors[0];
      assert |anchors| > 1 ==> Precedes(anchors[0], anchors[1]);
      WalkLefts(anchors[1..], i + 1, j + 1, m, n);
      GapProject(a, b, i, j);
      ProjectionsConcat(Gap(a, b, i, j), Walk(anchors[1..], i + 1, j + 1, m, n));
      RangeSplit(a, i, m);
    }
  }

  lemma {:induction false} WalkRights(anchors: seq<Point>, a: nat, b: nat, m: nat, n: nat)
    requires Fits(anchors, a, b, m, n)
    ensures Rights(Walk(anchors, a, b, m, n)) == Range(b, n)
    decreases |anchors|
  {
    if |anchors| == 0 {
      DeletionsProject(a, m);
      AdditionsProject(b, n);
      ProjectionsConcat(Deletions(a, m), Additions(b, n));
    } else {
      var (i, j) := anchors[0];
      assert |anchors| > 1 ==> Precedes(anchors[0], anchors[1]);
      WalkRights(anchors[1..], i + 1, j + 1, m, n);
      GapProject(a, b, i, j);
      ProjectionsConcat(Gap(a, b, i, j), Walk(anchors[1..], i + 1, j + 1, m, n));
      RangeSplit(b, j, n);
    }
  }

  lemma {:induction false} WalkKept(anchors: seq<Point>, a: nat, b: nat, m: nat, n: nat)
    requires Fits(anchors, a, b, m, n)
    ensures Kept(Walk(anchors, a, b, m, n)) == anchors
    decreases |anchors|
  {
    if |anchors| == 0 {
      DeletionsProject(a, m);
      AdditionsProject(b, n);
      ProjectionsConcat(Deletions(a, m), Additions(b, n));
    } else {
      var (i, j) := anchors[0];
      assert |anchors| > 1 ==> Precedes(anchors[0], anchors[1]);
      WalkKept(anchors[1..], i + 1, j + 1, m, n);
      GapProject(a, b, i, j);
      ProjectionsConcat(Gap(a, b, i, j), Walk(anchors[1..], i + 1, j + 1, m, n));
      assert anchors == [(i, j)] + anchors[1..];
    }
  }

  /** Every operation consumes at least one index, and only anchors consume two. */
  lemma {:induction false} CountOps(ops: seq<Op>)
    ensures |Lefts(ops)| + |Rights(ops)| == |ops| + |Kept(ops)|
  {
    if |ops| > 0 {
      CountOps(ops[1..]);
    }
  }

  /** Within every gap between anchors the deletions come before the additions. */
  predicate DeletionsFirst(ops: seq<Op>)
  {
    forall t :: 0 < t < |ops| ==> !(ops[t - 1].Added? && ops[t].Deleted?)
  }

  lemma DeletionsFirstConcat(x: seq<Op>, y: seq<Op>)
    requires DeletionsFirst(x) && DeletionsFirst(y)
    requires |x| > 0 && |y| > 0 ==> !(Last(x).Added? && y[0].Deleted?)
    ensures DeletionsFirst(x + y)
  {
    forall t | 0 < t < |x + y| ensures !((x + y)[t - 1].Added? && (x + y)[t].Deleted?) {
      if t == |x| {
        assert (x + y)[t - 1] == Last(x) && (x + y)[t] == y[0];
      } else if t < |x| {
        assert (x + y)[t - 1] == x[t - 1] && (x + y)[t] == x[t];
      } else {
        assert (x + y)[t - 1] == y[t - 1 - |x|] && (x + y)[t] == y[t - |x|];
      }
    }
  }

  lemma {:induction false} WalkDeletionsFirst(anchors: seq<Point>, a: nat, b: nat, m: nat, n: nat)
    requires Fits(anchors, a, b, m, n)
    ensures DeletionsFirst(Walk(anchors, a, b, m, n))
    decreases |anchors|
  {
    if |anchors| == 0 {
      DeletionsFirstConcat(Deletions(a, m), Additions(b, n));
    } else {
      var (i, j) := anchors[0];
      assert |anchors| > 1 ==> Precedes(anchors[0], anchors[1]);
      WalkDeletionsFirst(anchors[1..], i + 1, j + 1, m, n);
      GapDeletionsFirst(a, b, i, j);
      DeletionsFirstConcat(Gap(a, b, i, j), Walk(anchors[1..], i + 1, j + 1, m, n));
    }
  }

  /** A gap puts its deletions before its additions, and ends with the anchor it leads to. */
  lemma GapDeletionsFirst(a: nat, b: nat, i: nat, j: nat)
    requires a <= i && b <= j
    ensures DeletionsFirst(Gap(a, b, i, j)) && Last(Gap(a, b, i, j)) == Unchanged(i, j)
  {
    var dels, adds := Deletions(a, i), Additions(b, j);
    DeletionsFirstConcat(dels, adds);
    DeletionsFirstConcat(dels + adds, [Unchanged(i, j)]);
  }

  /**
    diff_points covers A and B: the left indices are exactly 0..|grid|-1 in
    order, the right indices exactly 0..width-1 in order, the kept pairs are
    the longest common subsequence, and there are |A| + |B| - |lcs| entries.
   */
  lemma DiffPointsCover(grid: Grid, width: nat)
    requires IsRectangular(grid, width)
    ensures Lefts(DiffPointsOf(grid, width)) == Range(0, |grid|)
    ensures Rights(DiffPointsOf(grid, width)) == Range(0, width)
    ensures Kept(DiffPointsOf(grid, width)) == Lcs(grid)
    ensures |DiffPointsOf(grid, width)| == |grid| + width - |Lcs(grid)|
    ensures DeletionsFirst(DiffPointsOf(grid, width))
  {
    LcsFits(grid, width);
    WalkCovers(Lcs(grid), 0, 0, |grid|, width);
    WalkDeletionsFirst(Lcs(grid), 0, 0, |grid|, width);
    CountOps(DiffPointsOf(grid, width));
  }

  /** diff_points keeps as many pairs as any chain of the grid has: no diff keeps more. */
  lemma DiffPointsKeepMost(grid: Grid, width: nat, s: seq<Point>)
    requires IsRectangular(grid, width) && IsChain(grid, s)
    ensures |s| <= |Kept(DiffPointsOf(grid, width))|
  {
    DiffPointsCover(grid, width);
    LcsIsLongest(grid, s);
  }

  /** Each kept pair also consumes a left index, so no more pairs are kept than operations there are. */
  lemma {:induction false} KeptAtMost(ops: seq<Op>)
    ensures |Kept(ops)| <= |Lefts(ops)| && |Lefts(ops)| <= |ops|
    ensures |Kept(ops)| == |ops| ==> forall t :: 0 <= t < |ops| ==> ops[t].Unchanged?
  {
    if |ops| > 0 {
      KeptAtMost(ops[1..]);
      if |Kept(ops)| == |ops| {
        forall t | 0 <= t < |ops| ensures ops[t].Unchanged? {
          if t > 0 {
            assert ops[t] == ops[1..][t - 1];
          }
        }
      }
    }
  }

  /** When every operation keeps a pair, the left indices are read off position by position. */
  lemma {:induction false} AllKeptLefts(ops: seq<Op>)
    requires forall t :: 0 <= t < |ops| ==> ops[t].Unchanged?
    ensures |Lefts(ops)| == |ops| && |Rights(ops)| == |ops|
    ensures forall t :: 0 <= t < |ops| ==> Lefts(ops)[t] == ops[t].left && Rights(ops)[t] == ops[t].right
  {
    if |ops| > 0 {
      AllKeptLefts(ops[1..]);
    }
  }

  /** On a square grid whose diagonal is all matches, diff_points keeps every position paired with itself. */
  lemma DiagonalGridOps(grid: Grid, n: nat)
    requires IsRectangular(grid, n) && |grid| == n
    requires forall t :: 0 <= t < n ==> grid[t][t]
    ensures |DiffPointsOf(grid, n)| == n
    ensures forall t :: 0 <= t < n ==> DiffPointsOf(grid, n)[t] == Unchanged(t, t)
  {
    var ops := DiffPointsOf(grid, n);
    assert IsChain(grid, Diagonal(n));
    DiffPointsCover(grid, n);
    DiffPointsKeepMost(grid, n, Diagonal(n));
    KeptAtMost(ops);
    AllKeptLefts(ops);
  }
}
