/**
  The grid in which every cell matches: the candidate index keeps exactly
  one point per bucket, the diagonal point (c - 1, c - 1) in bucket c, and
  lcs returns the leading diagonal.
 */
module FullGrid {
  import opened Options
  import opened MatchGrid
  import opened Candidates
  import opened LcsExtraction

  /** Every row has n cells and every cell matches. */
  predicate IsFull(grid: Grid, n: nat)
  {
    IsRectangular(grid, n) && forall i, j :: 0 <= i < |grid| && 0 <= j < n ==> grid[i][j]
  }

  function Min(a: nat, b: nat): nat
  {
    if a <= b then a else b
  }

  /** Buckets 1..t, bucket c holding the single diagonal point (c - 1, c - 1). */
  function DiagonalIndex(t: nat): (k: Index)
    ensures forall c :: c in k <==> 1 <= c <= t
    ensures forall c :: c in k ==> k[c] == [(c - 1, c - 1)]
  {
    if t == 0 then map[] else DiagonalIndex(t - 1)[t := [(t - 1, t - 1)]]
  }

  /**
    Against the diagonal index of the first i rows of an n-column full grid,
    the cell (i, j) left of the diagonal is turned away and the cells from
    the diagonal on are sent to bucket i + 1.
   */
  lemma FullRowCheck(n: nat, i: nat, j: nat)
    requires j < n
    ensures CheckMatch((i, j), DiagonalIndex(Min(i, n))) == if j < i then None else Some(i + 1)
  {
    var k := DiagonalIndex(Min(i, n));
    var p: Point := (i, j);
    var b := Min(i, j);
    if b > 0 {
      assert (b - 1, b - 1) in k[b];
    }
    assert IsTopPredecessorBucket(k, p, b);
    TopPredecessorBucketIs(k, p, b);
  }

  /** process_col on row i of a full grid adds the diagonal point (i, i) to bucket i + 1, when the row reaches the diagonal. */
  lemma FullRow(n: nat, i: nat, row: seq<bool>)
    requires |row| == n && forall j :: 0 <= j < n ==> row[j]
    ensures ProcessRow(DiagonalIndex(Min(i, n)), row, i) == if i < n then map[i + 1 := [(i, i)]] else map[]
  {
    var k := DiagonalIndex(Min(i, n));
    var d := ProcessRow(k, row, i);
    ProcessRowClaims(k, row, i);
    forall c | c in d ensures c == i + 1 && i < n && d[c] == [(i, i)] {
      var j: nat :| RowClaim(k, row, i, j, c) && d[c] == [(i, j)];
      FullRowClaim(n, i, row, j, c);
    }
    if i < n {
      FullRowCheck(n, i, i);
    }
  }

  /** The only match of a full row that claims a bucket is the diagonal cell, and it claims bucket i + 1. */
  lemma FullRowClaim(n: nat, i: nat, row: seq<bool>, j: nat, c: nat)
    requires |row| == n && forall j :: 0 <= j < n ==> row[j]
    requires RowClaim(DiagonalIndex(Min(i, n)), row, i, j, c)
    ensures c == i + 1 && j == i && i < n
  {
    FullRowCheck(n, i, j);
    if i < j {
      FullRowCheck(n, i, i);
    }
  }

  /** find_candidates over the first r rows of a full grid with n columns is the diagonal index of size min(r, n). */
  lemma {:induction false} FullPrefix(grid: Grid, n: nat, r: nat)
    requires IsFull(grid, n) && r <= |grid|
    ensures FindCandidates(grid[..r]) == DiagonalIndex(Min(r, n))
  {
    if r > 0 {
      FullPrefix(grid, n, r - 1);
      var g := grid[..r];
      assert g[..r - 1] == grid[..r - 1];
      FullRow(n, r - 1, grid[r - 1]);
      AddDiagonal(n, r - 1);
    } else {
      assert DiagonalIndex(0) == map[];
    }
  }

  /** Adding the diagonal point of row i to the diagonal index of the rows above gives the diagonal index one larger, up to n. */
  lemma AddDiagonal(n: nat, i: nat)
    ensures AddResults(DiagonalIndex(Min(i, n)), if i < n then map[i + 1 := [(i, i)]] else map[]) == DiagonalIndex(Min(i + 1, n))
  {
    var k := DiagonalIndex(Min(i, n));
    var d: Index := if i < n then map[i + 1 := [(i, i)]] else map[];
    var r := AddResults(k, d);
    var want := DiagonalIndex(Min(i + 1, n));
    assert r.Keys == want.Keys;
    forall c | c in r ensures r[c] == want[c] {
      if c in d {
        assert Bucket(k, c) == [];
      } else {
        assert Bucket(d, c) == [];
        assert r[c] == k[c] + [];
      }
    }
  }

  /** Backtracking through a diagonal index from the diagonal point (b, b) collects the diagonal below it. */
  lemma {:induction false} BacktrackDiagonal(t: nat, b: nat)
    requires b <= t
    ensures Backtrack(DiagonalIndex(t), b, (b, b)) == Diagonal(b)
  {
    if b > 0 {
      BacktrackDiagonal(t, b - 1);
      var k := DiagonalIndex(t);
      assert Bucket(k, b) == [(b - 1, b - 1)];
      assert FirstPredecessor(Bucket(k, b), (b, b)) == Some(0);
    }
  }

  /** lcs of an m-by-n grid of all matches is the leading diagonal of length min(m, n). */
  lemma LcsOfFullGrid(grid: Grid, n: nat)
    requires IsFull(grid, n)
    ensures Lcs(grid) == Diagonal(Min(|grid|, n))
  {
    var t := Min(|grid|, n);
    FullPrefix(grid, n, |grid|);
    assert grid[..|grid|] == grid;
    var k := FindCandidates(grid);
    assert k == DiagonalIndex(t);
    if t > 0 {
      assert t in k;
      assert Top(k) == t;
      BacktrackDiagonal(t, t - 1);
    } else {
      assert k.Keys == {};
    }
  }
}
