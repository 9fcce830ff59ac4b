/**
  Extraction of one longest common subsequence from the candidate index,
  and the proof that it is longest: the candidate index records, for every
  chain length c, the leftmost column at which a chain of length c can end.
 */
module LcsExtraction {
  import opened Options
  import opened MatchGrid
  import opened Candidates

  /** The position of the first entry of the bucket that precedes p, if any. */
  function FirstPredecessor(bucket: seq<Point>, p: Point): (t: Option<nat>)
    ensures t.Some? ==> t.value < |bucket|
  {
    if |bucket| == 0 then None
    else if Precedes(bucket[0], p) then Some(0)
    else
      match FirstPredecessor(bucket[1..], p)
      case Some(t) => Some(t + 1)
      case None => None
  }

  /** FirstPredecessor finds the first entry that precedes p, and finds none exactly when no entry does. */
  lemma {:induction false} FirstPredecessorSpec(bucket: seq<Point>, p: Point)
    ensures var t := FirstPredecessor(bucket, p);
      && (t.Some? ==> t.value < |bucket| && Precedes(bucket[t.value], p))
      && (t.Some? ==> forall u :: 0 <= u < t.value ==> !Precedes(bucket[u], p))
      && (t.None? <==> !HasPredecessor(bucket, p))
  {
    if |bucket| > 0 && !Precedes(bucket[0], p) {
      FirstPredecessorSpec(bucket[1..], p);
      assert forall e :: e in bucket && e != bucket[0] ==> e in bucket[1..];
    }
  }

  /**
    Walking down from bucket b: in each bucket take the first entry that
    precedes the point chosen above it.
   */
  function Backtrack(k: Index, b: nat, p: Point): seq<Point>
  {
    if b == 0 then []
    else
      var bucket := Bucket(k, b);
      match FirstPredecessor(bucket, p)
      case Some(t) => Backtrack(k, b - 1, bucket[t]) + [bucket[t]]
      case None => Backtrack(k, b - 1, p)
  }

  /**
    The first entry of the highest bucket, preceded by the chain backtracked
    below it; empty for an empty index. Of the entries of the highest bucket,
    lcs ends at the one in the earliest row.
   */
  function LcsOfIndex(k: Index): (r: seq<Point>)
    requires IsFrontier(k)
    ensures Top(k) == 0 <==> r == []
    ensures Top(k) > 0 ==> r[|r| - 1] == k[Top(k)][0]
  {
    var top := Top(k);
    if top == 0 then []
    else Backtrack(k, top - 1, k[top][0]) + [k[top][0]]
  }

  /** lcs: read one longest common subsequence off the candidate index of the grid. */
  function Lcs(grid: Grid): seq<Point>
  {
    FindCandidatesIsFrontier(grid);
    LcsOfIndex(FindCandidates(grid))
  }

  /** lcs ends at the entry of the highest bucket in the earliest row. */
  lemma LcsEndsEarliest(k: Index)
    requires IsFrontier(k) && Top(k) > 0
    ensures forall e :: e in k[Top(k)] ==> LcsOfIndex(k)[|LcsOfIndex(k)| - 1].0 <= e.0
  {
    var bucket := k[Top(k)];
    assert IsStaircase(bucket);
    forall e | e in bucket ensures bucket[0].0 <= e.0 {
      var a :| 0 <= a < |bucket| && bucket[a] == e;
      if a > 0 {
        assert bucket[0].0 < bucket[a].0;
      }
    }
  }

  /** lcs of a grid is read off its candidate index, which is a frontier. */
  lemma LcsOfCandidates(grid: Grid, k: Index)
    requires FindCandidates(grid) == k
    ensures IsFrontier(k) && Lcs(grid) == LcsOfIndex(k)
  {
    FindCandidatesIsFrontier(grid);
  }

  /** On a frontier, lcs reads off the first entry p of the top bucket, after the chain backtracked from p. */
  lemma LcsOfIndexIs(k: Index, top: nat, p: Point, below: seq<Point>)
    requires IsFrontier(k) && Top(k) == top && top >= 1
    requires k[top][0] == p && Backtrack(k, top - 1, p) == below
    ensures LcsOfIndex(k) == below + [p]
  {
  }

  /**
    On a frontier, backtracking from a point with a predecessor in bucket b
    yields b points, one from each bucket 1..b, each preceding the next and
    the last preceding p.
   */
  lemma {:induction false} BacktrackChain(k: Index, b: nat, p: Point)
    requires IsFrontier(k)
    requires b == 0 || (b in k && HasPredecessor(k[b], p))
    ensures |Backtrack(k, b, p)| == b
    ensures forall t :: 0 <= t < b ==> t + 1 in k && Backtrack(k, b, p)[t] in k[t + 1]
    ensures forall t :: 0 < t < b ==> Precedes(Backtrack(k, b, p)[t - 1], Backtrack(k, b, p)[t])
    ensures b > 0 ==> Precedes(Backtrack(k, b, p)[b - 1], p)
  {
    if b > 0 {
      var q := BacktrackStep(k, b, p);
      BacktrackChain(k, b - 1, q);
      ExtendBacktrack(k, b, Backtrack(k, b - 1, q), q, p, Backtrack(k, b, p));
    }
  }

  /** Backtracking from bucket b takes its first predecessor q of p, and q has a predecessor in bucket b - 1. */
  lemma BacktrackStep(k: Index, b: nat, p: Point) returns (q: Point)
    requires IsFrontier(k) && b > 0 && b in k && HasPredecessor(k[b], p)
    ensures q in k[b] && Precedes(q, p)
    ensures b > 1 ==> b - 1 in k && HasPredecessor(k[b - 1], q)
    ensures Backtrack(k, b, p) == Backtrack(k, b - 1, q) + [q]
  {
    var bucket := k[b];
    FirstPredecessorSpec(bucket, p);
    var t := FirstPredecessor(bucket, p).value;
    q := bucket[t];
    if b > 1 {
      assert Supports(k[b - 1], k[b]);
      assert HasPredecessor(k[b - 1], q);
    }
  }

  /** One backtracking step: a chain through buckets 1..b - 1 ending before q, then q from bucket b, ends before p. */
  lemma ExtendBacktrack(k: Index, b: nat, below: seq<Point>, q: Point, p: Point, s: seq<Point>)
    requires b >= 1 && b in k && q in k[b] && Precedes(q, p) && |below| == b - 1 && s == below + [q]
    requires forall t :: 0 <= t < b - 1 ==> t + 1 in k && below[t] in k[t + 1]
    requires forall t :: 0 < t < b - 1 ==> Precedes(below[t - 1], below[t])
    requires b > 1 ==> Precedes(below[b - 2], q)
    ensures |s| == b
    ensures forall t :: 0 <= t < b ==> t + 1 in k && s[t] in k[t + 1]
    ensures forall t :: 0 < t < b ==> Precedes(s[t - 1], s[t])
    ensures Precedes(s[b - 1], p)
  {
    forall t | 0 <= t < b ensures t + 1 in k && s[t] in k[t + 1] {
      if t < b - 1 {
        assert s[t] == below[t];
      }
    }
    forall t | 0 < t < b ensures Precedes(s[t - 1], s[t]) {
      if t < b - 1 {
        assert s[t - 1] == below[t - 1] && s[t] == below[t];
      } else {
        assert s[t - 1] == below[b - 2] && s[t] == q;
      }
    }
  }

  /** The result of lcs is a chain of the grid whose length is the highest key of the candidate index. */
  lemma LcsIsChain(grid: Grid)
    ensures IsChain(grid, Lcs(grid))
    ensures |Lcs(grid)| == Top(FindCandidates(grid))
  {
    var k := FindCandidates(grid);
    FindCandidatesIsFrontier(grid);
    TopChain(grid, k);
  }

  /** On a frontier of true cells, lcs reads off a chain as long as the top key. */
  lemma TopChain(grid: Grid, k: Index)
    requires IsFrontier(k) && EntriesAreCells(grid, k)
    ensures IsChain(grid, LcsOfIndex(k))
    ensures |LcsOfIndex(k)| == Top(k)
  {
    var top := Top(k);
    if top > 0 {
      var q := k[top][0];
      if top > 1 {
        assert Supports(k[top - 1], k[top]);
        assert HasPredecessor(k[top - 1], q);
      }
      var below := Backtrack(k, top - 1, q);
      BacktrackChain(k, top - 1, q);
      LcsOfIndexIs(k, top, q, below);
      var s := below + [q];
      AppendTop(k, top, below, q, s);
      ChainOfBuckets(grid, k, s);
    }
  }

  /** A backtracked chain through buckets 1..top - 1 followed by an entry of bucket top that it precedes. */
  lemma AppendTop(k: Index, top: nat, below: seq<Point>, q: Point, s: seq<Point>)
    requires top >= 1 && top in k && q in k[top] && |below| == top - 1 && s == below + [q]
    requires forall t :: 0 <= t < top - 1 ==> t + 1 in k && below[t] in k[t + 1]
    requires forall t :: 0 < t < top - 1 ==> Precedes(below[t - 1], below[t])
    requires top > 1 ==> Precedes(below[top - 2], q)
    ensures IsAscending(s)
    ensures forall c :: 1 <= c < |s| ==> c in k && s[c - 1] in k[c]
    ensures |s| in k && Last(s) in k[|s|]
  {
    forall t | 0 < t < |s| ensures Precedes(s[t - 1], s[t]) {
      if t < |s| - 1 {
        assert s[t - 1] == below[t - 1] && s[t] == below[t];
      } else {
        assert s[t - 1] == below[top - 2] && s[t] == q;
      }
    }
    forall c | 1 <= c < |s| ensures c in k && s[c - 1] in k[c] {
      assert s[c - 1] == below[c - 1];
    }
    assert Last(s) == q;
  }

  /** A sequence taking its t-th point from bucket t + 1 of an index of true cells consists of true cells. */
  lemma ChainOfBuckets(grid: Grid, k: Index, s: seq<Point>)
    requires EntriesAreCells(grid, k)
    requires forall c :: 1 <= c < |s| ==> c in k && s[c - 1] in k[c]
    requires |s| > 0 ==> |s| in k && Last(s) in k[|s|]
    ensures forall t :: 0 <= t < |s| ==> IsCell(grid, s[t])
  {
    forall t | 0 <= t < |s| ensures IsCell(grid, s[t]) {
      if t < |s| - 1 {
        assert t + 1 in k && s[t] in k[t + 1];
      } else {
        assert s[t] == Last(s) && t + 1 == |s|;
      }
    }
  }

  /** Along a staircase bucket the last entry has the smallest column. */
  lemma StaircaseLastIsLeftmost(bucket: seq<Point>, e: Point)
    requires IsStaircase(bucket) && e in bucket
    ensures Last(bucket).1 <= e.1
  {
  }

  /** Following predecessors down from bucket b reaches every lower bucket at or left of the start. */
  lemma {:induction false} Descend(k: Index, b: nat, e: Point, c: nat)
    requires IsFrontier(k)
    requires b in k && e in k[b] && 1 <= c <= b
    ensures c in k && exists e' :: e' in k[c] && e'.1 <= e.1
    decreases b - c
  {
    if c < b {
      assert Supports(k[b - 1], k[b]);
      var w :| w in k[b - 1] && Precedes(w, e);
      Descend(k, b - 1, w, c);
    }
  }

  /**
    The candidate index bounds every chain: for a chain of length c ending
    at p, bucket c exists and its last (leftmost) entry lies at or left of
    p's column. This is the patience-sorting invariant.
   */
  lemma {:induction false} FrontierBoundsChains(grid: Grid, s: seq<Point>)
    requires IsChain(grid, s) && |s| > 0
    ensures |s| in FindCandidates(grid)
    ensures |FindCandidates(grid)[|s|]| > 0 && Last(FindCandidates(grid)[|s|]).1 <= Last(s).1
    decreases |grid|, 1
  {
    assert IsCell(grid, s[0]);
    if Last(s).0 < |grid| - 1 {
      ChainAbove(grid, s);
    } else {
      ChainOnLastRow(grid, s);
    }
  }

  /** The induction step for a chain ending above the last row. */
  lemma {:induction false} ChainAbove(grid: Grid, s: seq<Point>)
    requires IsChain(grid, s) && |s| > 0 && Last(s).0 < |grid| - 1
    ensures |s| in FindCandidates(grid)
    ensures |FindCandidates(grid)[|s|]| > 0 && Last(FindCandidates(grid)[|s|]).1 <= Last(s).1
    decreases |grid|, 0
  {
    var R := |grid| - 1;
    ChainInPrefix(grid, s, R);
    FrontierBoundsChains(grid[..R], s);
    BoundKept(grid, s);
  }

  /** The induction step for a chain ending on the last row. */
  lemma {:induction false} ChainOnLastRow(grid: Grid, s: seq<Point>)
    requires IsChain(grid, s) && |s| > 0 && Last(s).0 == |grid| - 1
    ensures |s| in FindCandidates(grid)
    ensures |FindCandidates(grid)[|s|]| > 0 && Last(FindCandidates(grid)[|s|]).1 <= Last(s).1
    decreases |grid|, 0
  {
    var R := |grid| - 1;
    var L := |s|;
    if L > 1 {
      var front := s[..L - 1];
      ChainFront(grid, s);
      ChainInPrefix(grid, front, R);
      FrontierBoundsChains(grid[..R], front);
    }
    BoundJoined(grid, s);
  }

  /** A chain ending above the new row keeps its bound: the row never moves a bucket's leftmost column right. */
  lemma BoundKept(grid: Grid, s: seq<Point>)
    requires |grid| > 0 && IsChain(grid, s) && |s| > 0
    requires |s| in FindCandidates(grid[..|grid| - 1])
    requires |FindCandidates(grid[..|grid| - 1])[|s|]| > 0 && Last(FindCandidates(grid[..|grid| - 1])[|s|]).1 <= Last(s).1
    ensures |s| in FindCandidates(grid)
    ensures |FindCandidates(grid)[|s|]| > 0 && Last(FindCandidates(grid)[|s|]).1 <= Last(s).1
  {
    var R := |grid| - 1;
    var pre := grid[..R];
    var k := FindCandidates(pre);
    var d := ProcessRow(k, grid[R], R);
    assert FindCandidates(grid) == AddResults(k, d);
    FindCandidatesIsFrontier(pre);
    NewEntries(grid, k, d);
    NoWorse(k, d, |s|);
  }

  /**
    A chain ending in the new row is bounded by the row's entries: the chain
    without its last point bounds bucket |s| - 1 of the rows above.
   */
  lemma BoundJoined(grid: Grid, s: seq<Point>)
    requires |grid| > 0 && IsChain(grid, s) && |s| > 0 && Last(s).0 == |grid| - 1
    requires |s| > 1 ==> |s| - 1 in FindCandidates(grid[..|grid| - 1])
    requires |s| > 1 ==> |FindCandidates(grid[..|grid| - 1])[|s| - 1]| > 0
    requires |s| > 1 ==> Last(FindCandidates(grid[..|grid| - 1])[|s| - 1]).1 <= Last(s[..|s| - 1]).1
    ensures |s| in FindCandidates(grid)
    ensures |FindCandidates(grid)[|s|]| > 0 && Last(FindCandidates(grid)[|s|]).1 <= Last(s).1
  {
    var R := |grid| - 1;
    var pre := grid[..R];
    var k := FindCandidates(pre);
    var d := ProcessRow(k, grid[R], R);
    assert FindCandidates(grid) == AddResults(k, d);
    FindCandidatesIsFrontier(pre);
    NewEntries(grid, k, d);
    JoinedPredecessor(grid, s);
    assert IsCell(grid, Last(s));
    JoinBound(grid, k, d, Last(s), |s|);
  }

  /** The last point of a chain ending in the new row has a predecessor in bucket |s| - 1 of the rows above, or |s| is 1. */
  lemma JoinedPredecessor(grid: Grid, s: seq<Point>)
    requires |grid| > 0 && IsChain(grid, s) && |s| > 0 && Last(s).0 == |grid| - 1
    requires |s| > 1 ==> |s| - 1 in FindCandidates(grid[..|grid| - 1])
    requires |s| > 1 ==> |FindCandidates(grid[..|grid| - 1])[|s| - 1]| > 0
    requires |s| > 1 ==> Last(FindCandidates(grid[..|grid| - 1])[|s| - 1]).1 <= Last(s[..|s| - 1]).1
    ensures |s| - 1 <= TopPredecessorBucket(FindCandidates(grid[..|grid| - 1]), Last(s))
  {
    if |s| > 1 {
      var pre := grid[..|grid| - 1];
      var k := FindCandidates(pre);
      FindCandidatesIsFrontier(pre);
      ChainFront(grid, s);
      OldEntries(grid, k);
      assert Last(k[|s| - 1]) in k[|s| - 1];
      PredecessorBucketAtLeast(k, |s| - 1, Last(s));
    }
  }

  /** A bucket whose leftmost entry precedes p bounds the highest bucket holding a predecessor of p from below. */
  lemma PredecessorBucketAtLeast(k: Index, c: nat, p: Point)
    requires c in k && |k[c]| > 0
    requires Last(k[c]).0 < p.0 && Last(k[c]).1 < p.1
    ensures c <= TopPredecessorBucket(k, p)
  {
    assert Last(k[c]) in k[c];
    assert HasPredecessor(k[c], p);
  }

  /** Appending the new row never moves a bucket's leftmost column to the right. */
  lemma NoWorse(k: Index, d: Index, c: nat)
    requires IsFrontier(k)
    requires forall c :: c in d ==> |d[c]| == 1
    requires forall c :: c in d && c in k ==> AllRightOf(k[c], d[c][0].1)
    requires c in k
    ensures c in AddResults(k, d)
    ensures |AddResults(k, d)[c]| > 0 && Last(AddResults(k, d)[c]).1 <= Last(k[c]).1
  {
    assert IsStaircase(k[c]);
    if c in d {
      assert Last(k[c]) in k[c];
      assert AddResults(k, d)[c] == k[c] + d[c];
    } else {
      assert AddResults(k, d)[c] == k[c] + [];
    }
  }

  /**
    A true cell p of the new row whose longest chain has length L (bucket
    L - 1 or higher holds a predecessor) leaves bucket L ending at or left
    of p's column.
   */
  lemma JoinBound(grid: Grid, k: Index, d: Index, p: Point, L: nat)
    requires |grid| > 0
    requires IsFrontier(k)
    requires d == ProcessRow(k, grid[|grid| - 1], |grid| - 1)
    requires forall c :: c in d ==> |d[c]| == 1
    requires forall c :: c in d && c in k ==> AllRightOf(k[c], d[c][0].1)
    requires IsCell(grid, p) && p.0 == |grid| - 1
    requires 1 <= L && L - 1 <= TopPredecessorBucket(k, p)
    ensures L in AddResults(k, d)
    ensures |AddResults(k, d)[L]| > 0 && Last(AddResults(k, d)[L]).1 <= p.1
  {
    var b := TopPredecessorBucket(k, p);
    if b + 1 == L {
      if CheckMatch(p, k).Some? {
        JoinBoundJoined(grid, k, d, p, L);
      } else {
        JoinBoundBlocked(k, d, p, L);
      }
    } else {
      JoinBoundHigher(k, d, p, L);
    }
  }

  /** p joins bucket L itself: the row's entry for L is p or a match left of it. */
  lemma JoinBoundJoined(grid: Grid, k: Index, d: Index, p: Point, L: nat)
    requires |grid| > 0
    requires d == ProcessRow(k, grid[|grid| - 1], |grid| - 1)
    requires IsCell(grid, p) && p.0 == |grid| - 1
    requires 1 <= L && L - 1 == TopPredecessorBucket(k, p) && CheckMatch(p, k).Some?
    ensures L in AddResults(k, d)
    ensures |AddResults(k, d)[L]| > 0 && Last(AddResults(k, d)[L]).1 <= p.1
  {
    var R := |grid| - 1;
    CheckMatchJoins(p, k);
    var c := CheckMatch(p, k).value;
    assert CanJoin(k, p, c);
    assert c == L;
    NewRowBound(k, grid[R], R, p, L);
    var j0: nat :| j0 <= p.1 && L in d && d[L] == [(R, j0)];
    assert AddResults(k, d)[L] == Bucket(k, L) + [(R, j0)];
  }

  /** p is refused by bucket L: that bucket already holds an entry at or left of p. */
  lemma JoinBoundBlocked(k: Index, d: Index, p: Point, L: nat)
    requires IsFrontier(k)
    requires forall c :: c in d ==> |d[c]| == 1
    requires forall c :: c in d && c in k ==> AllRightOf(k[c], d[c][0].1)
    requires 1 <= L && L - 1 == TopPredecessorBucket(k, p) && CheckMatch(p, k).None?
    ensures L in AddResults(k, d)
    ensures |AddResults(k, d)[L]| > 0 && Last(AddResults(k, d)[L]).1 <= p.1
  {
    var e :| e in k[L] && e.1 <= p.1;
    StaircaseLastIsLeftmost(k[L], e);
    NoWorse(k, d, L);
  }

  /** p extends a bucket above L - 1: following predecessors shows bucket L already reaches left of p. */
  lemma JoinBoundHigher(k: Index, d: Index, p: Point, L: nat)
    requires IsFrontier(k)
    requires forall c :: c in d ==> |d[c]| == 1
    requires forall c :: c in d && c in k ==> AllRightOf(k[c], d[c][0].1)
    requires 1 <= L && L <= TopPredecessorBucket(k, p)
    ensures L in AddResults(k, d)
    ensures |AddResults(k, d)[L]| > 0 && Last(AddResults(k, d)[L]).1 <= p.1
  {
    var b := TopPredecessorBucket(k, p);
    var e :| e in k[b] && Precedes(e, p);
    Descend(k, b, e, L);
    var e' :| e' in k[L] && e'.1 <= e.1;
    StaircaseLastIsLeftmost(k[L], e');
    NoWorse(k, d, L);
  }

  /** When check_match sends p to bucket c, the row's entry for c lies at or left of p. */
  lemma NewRowBound(k: Index, row: seq<bool>, i: nat, p: Point, c: nat)
    requires p.0 == i && p.1 < |row| && row[p.1] && CheckMatch(p, k) == Some(c)
    ensures exists j0: nat :: j0 <= p.1 && c in ProcessRow(k, row, i) && ProcessRow(k, row, i)[c] == [(i, j0)]
  {
    ProcessRowClaims(k, row, i);
    var d := ProcessRow(k, row, i);
    assert c in d;
    var j0: nat :| RowClaim(k, row, i, j0, c) && d[c] == [(i, j0)];
    assert j0 <= p.1;
  }

  /**
    lcs returns a longest chain of the grid: a longest common subsequence
    of the two sequences under the match relation.
   */
  lemma LcsIsLongest(grid: Grid, s: seq<Point>)
    requires IsChain(grid, s)
    ensures |s| <= |Lcs(grid)|
  {
    LcsIsChain(grid);
    if |s| > 0 {
      FrontierBoundsChains(grid, s);
    }
  }

  /** A grid without a single match has an empty longest common subsequence. */
  lemma LcsWithoutMatches(grid: Grid)
    requires forall i, j :: 0 <= i < |grid| && 0 <= j < |grid[i]| ==> !grid[i][j]
    ensures Lcs(grid) == []
  {
    LcsIsChain(grid);
    if Lcs(grid) != [] {
      assert false;
    }
  }
}
