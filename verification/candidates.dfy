/**
  The candidate index: a patience-sort-style map from a chain length c to
  the points that may end a chain of that length. The grid is scanned one
  row (one element of A) at a time; every match of a row is judged against
  the index as it stood before the row, and the row's new entries are
  appended only after the whole row is scanned.
 */
module Candidates {
  import opened Options
  import opened MatchGrid

  /** Bucket c lists, in the order they were found, points ending a chain of length c. */
  type Index = map<nat, seq<Point>>

  /** The bucket for key c, empty when the key is absent. */
  function Bucket(k: Index, c: nat): seq<Point>
  {
    if c in k then k[c] else []
  }

  /** Some entry of the bucket lies strictly above and left of p. */
  predicate HasPredecessor(bucket: seq<Point>, p: Point)
  {
    exists e :: e in bucket && Precedes(e, p)
  }

  /** Every entry of the bucket lies in a column right of col. */
  predicate AllRightOf(bucket: seq<Point>, col: nat)
  {
    forall e :: e in bucket ==> col < e.1
  }

  lemma MaxExists(s: set<nat>)
    requires s != {}
    ensures exists m :: m in s && forall x :: x in s ==> x <= m
  {
    var x :| x in s;
    if s != {x} {
      MaxExists(s - {x});
      var m :| m in s - {x} && forall y :: y in s - {x} ==> y <= m;
      var top := if m < x then x else m;
      forall y | y in s ensures y <= top {
        if y != x {
          assert y in s - {x};
        }
      }
    } else {
      assert forall y :: y in s ==> y <= x;
    }
  }

  /** The largest element of s, or 0 when s is empty. */
  function MaxOrZero(s: set<nat>): (m: nat)
    ensures s == {} ==> m == 0
    ensures s != {} ==> m in s
    ensures forall x :: x in s ==> x <= m
  {
    if s == {} then 0
    else
      MaxExists(s);
      var m :| m in s && forall x :: x in s ==> x <= m;
      m
  }

  /** The largest key of the index: the length of the longest chain it records. */
  function Top(k: Index): (top: nat)
    ensures top == 0 <==> k.Keys <= {0}
    ensures top > 0 ==> top in k
    ensures forall c :: c in k ==> c <= top
  {
    MaxOrZero(k.Keys)
  }

  /** b is the highest bucket of k holding a predecessor of p, or 0 when no bucket does. */
  predicate IsTopPredecessorBucket(k: Index, p: Point, b: nat)
  {
    && (b == 0 || (b in k && HasPredecessor(k[b], p)))
    && (forall c :: c in k && b < c ==> !HasPredecessor(k[c], p))
  }

  function TopPredecessorBucket(k: Index, p: Point): (b: nat)
    ensures IsTopPredecessorBucket(k, p, b)
  {
    var holders := set c | c in k && HasPredecessor(k[c], p);
    assert forall c :: c in k && HasPredecessor(k[c], p) ==> c in holders;
    MaxOrZero(holders)
  }

  /**
    p may join bucket c: c is one past the highest bucket holding a
    predecessor of p, and bucket c is absent or lies wholly right of p.
   */
  predicate CanJoin(k: Index, p: Point, c: nat)
  {
    && 1 <= c
    && IsTopPredecessorBucket(k, p, c - 1)
    && (c !in k || AllRightOf(k[c], p.1))
  }

  /** The bucket the point p joins, or None when p improves on no bucket. */
  function CheckMatch(p: Point, k: Index): Option<nat>
  {
    var c := TopPredecessorBucket(k, p) + 1;
    if c !in k || AllRightOf(k[c], p.1) then Some(c) else None
  }

  /**
    check_match answers Some(c) exactly when p may join bucket c, and None
    exactly when bucket c exists and holds an entry at or left of p's column.
   */
  lemma CheckMatchJoins(p: Point, k: Index)
    ensures forall c: nat :: CheckMatch(p, k) == Some(c) <==> CanJoin(k, p, c)
    ensures CheckMatch(p, k).None? <==> exists c: nat :: 1 <= c && IsTopPredecessorBucket(k, p, c - 1) && c in k && !AllRightOf(k[c], p.1)
  {
    var b := TopPredecessorBucket(k, p);
  }

  /** ms[t] is the first of the matches ms that check_match sends to bucket c. */
  predicate FirstClaim(k: Index, ms: seq<Point>, t: int, c: nat)
  {
    0 <= t < |ms| && CheckMatch(ms[t], k) == Some(c) && forall u :: 0 <= u < t ==> CheckMatch(ms[u], k) != Some(c)
  }

  /**
    The entries one row contributes, as a fold over the row's matches in
    increasing column order: a match that check_match sends to bucket c
    claims it unless an earlier match already has. Every match is judged
    against k, the index as it stood before the row.
   */
  function Place(k: Index, ms: seq<Point>): Index
  {
    if |ms| == 0 then map[]
    else
      var d := Place(k, ms[..|ms| - 1]);
      var m := ms[|ms| - 1];
      match CheckMatch(m, k)
      case Some(c) => if c in d then d else d[c := [m]]
      case None => d
  }

  /** Bucket c of the fold holds exactly the first match sent to c, and every bucket some match is sent to is present. */
  lemma PlaceClaims(k: Index, ms: seq<Point>)
    ensures forall c :: c in Place(k, ms) ==> exists t :: FirstClaim(k, ms, t, c) && Place(k, ms)[c] == [ms[t]]
    ensures forall t :: 0 <= t < |ms| && CheckMatch(ms[t], k).Some? ==> CheckMatch(ms[t], k).value in Place(k, ms)
  {
    PlaceFirst(k, ms);
    PlaceCovers(k, ms);
  }

  /** Every bucket some match is sent to is present in the fold. */
  lemma {:induction false} PlaceCovers(k: Index, ms: seq<Point>)
    ensures forall t :: 0 <= t < |ms| && CheckMatch(ms[t], k).Some? ==> CheckMatch(ms[t], k).value in Place(k, ms)
  {
    if |ms| > 0 {
      var front := ms[..|ms| - 1];
      PlaceCovers(k, front);
      assert forall t :: 0 <= t < |front| ==> front[t] == ms[t];
    }
  }

  /** Bucket c of the fold holds exactly the first match sent to c. */
  lemma {:induction false} PlaceFirst(k: Index, ms: seq<Point>)
    ensures forall c :: c in Place(k, ms) ==> exists t :: FirstClaim(k, ms, t, c) && Place(k, ms)[c] == [ms[t]]
  {
    if |ms| > 0 {
      var front := ms[..|ms| - 1];
      PlaceFirst(k, front);
      PlaceCovers(k, front);
      forall c | c in Place(k, ms) ensures exists t :: FirstClaim(k, ms, t, c) && Place(k, ms)[c] == [ms[t]] {
        PlaceFirstStep(k, ms, front, c);
      }
    }
  }

  lemma PlaceFirstStep(k: Index, ms: seq<Point>, front: seq<Point>, c: nat)
    requires |ms| > 0 && front == ms[..|ms| - 1] && c in Place(k, ms)
    requires forall c :: c in Place(k, front) ==> exists t :: FirstClaim(k, front, t, c) && Place(k, front)[c] == [front[t]]
    requires forall t :: 0 <= t < |front| && CheckMatch(front[t], k).Some? ==> CheckMatch(front[t], k).value in Place(k, front)
    ensures exists t :: FirstClaim(k, ms, t, c) && Place(k, ms)[c] == [ms[t]]
  {
    var d := Place(k, front);
    assert forall t :: 0 <= t < |front| ==> front[t] == ms[t];
    if c in d {
      var t :| FirstClaim(k, front, t, c) && d[c] == [front[t]];
      assert FirstClaim(k, ms, t, c);
    } else {
      assert FirstClaim(k, ms, |ms| - 1, c);
    }
  }

  /** (i, j) is the smallest-column match of the row that check_match sends to bucket c. */
  predicate RowClaim(k: Index, row: seq<bool>, i: nat, j: nat, c: nat)
  {
    && j < |row| && row[j] && CheckMatch((i, j), k) == Some(c)
    && forall j' :: 0 <= j' < j && row[j'] ==> CheckMatch((i, j'), k) != Some(c)
  }

  /** process_col: the new entries contributed by row i, judged against k. */
  function ProcessRow(k: Index, row: seq<bool>, i: nat): Index
  {
    Place(k, FindMatches(row, i))
  }

  /**
    process_col gives bucket c exactly one point, the smallest-column match
    of the row that check_match sends to c; a bucket no match of the row is
    sent to is absent, so points of one row never extend each other.
   */
  lemma ProcessRowClaims(k: Index, row: seq<bool>, i: nat)
    ensures forall c :: c in ProcessRow(k, row, i) ==> exists j: nat :: RowClaim(k, row, i, j, c) && ProcessRow(k, row, i)[c] == [(i, j)]
    ensures forall j :: 0 <= j < |row| && row[j] && CheckMatch((i, j), k).Some? ==> CheckMatch((i, j), k).value in ProcessRow(k, row, i)
  {
    var ms := FindMatches(row, i);
    PlaceClaims(k, ms);
    var d := Place(k, ms);
    forall c | c in d ensures exists j: nat :: RowClaim(k, row, i, j, c) && d[c] == [(i, j)] {
      var t :| FirstClaim(k, ms, t, c) && d[c] == [ms[t]];
      FirstClaimOnRow(k, row, i, ms, t, c);
      var j: nat := ms[t].1;
      assert RowClaim(k, row, i, j, c) && d[c] == [(i, j)];
    }
    forall j | 0 <= j < |row| && row[j] && CheckMatch((i, j), k).Some?
      ensures CheckMatch((i, j), k).value in d
    {
      var u :| 0 <= u < |ms| && ms[u] == (i, j);
    }
  }

  lemma FirstClaimOnRow(k: Index, row: seq<bool>, i: nat, ms: seq<Point>, t: int, c: nat)
    requires ms == FindMatches(row, i) && FirstClaim(k, ms, t, c)
    ensures RowClaim(k, row, i, ms[t].1, c) && ms[t] == (i, ms[t].1)
  {
    var j := ms[t].1;
    forall j' | 0 <= j' < j && row[j'] ensures CheckMatch((i, j'), k) != Some(c) {
      var u :| 0 <= u < |ms| && ms[u] == (i, j');
      assert u < t;
    }
  }

  /** The highest predecessor bucket is unique, so any b meeting its definition is the one check_match uses. */
  lemma TopPredecessorBucketIs(k: Index, p: Point, b: nat)
    requires IsTopPredecessorBucket(k, p, b)
    ensures TopPredecessorBucket(k, p) == b
  {
  }

  /** The fold of Place with the bucket of each match given in advance, answers[t] for ms[t]. */
  function PlaceAnswers(ms: seq<Point>, answers: seq<Option<nat>>): Index
    requires |answers| == |ms|
  {
    if |ms| == 0 then map[]
    else
      var d := PlaceAnswers(ms[..|ms| - 1], answers[..|ms| - 1]);
      var m: Point := ms[|ms| - 1];
      match answers[|ms| - 1]
      case Some(c) => if c in d then d else d[c := [m]]
      case None => d
  }

  lemma {:induction false} PlaceByAnswers(k: Index, ms: seq<Point>, answers: seq<Option<nat>>)
    requires |answers| == |ms|
    requires forall t :: 0 <= t < |ms| ==> CheckMatch(ms[t], k) == answers[t]
    ensures Place(k, ms) == PlaceAnswers(ms, answers)
  {
    if |ms| > 0 {
      PlaceByAnswers(k, ms[..|ms| - 1], answers[..|ms| - 1]);
    }
  }

  /** process_col is determined by the row's matches and the bucket check_match gives each. */
  lemma ProcessRowByAnswers(k: Index, row: seq<bool>, i: nat, ms: seq<Point>, answers: seq<Option<nat>>)
    requires FindMatches(row, i) == ms && |answers| == |ms|
    requires forall t :: 0 <= t < |ms| ==> CheckMatch(ms[t], k) == answers[t]
    ensures ProcessRow(k, row, i) == PlaceAnswers(ms, answers)
  {
    PlaceByAnswers(k, ms, answers);
  }

  /** The index with each bucket of newk appended to the same bucket of k. */
  function AddResults(k: Index, newk: Index): (r: Index)
    ensures r.Keys == k.Keys + newk.Keys
    ensures forall c :: c in r ==> r[c] == Bucket(k, c) + Bucket(newk, c)
  {
    map c | c in k.Keys + newk.Keys :: Bucket(k, c) + Bucket(newk, c)
  }

  /**
    The index is a Pareto frontier: keys run from 1 without gaps, buckets
    are non-empty, within a bucket rows strictly increase and columns
    strictly decrease, and every entry of bucket c > 1 has a predecessor in
    bucket c - 1.
   */
  ghost predicate IsFrontier(k: Index)
  {
    && (forall c :: c in k <==> 1 <= c <= Top(k))
    && (forall c :: c in k ==> IsStaircase(k[c]))
    && (forall c {:trigger c in k} :: c in k && 1 < c ==> Supports(k[c - 1], k[c]))
  }

  /** A non-empty bucket whose rows strictly increase and whose columns strictly decrease. */
  predicate IsStaircase(bucket: seq<Point>)
  {
    && |bucket| > 0
    && forall a, b :: 0 <= a < b < |bucket| ==> bucket[a].0 < bucket[b].0 && bucket[b].1 < bucket[a].1
  }

  /** Every entry of hi has a predecessor in lo. */
  predicate Supports(lo: seq<Point>, hi: seq<Point>)
  {
    forall e :: e in hi ==> HasPredecessor(lo, e)
  }

  /** Every entry of the index is a true cell of the grid. */
  predicate EntriesAreCells(grid: Grid, k: Index)
  {
    forall c, e :: c in k && e in k[c] ==> IsCell(grid, e)
  }

  /** find_candidates: process_col and add_results folded over the rows of the grid. */
  function FindCandidates(grid: Grid): Index
  {
    if |grid| == 0 then map[]
    else
      var i := |grid| - 1;
      var k := FindCandidates(grid[..i]);
      AddResults(k, ProcessRow(k, grid[i], i))
  }

  /** The candidate index of every grid is a Pareto frontier of true cells. */
  lemma {:induction false} FindCandidatesIsFrontier(grid: Grid)
    ensures IsFrontier(FindCandidates(grid))
    ensures EntriesAreCells(grid, FindCandidates(grid))
  {
    if |grid| > 0 {
      var i := |grid| - 1;
      FindCandidatesIsFrontier(grid[..i]);
      var k := FindCandidates(grid[..i]);
      FrontierStep(grid, k, ProcessRow(k, grid[i], i), FindCandidates(grid));
    }
  }

  lemma FrontierStep(grid: Grid, k: Index, d: Index, r: Index)
    requires |grid| > 0
    requires IsFrontier(k) && EntriesAreCells(grid[..|grid| - 1], k)
    requires d == ProcessRow(k, grid[|grid| - 1], |grid| - 1)
    requires r == AddResults(k, d)
    ensures IsFrontier(r)
    ensures EntriesAreCells(grid, r)
  {
    OldEntries(grid, k);
    NewEntries(grid, k, d);
    Step(grid, k, d, r);
  }

  lemma Step(grid: Grid, k: Index, d: Index, r: Index)
    requires |grid| > 0
    requires IsFrontier(k)
    requires forall c, e :: c in k && e in k[c] ==> IsCell(grid, e) && e.0 < |grid| - 1
    requires forall c :: c in d ==> |d[c]| == 1 && IsCell(grid, d[c][0]) && d[c][0].0 == |grid| - 1
    requires forall c :: c in d ==> 1 <= c <= Top(k) + 1
    requires forall c :: c in d && c in k ==> AllRightOf(k[c], d[c][0].1)
    requires forall c :: c in d && 1 < c ==> c - 1 in k && HasPredecessor(k[c - 1], d[c][0])
    requires r == AddResults(k, d)
    ensures IsFrontier(r)
    ensures EntriesAreCells(grid, r)
  {
    StepKeys(k, d, r);
    StepOrder(k, d, r, |grid| - 1);
    StepPredecessors(k, d, r);
    StepCells(grid, k, d, r);
  }

  lemma StepCells(grid: Grid, k: Index, d: Index, r: Index)
    requires forall c, e :: c in k && e in k[c] ==> IsCell(grid, e)
    requires forall c :: c in d ==> |d[c]| == 1 && IsCell(grid, d[c][0])
    requires r == AddResults(k, d)
    ensures EntriesAreCells(grid, r)
  {
    forall c, e | c in r && e in r[c] ensures IsCell(grid, e) {
      var before := Bucket(k, c);
      assert r[c] == before + Bucket(d, c);
      if e in before {
        assert c in k;
      } else {
        assert c in d && e in d[c];
        assert e == d[c][0];
      }
    }
  }

  lemma OldEntries(grid: Grid, k: Index)
    requires |grid| > 0
    requires EntriesAreCells(grid[..|grid| - 1], k)
    ensures forall c, e :: c in k && e in k[c] ==> IsCell(grid, e) && e.0 < |grid| - 1
  {
    var i := |grid| - 1;
    forall c, e | c in k && e in k[c] ensures IsCell(grid, e) && e.0 < i {
      assert IsCell(grid[..i], e);
    }
  }

  /**
    Each new entry of the last row is a single true cell of that row; it lies
    left of every entry already in its bucket, and it has a predecessor in
    the bucket below.
   */
  lemma NewEntries(grid: Grid, k: Index, d: Index)
    requires |grid| > 0
    requires IsFrontier(k)
    requires d == ProcessRow(k, grid[|grid| - 1], |grid| - 1)
    ensures forall c :: c in d ==> |d[c]| == 1 && IsCell(grid, d[c][0]) && d[c][0].0 == |grid| - 1
    ensures forall c :: c in d ==> 1 <= c <= Top(k) + 1
    ensures forall c :: c in d && c in k ==> AllRightOf(k[c], d[c][0].1)
    ensures forall c :: c in d && 1 < c ==> c - 1 in k && HasPredecessor(k[c - 1], d[c][0])
  {
    var i := |grid| - 1;
    forall c | c in d
      ensures |d[c]| == 1 && IsCell(grid, d[c][0]) && d[c][0].0 == i
      ensures 1 <= c <= Top(k) + 1
      ensures c in k ==> AllRightOf(k[c], d[c][0].1)
      ensures 1 < c ==> c - 1 in k && HasPredecessor(k[c - 1], d[c][0])
    {
      ProcessRowClaims(k, grid[i], i);
      var j: nat :| RowClaim(k, grid[i], i, j, c) && d[c] == [(i, j)];
      CheckMatchJoins((i, j), k);
      assert CanJoin(k, (i, j), c);
    }
  }

  lemma StepKeys(k: Index, d: Index, r: Index)
    requires IsFrontier(k)
    requires forall c :: c in d ==> 1 <= c <= Top(k) + 1
    requires r == AddResults(k, d)
    ensures forall c :: c in r <==> 1 <= c <= Top(r)
  {
    var top := Top(k);
    var top' := if top + 1 in d then top + 1 else top;
    assert forall c :: c in r ==> 1 <= c <= top';
    assert forall c :: 1 <= c <= top' ==> c in r;
    if top' > 0 {
      assert top' in r;
    }
    assert Top(r) == top';
  }

  lemma StepOrder(k: Index, d: Index, r: Index, i: nat)
    requires forall c :: c in k ==> IsStaircase(k[c])
    requires forall c, e :: c in k && e in k[c] ==> e.0 < i
    requires forall c :: c in d ==> |d[c]| == 1 && d[c][0].0 == i
    requires forall c :: c in d && c in k ==> AllRightOf(k[c], d[c][0].1)
    requires r == AddResults(k, d)
    ensures forall c :: c in r ==> IsStaircase(r[c])
  {
    forall c | c in r ensures IsStaircase(r[c]) {
      StepOrderAt(k, d, r, i, c);
    }
  }

  lemma StepOrderAt(k: Index, d: Index, r: Index, i: nat, c: nat)
    requires forall c :: c in k ==> IsStaircase(k[c])
    requires forall c, e :: c in k && e in k[c] ==> e.0 < i
    requires forall c :: c in d ==> |d[c]| == 1 && d[c][0].0 == i
    requires forall c :: c in d && c in k ==> AllRightOf(k[c], d[c][0].1)
    requires r == AddResults(k, d)
    requires c in r
    ensures IsStaircase(r[c])
  {
    if c in d && c in k {
      StepOrderBoth(k, d, r, i, c);
    } else if c in k {
      StepOrderOld(k, d, r, c);
    } else {
      StepOrderNew(k, d, r, i, c);
    }
  }

  lemma StepOrderBoth(k: Index, d: Index, r: Index, i: nat, c: nat)
    requires forall c :: c in k ==> IsStaircase(k[c])
    requires forall c, e :: c in k && e in k[c] ==> e.0 < i
    requires forall c :: c in d ==> |d[c]| == 1 && d[c][0].0 == i
    requires forall c :: c in d && c in k ==> AllRightOf(k[c], d[c][0].1)
    requires r == AddResults(k, d)
    requires c in d && c in k
    ensures IsStaircase(r[c])
  {
    var e := d[c][0];
    assert r[c] == k[c] + [e];
    StaircaseExtend(k[c], e, i);
  }

  lemma StepOrderOld(k: Index, d: Index, r: Index, c: nat)
    requires forall c :: c in k ==> IsStaircase(k[c])
    requires r == AddResults(k, d)
    requires c in k && c !in d
    ensures IsStaircase(r[c])
  {
    assert r[c] == k[c] + [];
  }

  lemma StepOrderNew(k: Index, d: Index, r: Index, i: nat, c: nat)
    requires forall c :: c in d ==> |d[c]| == 1 && d[c][0].0 == i
    requires r == AddResults(k, d)
    requires c in d && c !in k
    ensures IsStaircase(r[c])
  {
    assert r[c] == [] + d[c];
  }

  /** Appending a point below and left of every entry keeps a staircase. */
  lemma StaircaseExtend(bucket: seq<Point>, e: Point, i: nat)
    requires IsStaircase(bucket)
    requires forall q :: q in bucket ==> q.0 < i
    requires e.0 == i && AllRightOf(bucket, e.1)
    ensures IsStaircase(bucket + [e])
  {
    var s := bucket + [e];
    forall a, b | 0 <= a < b < |s| ensures s[a].0 < s[b].0 && s[b].1 < s[a].1 {
      if b == |s| - 1 {
        assert s[a] in bucket;
      }
    }
  }

  lemma StepPredecessors(k: Index, d: Index, r: Index)
    requires IsFrontier(k)
    requires forall c :: c in d ==> |d[c]| == 1
    requires forall c :: c in d && 1 < c ==> c - 1 in k && HasPredecessor(k[c - 1], d[c][0])
    requires r == AddResults(k, d)
    ensures forall c {:trigger c in r} :: c in r && 1 < c && c - 1 in r ==> Supports(r[c - 1], r[c])
  {
    forall c | c in r && 1 < c && c - 1 in r ensures Supports(r[c - 1], r[c]) {
      var lo := r[c - 1];
      if c in k {
        assert Supports(k[c - 1], k[c]);
        SupportsGrow(k[c - 1], lo, k[c]);
      }
      if c in d {
        var e := d[c][0];
        assert HasPredecessor(k[c - 1], e);
        assert Supports(k[c - 1], [e]);
        SupportsGrow(k[c - 1], lo, [e]);
      }
      SupportsConcat(lo, Bucket(k, c), Bucket(d, c));
    }
  }

  lemma SupportsGrow(lo: seq<Point>, lo': seq<Point>, hi: seq<Point>)
    requires Supports(lo, hi)
    requires forall w :: w in lo ==> w in lo'
    ensures Supports(lo', hi)
  {
    forall e | e in hi ensures HasPredecessor(lo', e) {
      var w :| w in lo && Precedes(w, e);
      assert w in lo';
    }
  }

  lemma SupportsConcat(lo: seq<Point>, a: seq<Point>, b: seq<Point>)
    requires Supports(lo, a) && Supports(lo, b)
    ensures Supports(lo, a + b)
  {
    forall e | e in a + b ensures HasPredecessor(lo, e) {
      if e in a {
        assert HasPredecessor(lo, e);
      }
    }
  }
}
