/**
  diff: the public two-sequence differ. It builds the match grid, takes
  diff_points over it, and resolves every operation into a record carrying
  the element(s) it concerns. With check_modified, a kept pair whose
  elements compare as merely close is reported as modified.
 */
module Differ {
  import opened Comparison
  import opened MatchGrid
  import opened LcsExtraction
  import DiffPoints

  /** One entry of the result of diff: its state and the value(s) it carries. */
  datatype Record<T> =
    | Unchanged(value: T)
    | Added(value: T)
    | Deleted(value: T)
    | Modified(original: T, modified: T)

  /** The operation names only indices of A (below m) and of B (below n). */
  predicate InBounds(op: DiffPoints.Op, m: nat, n: nat)
  {
    match op
    case Deleted(i) => i < m
    case Added(j) => j < n
    case Unchanged(i, j) => i < m && j < n
  }

  /** The record for one operation. */
  function RecordOf<T>(A: seq<T>, B: seq<T>, cmp: (T, T) -> Outcome, checkModified: bool, op: DiffPoints.Op): Record<T>
    requires InBounds(op, |A|, |B|)
  {
    match op
    case Deleted(i) => Deleted(A[i])
    case Added(j) => Added(B[j])
    case Unchanged(i, j) =>
      if checkModified && cmp(A[i], B[j]) == Close then Modified(A[i], B[j]) else Unchanged(A[i])
  }

  function Records<T>(A: seq<T>, B: seq<T>, cmp: (T, T) -> Outcome, checkModified: bool, ops: seq<DiffPoints.Op>): seq<Record<T>>
    requires forall t :: 0 <= t < |ops| ==> InBounds(ops[t], |A|, |B|)
  {
    if |ops| == 0 then []
    else [RecordOf(A, B, cmp, checkModified, ops[0])] + Records(A, B, cmp, checkModified, ops[1..])
  }

  /** The operations of diff: diff_points over the match grid of A and B. */
  function Ops<T>(A: seq<T>, B: seq<T>, cmp: (T, T) -> Outcome): (ops: seq<DiffPoints.Op>)
    ensures forall t :: 0 <= t < |ops| ==> InBounds(ops[t], |A|, |B|)
  {
    var grid := CreateGrid(A, B, cmp);
    DiffPoints.DiffPointsCover(grid, |B|);
    OpsInBounds(DiffPoints.DiffPointsOf(grid, |B|), |A|, |B|);
    DiffPoints.DiffPointsOf(grid, |B|)
  }

  /** diff(A, B, check_modified). */
  function Diff<T>(A: seq<T>, B: seq<T>, cmp: (T, T) -> Outcome, checkModified: bool): seq<Record<T>>
  {
    Records(A, B, cmp, checkModified, Ops(A, B, cmp))
  }

  /** The elements of A a diff accounts for, in order: what the records say was there before. */
  function Before<T>(rs: seq<Record<T>>): seq<T>
  {
    if |rs| == 0 then []
    else
      (match rs[0]
       case Unchanged(v) => [v]
       case Deleted(v) => [v]
       case Modified(v, _) => [v]
       case Added(_) => [])
      + Before(rs[1..])
  }

  /** The elements of B a diff accounts for, in order: what the records say is there after. */
  function After<T>(rs: seq<Record<T>>): seq<T>
  {
    if |rs| == 0 then []
    else
      (match rs[0]
       case Unchanged(v) => [v]
       case Added(v) => [v]
       case Modified(_, v) => [v]
       case Deleted(_) => [])
      + After(rs[1..])
  }

  /** The elements of s at the given indices, in order. */
  function Select<T>(s: seq<T>, idx: seq<nat>): seq<T>
    requires forall t :: 0 <= t < |idx| ==> idx[t] < |s|
  {
    if |idx| == 0 then [] else [s[idx[0]]] + Select(s, idx[1..])
  }

  lemma {:induction false} SelectConcat<T>(s: seq<T>, x: seq<nat>, y: seq<nat>)
    requires forall t :: 0 <= t < |x| ==> x[t] < |s|
    requires forall t :: 0 <= t < |y| ==> y[t] < |s|
    ensures Select(s, x + y) == Select(s, x) + Select(s, y)
    decreases |x|
  {
    if |x| > 0 {
      assert (x + y)[1..] == x[1..] + y;
      SelectConcat(s, x[1..], y);
    } else {
      assert x + y == y;
    }
  }

  lemma {:induction false} SelectRange<T>(s: seq<T>, lo: nat)
    requires lo <= |s|
    ensures Select(s, DiffPoints.Range(lo, |s|)) == s[lo..]
    decreases |s| - lo
  {
    if lo < |s| {
      SelectRange(s, lo + 1);
      assert DiffPoints.Range(lo, |s|)[1..] == DiffPoints.Range(lo + 1, |s|);
    }
  }

  /** An operation other than an addition appears among the left indices; one other than a deletion among the right. */
  lemma {:induction false} IndicesListed(ops: seq<DiffPoints.Op>, t: nat)
    requires t < |ops|
    ensures !ops[t].Added? ==> ops[t].left in DiffPoints.Lefts(ops)
    ensures !ops[t].Deleted? ==> ops[t].right in DiffPoints.Rights(ops)
  {
    if t > 0 {
      IndicesListed(ops[1..], t - 1);
    }
  }

  lemma OpsInBounds(ops: seq<DiffPoints.Op>, m: nat, n: nat)
    requires DiffPoints.Lefts(ops) == DiffPoints.Range(0, m)
    requires DiffPoints.Rights(ops) == DiffPoints.Range(0, n)
    ensures forall t :: 0 <= t < |ops| ==> InBounds(ops[t], m, n)
  {
    forall t | 0 <= t < |ops| ensures InBounds(ops[t], m, n) {
      IndicesListed(ops, t);
    }
  }

  lemma {:induction false} RecordsBefore<T>(A: seq<T>, B: seq<T>, cmp: (T, T) -> Outcome, checkModified: bool, ops: seq<DiffPoints.Op>)
    requires forall t :: 0 <= t < |ops| ==> InBounds(ops[t], |A|, |B|)
    ensures forall t :: 0 <= t < |DiffPoints.Lefts(ops)| ==> DiffPoints.Lefts(ops)[t] < |A|
    ensures Before(Records(A, B, cmp, checkModified, ops)) == Select(A, DiffPoints.Lefts(ops))
  {
    if |ops| > 0 {
      RecordsBefore(A, B, cmp, checkModified, ops[1..]);
      var head := DiffPoints.Lefts([ops[0]]);
      DiffPoints.ProjectionsConcat([ops[0]], ops[1..]);
      assert [ops[0]] + ops[1..] == ops;
      assert [ops[0]][1..] == [];
      SelectConcat(A, head, DiffPoints.Lefts(ops[1..]));
    }
  }

  /** A kept pair that the record carries as one value: only when the two elements are the same. */
  ghost predicate SameWhenUnchanged<T>(A: seq<T>, B: seq<T>, cmp: (T, T) -> Outcome, checkModified: bool, op: DiffPoints.Op)
    requires InBounds(op, |A|, |B|)
  {
    op.Unchanged? && RecordOf(A, B, cmp, checkModified, op).Unchanged? ==> A[op.left] == B[op.right]
  }

  lemma {:induction false} RecordsAfter<T>(A: seq<T>, B: seq<T>, cmp: (T, T) -> Outcome, checkModified: bool, ops: seq<DiffPoints.Op>)
    requires forall t :: 0 <= t < |ops| ==> InBounds(ops[t], |A|, |B|)
    requires forall t :: 0 <= t < |ops| ==> SameWhenUnchanged(A, B, cmp, checkModified, ops[t])
    ensures forall t :: 0 <= t < |DiffPoints.Rights(ops)| ==> DiffPoints.Rights(ops)[t] < |B|
    ensures After(Records(A, B, cmp, checkModified, ops)) == Select(B, DiffPoints.Rights(ops))
  {
    if |ops| > 0 {
      RecordsAfter(A, B, cmp, checkModified, ops[1..]);
      var head := DiffPoints.Rights([ops[0]]);
      DiffPoints.ProjectionsConcat([ops[0]], ops[1..]);
      assert [ops[0]] + ops[1..] == ops;
      assert [ops[0]][1..] == [];
      SelectConcat(B, head, DiffPoints.Rights(ops[1..]));
    }
  }

  lemma {:induction false} RecordsAt<T>(A: seq<T>, B: seq<T>, cmp: (T, T) -> Outcome, checkModified: bool, ops: seq<DiffPoints.Op>)
    requires forall t :: 0 <= t < |ops| ==> InBounds(ops[t], |A|, |B|)
    ensures |Records(A, B, cmp, checkModified, ops)| == |ops|
    ensures forall t :: 0 <= t < |ops| ==> Records(A, B, cmp, checkModified, ops)[t] == RecordOf(A, B, cmp, checkModified, ops[t])
  {
    if |ops| > 0 {
      RecordsAt(A, B, cmp, checkModified, ops[1..]);
    }
  }

  /** Reading the old side of diff(A, B) gives back A: every element of A is reported exactly once, in order. */
  lemma DiffBeforeIsA<T>(A: seq<T>, B: seq<T>, cmp: (T, T) -> Outcome, checkModified: bool)
    ensures Before(Diff(A, B, cmp, checkModified)) == A
  {
    var grid := CreateGrid(A, B, cmp);
    DiffPoints.DiffPointsCover(grid, |B|);
    RecordsBefore(A, B, cmp, checkModified, Ops(A, B, cmp));
    SelectRange(A, 0);
  }

  /**
    Reading the new side of diff(A, B) gives back B, when an Equal outcome
    means the elements are the same and a Close outcome is reported as
    modified or never occurs.
   */
  lemma DiffAfterIsB<T>(A: seq<T>, B: seq<T>, cmp: (T, T) -> Outcome, checkModified: bool)
    requires forall i, j :: 0 <= i < |A| && 0 <= j < |B| && cmp(A[i], B[j]) == Equal ==> A[i] == B[j]
    requires !checkModified ==> forall i, j :: 0 <= i < |A| && 0 <= j < |B| ==> cmp(A[i], B[j]) != Close
    ensures After(Diff(A, B, cmp, checkModified)) == B
  {
    var grid := CreateGrid(A, B, cmp);
    var ops := Ops(A, B, cmp);
    DiffPoints.DiffPointsCover(grid, |B|);
    forall t | 0 <= t < |ops| ensures SameWhenUnchanged(A, B, cmp, checkModified, ops[t]) {
      if ops[t].Unchanged? {
        var i, j := ops[t].left, ops[t].right;
        KeptIsMatch(grid, ops, t);
        assert grid[i][j];
      }
    }
    RecordsAfter(A, B, cmp, checkModified, ops);
    SelectRange(B, 0);
  }

  /** Every pair diff keeps is a true cell of the grid. */
  lemma KeptIsMatch(grid: Grid, ops: seq<DiffPoints.Op>, t: nat)
    requires t < |ops| && ops[t].Unchanged?
    requires DiffPoints.Kept(ops) == Lcs(grid)
    ensures IsCell(grid, (ops[t].left, ops[t].right))
  {
    LcsIsChain(grid);
    KeptListed(ops, t);
  }

  lemma {:induction false} KeptListed(ops: seq<DiffPoints.Op>, t: nat)
    requires t < |ops| && ops[t].Unchanged?
    ensures (ops[t].left, ops[t].right) in DiffPoints.Kept(ops)
  {
    if t > 0 {
      KeptListed(ops[1..], t - 1);
    }
  }

  /**
    The state of each record of diff(A, B) follows its operation: deletions
    and additions carry the element, and a kept pair is modified exactly
    when check_modified is on and its elements compare as Close.
   */
  lemma DiffStates<T>(A: seq<T>, B: seq<T>, cmp: (T, T) -> Outcome, checkModified: bool)
    ensures |Diff(A, B, cmp, checkModified)| == |Ops(A, B, cmp)|
    ensures forall t :: 0 <= t < |Ops(A, B, cmp)| ==>
      var op, r := Ops(A, B, cmp)[t], Diff(A, B, cmp, checkModified)[t];
      && (op.Deleted? <==> r.Deleted?)
      && (op.Added? <==> r.Added?)
      && (op.Deleted? ==> r.value == A[op.left])
      && (op.Added? ==> r.value == B[op.right])
      && (op.Unchanged? ==> (r.Modified? <==> checkModified && cmp(A[op.left], B[op.right]) == Close))
  {
    RecordsAt(A, B, cmp, checkModified, Ops(A, B, cmp));
  }

  /** Without check_modified nothing is reported as modified; with it, only pairs that compare as Close are. */
  lemma ModifiedMeansClose<T>(A: seq<T>, B: seq<T>, cmp: (T, T) -> Outcome, checkModified: bool)
    ensures !checkModified ==> forall r :: r in Diff(A, B, cmp, checkModified) ==> !r.Modified?
    ensures forall r :: r in Diff(A, B, cmp, checkModified) && r.Modified? ==> cmp(r.original, r.modified) == Close
  {
    var ops := Ops(A, B, cmp);
    RecordsAt(A, B, cmp, checkModified, ops);
  }

  /** diff(A, B) has |A| + |B| - |lcs| entries, and keeps at least as many pairs as any common subsequence has. */
  lemma DiffSize<T>(A: seq<T>, B: seq<T>, cmp: (T, T) -> Outcome, checkModified: bool, s: seq<Point>)
    requires IsChain(CreateGrid(A, B, cmp), s)
    ensures |Diff(A, B, cmp, checkModified)| == |A| + |B| - |Lcs(CreateGrid(A, B, cmp))|
    ensures |s| <= |DiffPoints.Kept(Ops(A, B, cmp))|
  {
    var grid := CreateGrid(A, B, cmp);
    DiffPoints.DiffPointsCover(grid, |B|);
    DiffPoints.DiffPointsKeepMost(grid, |B|, s);
    RecordsAt(A, B, cmp, checkModified, Ops(A, B, cmp));
  }

  /** A grid with no columns, or no rows, has no true cell, so its longest common subsequence is empty. */
  lemma LcsOfEmptySide(grid: Grid)
    requires |grid| == 0 || IsRectangular(grid, 0)
    ensures Lcs(grid) == []
  {
    LcsIsChain(grid);
    assert |Lcs(grid)| > 0 ==> IsCell(grid, Lcs(grid)[0]);
  }

  /** Diffing against an empty sequence deletes every element of A, in order. */
  lemma DiffToEmpty<T>(A: seq<T>, cmp: (T, T) -> Outcome, checkModified: bool)
    ensures Diff(A, [], cmp, checkModified) == seq(|A|, t requires 0 <= t < |A| => Deleted(A[t]))
  {
    var grid := CreateGrid(A, [], cmp);
    LcsOfEmptySide(grid);
    var ops := Ops(A, [], cmp);
    assert ops == DiffPoints.Walk([], 0, 0, |A|, 0);
    RecordsAt(A, [], cmp, checkModified, ops);
  }

  /** Diffing from an empty sequence adds every element of B, in order. */
  lemma DiffFromEmpty<T>(B: seq<T>, cmp: (T, T) -> Outcome, checkModified: bool)
    ensures Diff([], B, cmp, checkModified) == seq(|B|, t requires 0 <= t < |B| => Added(B[t]))
  {
    var grid := CreateGrid([], B, cmp);
    LcsOfEmptySide(grid);
    var ops := Ops([], B, cmp);
    assert ops == DiffPoints.Walk([], 0, 0, 0, |B|);
    RecordsAt([], B, cmp, checkModified, ops);
  }

  /** When A[t] matches B[t] at every position of two equally long sequences, diff_points keeps every position paired with itself. */
  lemma DiagonalOps<T>(A: seq<T>, B: seq<T>, cmp: (T, T) -> Outcome)
    requires |A| == |B|
    requires forall t :: 0 <= t < |A| ==> IsMatch(cmp(A[t], B[t]))
    ensures |Ops(A, B, cmp)| == |A|
    ensures forall t :: 0 <= t < |A| ==> Ops(A, B, cmp)[t] == DiffPoints.Unchanged(t, t)
  {
    var grid := CreateGrid(A, B, cmp);
    assert forall t :: 0 <= t < |A| ==> grid[t][t];
    DiffPoints.DiagonalGridOps(grid, |A|);
  }

  /**
    Two equally long sequences that match position by position are diffed
    pair by pair: each pair is unchanged, or modified when check_modified is
    on and the pair compares as Close.
   */
  lemma DiffAlongDiagonal<T>(A: seq<T>, B: seq<T>, cmp: (T, T) -> Outcome, checkModified: bool)
    requires |A| == |B|
    requires forall t :: 0 <= t < |A| ==> IsMatch(cmp(A[t], B[t]))
    ensures |Diff(A, B, cmp, checkModified)| == |A|
    ensures forall t :: 0 <= t < |A| ==>
      Diff(A, B, cmp, checkModified)[t] == if checkModified && cmp(A[t], B[t]) == Close then Modified(A[t], B[t]) else Unchanged(A[t])
  {
    DiagonalOps(A, B, cmp);
    RecordsAt(A, B, cmp, checkModified, Ops(A, B, cmp));
  }

  /** A sequence diffed against itself, under a comparison that finds every element Equal to itself, is entirely unchanged. */
  lemma DiffOfSelf<T>(A: seq<T>, cmp: (T, T) -> Outcome, checkModified: bool)
    requires forall t :: 0 <= t < |A| ==> cmp(A[t], A[t]) == Equal
    ensures Diff(A, A, cmp, checkModified) == seq(|A|, t requires 0 <= t < |A| => Unchanged(A[t]))
  {
    DiffAlongDiagonal(A, A, cmp, checkModified);
  }
}
