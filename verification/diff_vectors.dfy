/**
  The diff_points and diff cases: two texts differing in two lines, the
  empty inputs, "abc" against "bc", and comparators that report some
  pairs as merely close.
 */
module DiffVectors {
  import opened Options
  import opened Comparison
  import opened MatchGrid
  import opened Candidates
  import opened LcsExtraction
  import DiffPoints
  import opened Differ
  import opened VectorSupport

  /** Two four-line texts that differ in their first and last lines. */
  const LinesA: seq<string> := ["x = [1,3,3]\n", "z = {1, 2, 3} \n", "\n", "z"]
  const LinesB: seq<string> := ["x = [1,3,4]\n", "z = {1, 2, 3} \n", "\n", "m"]

  const LineRow0: seq<bool> := [false, false, false, false]
  const LineRow1: seq<bool> := [false, true, false, false]
  const LineRow2: seq<bool> := [false, false, true, false]
  const LINES: Grid := [LineRow0, LineRow1, LineRow2, LineRow0]

  lemma LinesGridRow0()
    ensures CreateGrid(LinesA, LinesB, PlainCompare)[0] == LineRow0
  {
    GridRowIs(LinesA, LinesB, PlainCompare, 0, LineRow0);
  }

  lemma LinesGridRow1()
    ensures CreateGrid(LinesA, LinesB, PlainCompare)[1] == LineRow1
  {
    GridRowIs(LinesA, LinesB, PlainCompare, 1, LineRow1);
  }

  lemma LinesGridRow2()
    ensures CreateGrid(LinesA, LinesB, PlainCompare)[2] == LineRow2
  {
    GridRowIs(LinesA, LinesB, PlainCompare, 2, LineRow2);
  }

  lemma LinesGridRow3()
    ensures CreateGrid(LinesA, LinesB, PlainCompare)[3] == LineRow0
  {
    GridRowIs(LinesA, LinesB, PlainCompare, 3, LineRow0);
  }

  /** create_grid of the two texts. */
  lemma LinesGrid()
    ensures CreateGrid(LinesA, LinesB, PlainCompare) == LINES
  {
    var grid := CreateGrid(LinesA, LinesB, PlainCompare);
    LinesGridRow0();
    LinesGridRow1();
    LinesGridRow2();
    LinesGridRow3();
    assert grid == [grid[0], grid[1], grid[2], grid[3]];
  }

  /** The candidate indexes find_candidates builds over the grid of the two texts, row by row. */
  const LinesAfter1: Index := map[]
  const LinesAfter2: Index := map[1 := [(1, 1)]]
  const LinesAfter3: Index := map[1 := [(1, 1)], 2 := [(2, 2)]]
  const LinesAfter4: Index := map[1 := [(1, 1)], 2 := [(2, 2)]]

  lemma LinesProcess0Matches()
    ensures FindMatches(LineRow0, 0) == []
  {
  }

  lemma LinesProcess0()
    ensures ProcessRow(EmptyIndex, LineRow0, 0) == map[]
  {
    LinesProcess0Matches();
  }

  lemma LinesJoin1()
    ensures AddResults(EmptyIndex, map[]) == LinesAfter1
  {
    AddResultsIs(EmptyIndex, map[], LinesAfter1);
  }

  lemma LinesStep0(k: Index, row: seq<bool>)
    requires k == EmptyIndex && row == LineRow0
    ensures AddResults(k, ProcessRow(k, row, 0)) == LinesAfter1
  {
    LinesProcess0();
    LinesJoin1();
  }

  lemma LinesPrefix1(grid: Grid)
    requires |grid| > 0 && forall t :: 0 <= t <= 0 ==> grid[t] == LINES[t]
    ensures FindCandidates(grid[..1]) == LinesAfter1
  {
    assert grid[0] == LineRow0;
    assert grid[..0] == [];
    LinesStep0(FindCandidates(grid[..0]), grid[0]);
    FindCandidatesStep(grid, 0, LinesAfter1);
  }

  lemma LinesProcess1Matches()
    ensures FindMatches(LineRow1, 1) == [(1, 1)]
  {
  }

  lemma LinesProcess1Checks()
    ensures CheckMatch((1, 1), LinesAfter1) == Some(1)
  {
    TopPredecessorBucketIs(LinesAfter1, (1, 1), 0);
  }

  lemma LinesProcess1Place()
    ensures PlaceAnswers([(1, 1)], [Some(1)]) == map[1 := [(1, 1)]]
  {
  }

  lemma LinesProcess1()
    ensures ProcessRow(LinesAfter1, LineRow1, 1) == map[1 := [(1, 1)]]
  {
    LinesProcess1Matches();
    LinesProcess1Checks();
    ProcessRowByAnswers(LinesAfter1, LineRow1, 1, [(1, 1)], [Some(1)]);
    LinesProcess1Place();
  }

  lemma LinesJoin2()
    ensures AddResults(LinesAfter1, map[1 := [(1, 1)]]) == LinesAfter2
  {
    AddResultsIs(LinesAfter1, map[1 := [(1, 1)]], LinesAfter2);
  }

  lemma LinesStep1(k: Index, row: seq<bool>)
    requires k == LinesAfter1 && row == LineRow1
    ensures AddResults(k, ProcessRow(k, row, 1)) == LinesAfter2
  {
    LinesProcess1();
    LinesJoin2();
  }

  lemma LinesPrefix2(grid: Grid)
    requires |grid| > 1 && forall t :: 0 <= t <= 1 ==> grid[t] == LINES[t]
    ensures FindCandidates(grid[..2]) == LinesAfter2
  {
    assert grid[1] == LineRow1;
    LinesPrefix1(grid);
    LinesStep1(FindCandidates(grid[..1]), grid[1]);
    FindCandidatesStep(grid, 1, LinesAfter2);
  }

  lemma LinesProcess2Matches()
    ensures FindMatches(LineRow2, 2) == [(2, 2)]
  {
  }

  lemma LinesProcess2Checks()
    ensures CheckMatch((2, 2), LinesAfter2) == Some(2)
  {
    assert (1, 1) in LinesAfter2[1];
    TopPredecessorBucketIs(LinesAfter2, (2, 2), 1);
  }

  lemma LinesProcess2Place()
    ensures PlaceAnswers([(2, 2)], [Some(2)]) == map[2 := [(2, 2)]]
  {
  }

  lemma LinesProcess2()
    ensures ProcessRow(LinesAfter2, LineRow2, 2) == map[2 := [(2, 2)]]
  {
    LinesProcess2Matches();
    LinesProcess2Checks();
    ProcessRowByAnswers(LinesAfter2, LineRow2, 2, [(2, 2)], [Some(2)]);
    LinesProcess2Place();
  }

  lemma LinesJoin3()
    ensures AddResults(LinesAfter2, map[2 := [(2, 2)]]) == LinesAfter3
  {
    AddResultsIs(LinesAfter2, map[2 := [(2, 2)]], LinesAfter3);
  }

  lemma LinesStep2(k: Index, row: seq<bool>)
    requires k == LinesAfter2 && row == LineRow2
    ensures AddResults(k, ProcessRow(k, row, 2)) == LinesAfter3
  {
    LinesProcess2();
    LinesJoin3();
  }

  lemma LinesPrefix3(grid: Grid)
    requires |grid| > 2 && forall t :: 0 <= t <= 2 ==> grid[t] == LINES[t]
    ensures FindCandidates(grid[..3]) == LinesAfter3
  {
    assert grid[2] == LineRow2;
    LinesPrefix2(grid);
    LinesStep2(FindCandidates(grid[..2]), grid[2]);
    FindCandidatesStep(grid, 2, LinesAfter3);
  }

  lemma LinesProcess3Matches()
    ensures FindMatches(LineRow0, 3) == []
  {
  }

  lemma LinesProcess3()
    ensures ProcessRow(LinesAfter3, LineRow0, 3) == map[]
  {
    LinesProcess3Matches();
  }

  lemma LinesJoin4()
    ensures AddResults(LinesAfter3, map[]) == LinesAfter4
  {
    AddResultsIs(LinesAfter3, map[], LinesAfter4);
  }

  lemma LinesStep3(k: Index, row: seq<bool>)
    requires k == LinesAfter3 && row == LineRow0
    ensures AddResults(k, ProcessRow(k, row, 3)) == LinesAfter4
  {
    LinesProcess3();
    LinesJoin4();
  }

  lemma LinesPrefix4(grid: Grid)
    requires |grid| > 3 && forall t :: 0 <= t <= 3 ==> grid[t] == LINES[t]
    ensures FindCandidates(grid[..4]) == LinesAfter4
  {
    assert grid[3] == LineRow0;
    LinesPrefix3(grid);
    LinesStep3(FindCandidates(grid[..3]), grid[3]);
    FindCandidatesStep(grid, 3, LinesAfter4);
  }

  /** find_candidates over the grid of the two texts. */
  lemma LinesCandidates()
    ensures FindCandidates(LINES) == map[1 := [(1, 1)], 2 := [(2, 2)]]
  {
    LinesPrefix4(LINES);
    assert LINES[..4] == LINES;
  }

  lemma LinesBacktrack()
    ensures Backtrack(LinesAfter4, 1, (2, 2)) == [(1, 1)]
  {
  }

  lemma LinesLcsOfIndex(k: Index)
    requires k == LinesAfter4 && IsFrontier(k)
    ensures LcsOfIndex(k) == [(1, 1), (2, 2)]
  {
    assert k.Keys == {1, 2};
    TopIs(k, 2);
    LinesBacktrack();
    LcsOfIndexIs(k, 2, (2, 2), [(1, 1)]);
  }

  /** lcs over the grid of the two texts. */
  lemma LinesLcs()
    ensures Lcs(LINES) == [(1, 1), (2, 2)]
  {
    LinesCandidates();
    LcsOfCandidates(LINES, LinesAfter4);
    LinesLcsOfIndex(LinesAfter4);
  }

  lemma LinesWalk()
    ensures DiffPoints.Walk([(1, 1), (2, 2)], 0, 0, 4, 4) == [DiffPoints.Deleted(0), DiffPoints.Added(0), DiffPoints.Unchanged(1, 1), DiffPoints.Unchanged(2, 2), DiffPoints.Deleted(3), DiffPoints.Added(3)]
  {
  }

  /** diff_points of the two texts: the changed first and last lines are each deleted, then added. */
  lemma DiffPointsExample()
    ensures DiffPoints.DiffPointsOf(CreateGrid(LinesA, LinesB, PlainCompare), 4) == [DiffPoints.Deleted(0), DiffPoints.Added(0), DiffPoints.Unchanged(1, 1), DiffPoints.Unchanged(2, 2), DiffPoints.Deleted(3), DiffPoints.Added(3)]
  {
    LinesGrid();
    LinesLcs();
    LinesWalk();
  }

  /** Diffing two empty sequences gives no records. */
  lemma EmptyDiff()
    ensures |Diff([], [], PlainCompare<string>, false)| == 0
  {
    DiffToEmpty([], PlainCompare<string>, false);
  }

  /** Diffing one element against nothing gives one record. */
  lemma EmptyDiffRight()
    ensures |Diff(["a"], [], PlainCompare<string>, false)| == 1
  {
    DiffToEmpty(["a"], PlainCompare<string>, false);
  }

  /** Diffing nothing against one element gives one record. */
  lemma EmptyDiffLeft()
    ensures |Diff([], ["a"], PlainCompare<string>, false)| == 1
  {
    DiffFromEmpty(["a"], PlainCompare<string>, false);
  }

  /** The grid of "abc" against "bc". */
  const ShiftRow0: seq<bool> := [false, false]
  const ShiftRow1: seq<bool> := [true, false]
  const ShiftRow2: seq<bool> := [false, true]
  const SHIFT: Grid := [ShiftRow0, ShiftRow1, ShiftRow2]

  lemma ShiftGridRow0()
    ensures CreateGrid("abc", "bc", PlainCompare)[0] == ShiftRow0
  {
    GridRowIs("abc", "bc", PlainCompare, 0, ShiftRow0);
  }

  lemma ShiftGridRow1()
    ensures CreateGrid("abc", "bc", PlainCompare)[1] == ShiftRow1
  {
    GridRowIs("abc", "bc", PlainCompare, 1, ShiftRow1);
  }

  lemma ShiftGridRow2()
    ensures CreateGrid("abc", "bc", PlainCompare)[2] == ShiftRow2
  {
    GridRowIs("abc", "bc", PlainCompare, 2, ShiftRow2);
  }

  /** create_grid of "abc" against "bc". */
  lemma ShiftGrid()
    ensures CreateGrid("abc", "bc", PlainCompare) == SHIFT
  {
    var grid := CreateGrid("abc", "bc", PlainCompare);
    ShiftGridRow0();
    ShiftGridRow1();
    ShiftGridRow2();
    assert grid == [grid[0], grid[1], grid[2]];
  }

  /** The candidate indexes find_candidates builds over the grid of "abc" against "bc", row by row. */
  const ShiftAfter1: Index := map[]
  const ShiftAfter2: Index := map[1 := [(1, 0)]]
  const ShiftAfter3: Index := map[1 := [(1, 0)], 2 := [(2, 1)]]

  lemma ShiftProcess0Matches()
    ensures FindMatches(ShiftRow0, 0) == []
  {
  }

  lemma ShiftProcess0()
    ensures ProcessRow(EmptyIndex, ShiftRow0, 0) == map[]
  {
    ShiftProcess0Matches();
  }

  lemma ShiftJoin1()
    ensures AddResults(EmptyIndex, map[]) == ShiftAfter1
  {
    AddResultsIs(EmptyIndex, map[], ShiftAfter1);
  }

  lemma ShiftStep0(k: Index, row: seq<bool>)
    requires k == EmptyIndex && row == ShiftRow0
    ensures AddResults(k, ProcessRow(k, row, 0)) == ShiftAfter1
  {
    ShiftProcess0();
    ShiftJoin1();
  }

  lemma ShiftPrefix1(grid: Grid)
    requires |grid| > 0 && forall t :: 0 <= t <= 0 ==> grid[t] == SHIFT[t]
    ensures FindCandidates(grid[..1]) == ShiftAfter1
  {
    assert grid[0] == ShiftRow0;
    assert grid[..0] == [];
    ShiftStep0(FindCandidates(grid[..0]), grid[0]);
    FindCandidatesStep(grid, 0, ShiftAfter1);
  }

  lemma ShiftProcess1Matches()
    ensures FindMatches(ShiftRow1, 1) == [(1, 0)]
  {
  }

  lemma ShiftProcess1Checks()
    ensures CheckMatch((1, 0), ShiftAfter1) == Some(1)
  {
    TopPredecessorBucketIs(ShiftAfter1, (1, 0), 0);
  }

  lemma ShiftProcess1Place()
    ensures PlaceAnswers([(1, 0)], [Some(1)]) == map[1 := [(1, 0)]]
  {
  }

  lemma ShiftProcess1()
    ensures ProcessRow(ShiftAfter1, ShiftRow1, 1) == map[1 := [(1, 0)]]
  {
    ShiftProcess1Matches();
    ShiftProcess1Checks();
    ProcessRowByAnswers(ShiftAfter1, ShiftRow1, 1, [(1, 0)], [Some(1)]);
    ShiftProcess1Place();
  }

  lemma ShiftJoin2()
    ensures AddResults(ShiftAfter1, map[1 := [(1, 0)]]) == ShiftAfter2
  {
    AddResultsIs(ShiftAfter1, map[1 := [(1, 0)]], ShiftAfter2);
  }

  lemma ShiftStep1(k: Index, row: seq<bool>)
    requires k == ShiftAfter1 && row == ShiftRow1
    ensures AddResults(k, ProcessRow(k, row, 1)) == ShiftAfter2
  {
    ShiftProcess1();
    ShiftJoin2();
  }

  lemma ShiftPrefix2(grid: Grid)
    requires |grid| > 1 && forall t :: 0 <= t <= 1 ==> grid[t] == SHIFT[t]
    ensures FindCandidates(grid[..2]) == ShiftAfter2
  {
    assert grid[1] == ShiftRow1;
    ShiftPrefix1(grid);
    ShiftStep1(FindCandidates(grid[..1]), grid[1]);
    FindCandidatesStep(grid, 1, ShiftAfter2);
  }

  lemma ShiftProcess2Matches()
    ensures FindMatches(ShiftRow2, 2) == [(2, 1)]
  {
  }

  lemma ShiftProcess2Checks()
    ensures CheckMatch((2, 1), ShiftAfter2) == Some(2)
  {
    assert (1, 0) in ShiftAfter2[1];
    TopPredecessorBucketIs(ShiftAfter2, (2, 1), 1);
  }

  lemma ShiftProcess2Place()
    ensures PlaceAnswers([(2, 1)], [Some(2)]) == map[2 := [(2, 1)]]
  {
  }

  lemma ShiftProcess2()
    ensures ProcessRow(ShiftAfter2, ShiftRow2, 2) == map[2 := [(2, 1)]]
  {
    ShiftProcess2Matches();
    ShiftProcess2Checks();
    ProcessRowByAnswers(ShiftAfter2, ShiftRow2, 2, [(2, 1)], [Some(2)]);
    ShiftProcess2Place();
  }

  lemma ShiftJoin3()
    ensures AddResults(ShiftAfter2, map[2 := [(2, 1)]]) == ShiftAfter3
  {
    AddResultsIs(ShiftAfter2, map[2 := [(2, 1)]], ShiftAfter3);
  }

  lemma ShiftStep2(k: Index, row: seq<bool>)
    requires k == ShiftAfter2 && row == ShiftRow2
    ensures AddResults(k, ProcessRow(k, row, 2)) == ShiftAfter3
  {
    ShiftProcess2();
    ShiftJoin3();
  }

  lemma ShiftPrefix3(grid: Grid)
    requires |grid| > 2 && forall t :: 0 <= t <= 2 ==> grid[t] == SHIFT[t]
    ensures FindCandidates(grid[..3]) == ShiftAfter3
  {
    assert grid[2] == ShiftRow2;
    ShiftPrefix2(grid);
    ShiftStep2(FindCandidates(grid[..2]), grid[2]);
    FindCandidatesStep(grid, 2, ShiftAfter3);
  }

  /** find_candidates over the grid of "abc" against "bc". */
  lemma ShiftCandidates()
    ensures FindCandidates(SHIFT) == map[1 := [(1, 0)], 2 := [(2, 1)]]
  {
    ShiftPrefix3(SHIFT);
    assert SHIFT[..3] == SHIFT;
  }

  lemma ShiftBacktrack()
    ensures Backtrack(ShiftAfter3, 1, (2, 1)) == [(1, 0)]
  {
  }

  lemma ShiftLcsOfIndex(k: Index)
    requires k == ShiftAfter3 && IsFrontier(k)
    ensures LcsOfIndex(k) == [(1, 0), (2, 1)]
  {
    assert k.Keys == {1, 2};
    TopIs(k, 2);
    ShiftBacktrack();
    LcsOfIndexIs(k, 2, (2, 1), [(1, 0)]);
  }

  /** lcs over the grid of "abc" against "bc". */
  lemma ShiftLcs()
    ensures Lcs(SHIFT) == [(1, 0), (2, 1)]
  {
    ShiftCandidates();
    LcsOfCandidates(SHIFT, ShiftAfter3);
    ShiftLcsOfIndex(ShiftAfter3);
  }

  lemma ShiftWalk()
    ensures DiffPoints.Walk([(1, 0), (2, 1)], 0, 0, 3, 2) == [DiffPoints.Deleted(0), DiffPoints.Unchanged(1, 0), DiffPoints.Unchanged(2, 1)]
  {
  }

  /** diff of "abc" against "bc" deletes the leading a; plain values are never modified, with check_modified or without. */
  lemma ShiftDiff(checkModified: bool)
    ensures Diff("abc", "bc", PlainCompare, checkModified) == [Deleted('a'), Unchanged('b'), Unchanged('c')]
  {
    ShiftGrid();
    ShiftLcs();
    ShiftWalk();
    assert Ops("abc", "bc", PlainCompare) == [DiffPoints.Deleted(0), DiffPoints.Unchanged(1, 0), DiffPoints.Unchanged(2, 1)];
    RecordsAt("abc", "bc", PlainCompare, checkModified, Ops("abc", "bc", PlainCompare));
  }

  /** The grid of [x, y, y, y] against [y, y, y, y] when x is Close to y and y does not match itself. */
  const CloseOnlyRow0: seq<bool> := [true, true, true, true]
  const CloseOnlyRow1: seq<bool> := [false, false, false, false]
  const CLOSE_ONLY: Grid := [CloseOnlyRow0, CloseOnlyRow1, CloseOnlyRow1, CloseOnlyRow1]

  /** create_grid of [x, y, y, y] against [y, y, y, y] when only x matches y. */
  lemma CloseOnlyGrid<T>(x: T, y: T, cmp: (T, T) -> Outcome)
    requires cmp(x, y) == Close && !IsMatch(cmp(y, y))
    ensures CreateGrid([x, y, y, y], [y, y, y, y], cmp) == CLOSE_ONLY
  {
    var grid := CreateGrid([x, y, y, y], [y, y, y, y], cmp);
    GridRowIs([x, y, y, y], [y, y, y, y], cmp, 0, CloseOnlyRow0);
    GridRowIs([x, y, y, y], [y, y, y, y], cmp, 1, CloseOnlyRow1);
    GridRowIs([x, y, y, y], [y, y, y, y], cmp, 2, CloseOnlyRow1);
    GridRowIs([x, y, y, y], [y, y, y, y], cmp, 3, CloseOnlyRow1);
    assert grid == [grid[0], grid[1], grid[2], grid[3]];
  }

  /** The candidate indexes find_candidates builds over the grid in which only x matches y, row by row. */
  const CloseOnlyAfter1: Index := map[1 := [(0, 0)]]
  const CloseOnlyAfter2: Index := map[1 := [(0, 0)]]
  const CloseOnlyAfter3: Index := map[1 := [(0, 0)]]
  const CloseOnlyAfter4: Index := map[1 := [(0, 0)]]

  lemma CloseOnlyProcess0Matches()
    ensures FindMatches(CloseOnlyRow0, 0) == [(0, 0), (0, 1), (0, 2), (0, 3)]
  {
  }

  lemma CloseOnlyProcess0Checks()
    ensures CheckMatch((0, 0), EmptyIndex) == Some(1)
    ensures CheckMatch((0, 1), EmptyIndex) == Some(1)
    ensures CheckMatch((0, 2), EmptyIndex) == Some(1)
    ensures CheckMatch((0, 3), EmptyIndex) == Some(1)
  {
    TopPredecessorBucketIs(EmptyIndex, (0, 0), 0);
    TopPredecessorBucketIs(EmptyIndex, (0, 1), 0);
    TopPredecessorBucketIs(EmptyIndex, (0, 2), 0);
    TopPredecessorBucketIs(EmptyIndex, (0, 3), 0);
  }

  lemma CloseOnlyProcess0Place()
    ensures PlaceAnswers([(0, 0), (0, 1), (0, 2), (0, 3)], [Some(1), Some(1), Some(1), Some(1)]) == map[1 := [(0, 0)]]
  {
    assert PlaceAnswers([(0, 0)], [Some(1)]) == map[1 := [(0, 0)]];
    assert PlaceAnswers([(0, 0), (0, 1)], [Some(1), Some(1)]) == map[1 := [(0, 0)]];
    assert PlaceAnswers([(0, 0), (0, 1), (0, 2)], [Some(1), Some(1), Some(1)]) == map[1 := [(0, 0)]];
    assert [(0, 0), (0, 1), (0, 2), (0, 3)][..3] == [(0, 0), (0, 1), (0, 2)];
    assert [Some(1), Some(1), Some(1), Some(1)][..3] == [Some(1), Some(1), Some(1)];
  }

  lemma CloseOnlyProcess0()
    ensures ProcessRow(EmptyIndex, CloseOnlyRow0, 0) == map[1 := [(0, 0)]]
  {
    CloseOnlyProcess0Matches();
    CloseOnlyProcess0Checks();
    ProcessRowByAnswers(EmptyIndex, CloseOnlyRow0, 0, [(0, 0), (0, 1), (0, 2), (0, 3)], [Some(1), Some(1), Some(1), Some(1)]);
    CloseOnlyProcess0Place();
  }

  lemma CloseOnlyJoin1()
    ensures AddResults(EmptyIndex, map[1 := [(0, 0)]]) == CloseOnlyAfter1
  {
    AddResultsIs(EmptyIndex, map[1 := [(0, 0)]], CloseOnlyAfter1);
  }

  lemma CloseOnlyStep0(k: Index, row: seq<bool>)
    requires k == EmptyIndex && row == CloseOnlyRow0
    ensures AddResults(k, ProcessRow(k, row, 0)) == CloseOnlyAfter1
  {
    CloseOnlyProcess0();
    CloseOnlyJoin1();
  }

  lemma CloseOnlyPrefix1(grid: Grid)
    requires |grid| > 0 && forall t :: 0 <= t <= 0 ==> grid[t] == CLOSE_ONLY[t]
    ensures FindCandidates(grid[..1]) == CloseOnlyAfter1
  {
    assert grid[0] == CloseOnlyRow0;
    assert grid[..0] == [];
    CloseOnlyStep0(FindCandidates(grid[..0]), grid[0]);
    FindCandidatesStep(grid, 0, CloseOnlyAfter1);
  }

  lemma CloseOnlyProcess1Matches()
    ensures FindMatches(CloseOnlyRow1, 1) == []
  {
  }

  lemma CloseOnlyProcess1()
    ensures ProcessRow(CloseOnlyAfter1, CloseOnlyRow1, 1) == map[]
  {
    CloseOnlyProcess1Matches();
  }

  lemma CloseOnlyJoin2()
    ensures AddResults(CloseOnlyAfter1, map[]) == CloseOnlyAfter2
  {
    AddResultsIs(CloseOnlyAfter1, map[], CloseOnlyAfter2);
  }

  lemma CloseOnlyStep1(k: Index, row: seq<bool>)
    requires k == CloseOnlyAfter1 && row == CloseOnlyRow1
    ensures AddResults(k, ProcessRow(k, row, 1)) == CloseOnlyAfter2
  {
    CloseOnlyProcess1();
    CloseOnlyJoin2();
  }

  lemma CloseOnlyPrefix2(grid: Grid)
    requires |grid| > 1 && forall t :: 0 <= t <= 1 ==> grid[t] == CLOSE_ONLY[t]
    ensures FindCandidates(grid[..2]) == CloseOnlyAfter2
  {
    assert grid[1] == CloseOnlyRow1;
    CloseOnlyPrefix1(grid);
    CloseOnlyStep1(FindCandidates(grid[..1]), grid[1]);
    FindCandidatesStep(grid, 1, CloseOnlyAfter2);
  }

  lemma CloseOnlyProcess2Matches()
    ensures FindMatches(CloseOnlyRow1, 2) == []
  {
  }

  lemma CloseOnlyProcess2()
    ensures ProcessRow(CloseOnlyAfter2, CloseOnlyRow1, 2) == map[]
  {
    CloseOnlyProcess2Matches();
  }

  lemma CloseOnlyJoin3()
    ensures AddResults(CloseOnlyAfter2, map[]) == CloseOnlyAfter3
  {
    AddResultsIs(CloseOnlyAfter2, map[], CloseOnlyAfter3);
  }

  lemma CloseOnlyStep2(k: Index, row: seq<bool>)
    requires k == CloseOnlyAfter2 && row == CloseOnlyRow1
    ensures AddResults(k, ProcessRow(k, row, 2)) == CloseOnlyAfter3
  {
    CloseOnlyProcess2();
    CloseOnlyJoin3();
  }

  lemma CloseOnlyPrefix3(grid: Grid)
    requires |grid| > 2 && forall t :: 0 <= t <= 2 ==> grid[t] == CLOSE_ONLY[t]
    ensures FindCandidates(grid[..3]) == CloseOnlyAfter3
  {
    assert grid[2] == CloseOnlyRow1;
    CloseOnlyPrefix2(grid);
    CloseOnlyStep2(FindCandidates(grid[..2]), grid[2]);
    FindCandidatesStep(grid, 2, CloseOnlyAfter3);
  }

  lemma CloseOnlyProcess3Matches()
    ensures FindMatches(CloseOnlyRow1, 3) == []
  {
  }

  lemma CloseOnlyProcess3()
    ensures ProcessRow(CloseOnlyAfter3, CloseOnlyRow1, 3) == map[]
  {
    CloseOnlyProcess3Matches();
  }

  lemma CloseOnlyJoin4()
    ensures AddResults(CloseOnlyAfter3, map[]) == CloseOnlyAfter4
  {
    AddResultsIs(CloseOnlyAfter3, map[], CloseOnlyAfter4);
  }

  lemma CloseOnlyStep3(k: Index, row: seq<bool>)
    requires k == CloseOnlyAfter3 && row == CloseOnlyRow1
    ensures AddResults(k, ProcessRow(k, row, 3)) == CloseOnlyAfter4
  {
    CloseOnlyProcess3();
    CloseOnlyJoin4();
  }

  lemma CloseOnlyPrefix4(grid: Grid)
    requires |grid| > 3 && forall t :: 0 <= t <= 3 ==> grid[t] == CLOSE_ONLY[t]
    ensures FindCandidates(grid[..4]) == CloseOnlyAfter4
  {
    assert grid[3] == CloseOnlyRow1;
    CloseOnlyPrefix3(grid);
    CloseOnlyStep3(FindCandidates(grid[..3]), grid[3]);
    FindCandidatesStep(grid, 3, CloseOnlyAfter4);
  }

  /** find_candidates over the grid in which only x matches y. */
  lemma CloseOnlyCandidates()
    ensures FindCandidates(CLOSE_ONLY) == map[1 := [(0, 0)]]
  {
    CloseOnlyPrefix4(CLOSE_ONLY);
    assert CLOSE_ONLY[..4] == CLOSE_ONLY;
  }

  lemma CloseOnlyBacktrack()
    ensures Backtrack(CloseOnlyAfter4, 0, (0, 0)) == []
  {
  }

  lemma CloseOnlyLcsOfIndex(k: Index)
    requires k == CloseOnlyAfter4 && IsFrontier(k)
    ensures LcsOfIndex(k) == [(0, 0)]
  {
    assert k.Keys == {1};
    TopIs(k, 1);
    CloseOnlyBacktrack();
    LcsOfIndexIs(k, 1, (0, 0), []);
  }

  /** lcs over the grid in which only x matches y. */
  lemma CloseOnlyLcs()
    ensures Lcs(CLOSE_ONLY) == [(0, 0)]
  {
    CloseOnlyCandidates();
    LcsOfCandidates(CLOSE_ONLY, CloseOnlyAfter4);
    CloseOnlyLcsOfIndex(CloseOnlyAfter4);
  }

  lemma CloseOnlyWalk()
    ensures DiffPoints.Walk([(0, 0)], 0, 0, 4, 4) == [DiffPoints.Unchanged(0, 0), DiffPoints.Deleted(1), DiffPoints.Deleted(2), DiffPoints.Deleted(3), DiffPoints.Added(1), DiffPoints.Added(2), DiffPoints.Added(3)]
  {
  }

  /** The operations of [x, y, y, y] against [y, y, y, y] when only x matches y. */
  lemma CloseOnlyOps<T>(x: T, y: T, cmp: (T, T) -> Outcome)
    requires cmp(x, y) == Close && !IsMatch(cmp(y, y))
    ensures Ops([x, y, y, y], [y, y, y, y], cmp) == [DiffPoints.Unchanged(0, 0), DiffPoints.Deleted(1), DiffPoints.Deleted(2), DiffPoints.Deleted(3), DiffPoints.Added(1), DiffPoints.Added(2), DiffPoints.Added(3)]
  {
    CloseOnlyGrid(x, y, cmp);
    CloseOnlyLcs();
    CloseOnlyWalk();
  }

  /** The records of those operations, with check_modified. */
  lemma CloseOnlyRecords<T>(x: T, y: T, cmp: (T, T) -> Outcome, A: seq<T>, B: seq<T>)
    requires cmp(x, y) == Close && A == [x, y, y, y] && B == [y, y, y, y]
    ensures Records(A, B, cmp, true, [DiffPoints.Unchanged(0, 0), DiffPoints.Deleted(1), DiffPoints.Deleted(2), DiffPoints.Deleted(3), DiffPoints.Added(1), DiffPoints.Added(2), DiffPoints.Added(3)]) == [Modified(x, y), Deleted(y), Deleted(y), Deleted(y), Added(y), Added(y), Added(y)]
  {
    RecordsAt(A, B, cmp, true, [DiffPoints.Unchanged(0, 0), DiffPoints.Deleted(1), DiffPoints.Deleted(2), DiffPoints.Deleted(3), DiffPoints.Added(1), DiffPoints.Added(2), DiffPoints.Added(3)]);
  }

  /** When y does not match itself, x is reported as modified into the first y and the other elements are deleted, then added. */
  lemma CloseOnlyDiff<T>(x: T, y: T, cmp: (T, T) -> Outcome)
    requires cmp(x, y) == Close && !IsMatch(cmp(y, y))
    ensures Diff([x, y, y, y], [y, y, y, y], cmp, true) == [Modified(x, y), Deleted(y), Deleted(y), Deleted(y), Added(y), Added(y), Added(y)]
  {
    CloseOnlyOps(x, y, cmp);
    CloseOnlyRecords(x, y, cmp, [x, y, y, y], [y, y, y, y]);
  }

  /**
    An element x Close to y, diffed as the first of [x, y, y, y] against
    [y, y, y, y] with check_modified: the first record is modified, whether
    or not y matches itself.
   */
  lemma CloseFirstModified<T>(x: T, y: T, cmp: (T, T) -> Outcome)
    requires cmp(x, y) == Close
    ensures Diff([x, y, y, y], [y, y, y, y], cmp, true)[0] == Modified(x, y)
  {
    if IsMatch(cmp(y, y)) {
      DiffAlongDiagonal([x, y, y, y], [y, y, y, y], cmp, true);
    } else {
      CloseOnlyDiff(x, y, cmp);
    }
  }

  /** A value that is Close to every value whose key it lists, and Equal to one with the same key. */
  datatype Fake = Fake(key: int, closeTo: seq<int>)

  function FakeCompare(a: Fake, b: Fake): Outcome
  {
    if b.key in a.closeTo then Close else if a.key == b.key then Equal else Different
  }

  const C1: Fake := Fake(1, [2, 3])
  const C2: Fake := Fake(2, [1, 3])
  const C3: Fake := Fake(10, [])
  const C4: Fake := Fake(2, [])
  const C5: Fake := Fake(3, [])

  const FakeRow0: seq<bool> := [true, true]
  const FakeRow2: seq<bool> := [false, false]
  const FAKE: Grid := [FakeRow0, FakeRow0, FakeRow2]

  lemma FakeGridRow0()
    ensures CreateGrid([C1, C2, C3], [C4, C5], FakeCompare)[0] == FakeRow0
  {
    GridRowIs([C1, C2, C3], [C4, C5], FakeCompare, 0, FakeRow0);
  }

  lemma FakeGridRow1()
    ensures CreateGrid([C1, C2, C3], [C4, C5], FakeCompare)[1] == FakeRow0
  {
    GridRowIs([C1, C2, C3], [C4, C5], FakeCompare, 1, FakeRow0);
  }

  lemma FakeGridRow2()
    ensures CreateGrid([C1, C2, C3], [C4, C5], FakeCompare)[2] == FakeRow2
  {
    GridRowIs([C1, C2, C3], [C4, C5], FakeCompare, 2, FakeRow2);
  }

  /** create_grid of [c1, c2, c3] against [c4, c5]. */
  lemma FakeGrid()
    ensures CreateGrid([C1, C2, C3], [C4, C5], FakeCompare) == FAKE
  {
    var grid := CreateGrid([C1, C2, C3], [C4, C5], FakeCompare);
    FakeGridRow0();
    FakeGridRow1();
    FakeGridRow2();
    assert grid == [grid[0], grid[1], grid[2]];
  }

  /** The candidate indexes find_candidates builds over the grid of [c1, c2, c3] against [c4, c5], row by row. */
  const FakeAfter1: Index := map[1 := [(0, 0)]]
  const FakeAfter2: Index := map[1 := [(0, 0)], 2 := [(1, 1)]]
  const FakeAfter3: Index := map[1 := [(0, 0)], 2 := [(1, 1)]]

  lemma FakeProcess0Matches()
    ensures FindMatches(FakeRow0, 0) == [(0, 0), (0, 1)]
  {
  }

  lemma FakeProcess0Checks()
    ensures CheckMatch((0, 0), EmptyIndex) == Some(1)
    ensures CheckMatch((0, 1), EmptyIndex) == Some(1)
  {
    TopPredecessorBucketIs(EmptyIndex, (0, 0), 0);
    TopPredecessorBucketIs(EmptyIndex, (0, 1), 0);
  }

  lemma FakeProcess0Place()
    ensures PlaceAnswers([(0, 0), (0, 1)], [Some(1), Some(1)]) == map[1 := [(0, 0)]]
  {
    assert PlaceAnswers([(0, 0)], [Some(1)]) == map[1 := [(0, 0)]];
  }

  lemma FakeProcess0()
    ensures ProcessRow(EmptyIndex, FakeRow0, 0) == map[1 := [(0, 0)]]
  {
    FakeProcess0Matches();
    FakeProcess0Checks();
    ProcessRowByAnswers(EmptyIndex, FakeRow0, 0, [(0, 0), (0, 1)], [Some(1), Some(1)]);
    FakeProcess0Place();
  }

  lemma FakeJoin1()
    ensures AddResults(EmptyIndex, map[1 := [(0, 0)]]) == FakeAfter1
  {
    AddResultsIs(EmptyIndex, map[1 := [(0, 0)]], FakeAfter1);
  }

  lemma FakeStep0(k: Index, row: seq<bool>)
    requires k == EmptyIndex && row == FakeRow0
    ensures AddResults(k, ProcessRow(k, row, 0)) == FakeAfter1
  {
    FakeProcess0();
    FakeJoin1();
  }

  lemma FakePrefix1(grid: Grid)
    requires |grid| > 0 && forall t :: 0 <= t <= 0 ==> grid[t] == FAKE[t]
    ensures FindCandidates(grid[..1]) == FakeAfter1
  {
    assert grid[0] == FakeRow0;
    assert grid[..0] == [];
    FakeStep0(FindCandidates(grid[..0]), grid[0]);
    FindCandidatesStep(grid, 0, FakeAfter1);
  }

  lemma FakeProcess1Matches()
    ensures FindMatches(FakeRow0, 1) == [(1, 0), (1, 1)]
  {
  }

  lemma FakeProcess1Checks()
    ensures CheckMatch((1, 0), FakeAfter1) == None
    ensures CheckMatch((1, 1), FakeAfter1) == Some(2)
  {
    TopPredecessorBucketIs(FakeAfter1, (1, 0), 0);
    assert (0, 0) in FakeAfter1[1];
    TopPredecessorBucketIs(FakeAfter1, (1, 1), 1);
  }

  lemma FakeProcess1Place()
    ensures PlaceAnswers([(1, 0), (1, 1)], [None, Some(2)]) == map[2 := [(1, 1)]]
  {
    assert PlaceAnswers([(1, 0)], [None]) == map[];
  }

  lemma FakeProcess1()
    ensures ProcessRow(FakeAfter1, FakeRow0, 1) == map[2 := [(1, 1)]]
  {
    FakeProcess1Matches();
    FakeProcess1Checks();
    ProcessRowByAnswers(FakeAfter1, FakeRow0, 1, [(1, 0), (1, 1)], [None, Some(2)]);
    FakeProcess1Place();
  }

  lemma FakeJoin2()
    ensures AddResults(FakeAfter1, map[2 := [(1, 1)]]) == FakeAfter2
  {
    AddResultsIs(FakeAfter1, map[2 := [(1, 1)]], FakeAfter2);
  }

  lemma FakeStep1(k: Index, row: seq<bool>)
    requires k == FakeAfter1 && row == FakeRow0
    ensures AddResults(k, ProcessRow(k, row, 1)) == FakeAfter2
  {
    FakeProcess1();
    FakeJoin2();
  }

  lemma FakePrefix2(grid: Grid)
    requires |grid| > 1 && forall t :: 0 <= t <= 1 ==> grid[t] == FAKE[t]
    ensures FindCandidates(grid[..2]) == FakeAfter2
  {
    assert grid[1] == FakeRow0;
    FakePrefix1(grid);
    FakeStep1(FindCandidates(grid[..1]), grid[1]);
    FindCandidatesStep(grid, 1, FakeAfter2);
  }

  lemma FakeProcess2Matches()
    ensures FindMatches(FakeRow2, 2) == []
  {
  }

  lemma FakeProcess2()
    ensures ProcessRow(FakeAfter2, FakeRow2, 2) == map[]
  {
    FakeProcess2Matches();
  }

  lemma FakeJoin3()
    ensures AddResults(FakeAfter2, map[]) == FakeAfter3
  {
    AddResultsIs(FakeAfter2, map[], FakeAfter3);
  }

  lemma FakeStep2(k: Index, row: seq<bool>)
    requires k == FakeAfter2 && row == FakeRow2
    ensures AddResults(k, ProcessRow(k, row, 2)) == FakeAfter3
  {
    FakeProcess2();
    FakeJoin3();
  }

  lemma FakePrefix3(grid: Grid)
    requires |grid| > 2 && forall t :: 0 <= t <= 2 ==> grid[t] == FAKE[t]
    ensures FindCandidates(grid[..3]) == FakeAfter3
  {
    assert grid[2] == FakeRow2;
    FakePrefix2(grid);
    FakeStep2(FindCandidates(grid[..2]), grid[2]);
    FindCandidatesStep(grid, 2, FakeAfter3);
  }

  /** find_candidates over the grid of [c1, c2, c3] against [c4, c5]. */
  lemma FakeCandidates()
    ensures FindCandidates(FAKE) == map[1 := [(0, 0)], 2 := [(1, 1)]]
  {
    FakePrefix3(FAKE);
    assert FAKE[..3] == FAKE;
  }

  lemma FakeBacktrack()
    ensures Backtrack(FakeAfter3, 1, (1, 1)) == [(0, 0)]
  {
  }

  lemma FakeLcsOfIndex(k: Index)
    requires k == FakeAfter3 && IsFrontier(k)
    ensures LcsOfIndex(k) == [(0, 0), (1, 1)]
  {
    assert k.Keys == {1, 2};
    TopIs(k, 2);
    FakeBacktrack();
    LcsOfIndexIs(k, 2, (1, 1), [(0, 0)]);
  }

  /** lcs over the grid of [c1, c2, c3] against [c4, c5]. */
  lemma FakeLcs()
    ensures Lcs(FAKE) == [(0, 0), (1, 1)]
  {
    FakeCandidates();
    LcsOfCandidates(FAKE, FakeAfter3);
    FakeLcsOfIndex(FakeAfter3);
  }

  lemma FakeWalk()
    ensures DiffPoints.Walk([(0, 0), (1, 1)], 0, 0, 3, 2) == [DiffPoints.Unchanged(0, 0), DiffPoints.Unchanged(1, 1), DiffPoints.Deleted(2)]
  {
  }

  /** With check_modified, c1 and c2 are reported as modified into c4 and c5, and c3 as deleted. */
  lemma FakeDiff()
    ensures Diff([C1, C2, C3], [C4, C5], FakeCompare, true) == [Modified(C1, C4), Modified(C2, C5), Deleted(C3)]
  {
    FakeGrid();
    FakeLcs();
    FakeWalk();
    assert Ops([C1, C2, C3], [C4, C5], FakeCompare) == [DiffPoints.Unchanged(0, 0), DiffPoints.Unchanged(1, 1), DiffPoints.Deleted(2)];
    RecordsAt([C1, C2, C3], [C4, C5], FakeCompare, true, Ops([C1, C2, C3], [C4, C5], FakeCompare));
  }
}
