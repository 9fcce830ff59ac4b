/**
  The remaining find_candidates and lcs cases: the altered abcabba grid,
  the narrow grid, a grid of all matches and a grid of none.
 */
module LcsVectors {
  import opened Options
  import opened MatchGrid
  import opened Candidates
  import opened LcsExtraction
  import opened FullGrid
  import opened VectorSupport
  import opened GridVectors

  /** The abcabba grid with the match at (1, 1) removed. */
  const RowBAlt: seq<bool> := [false, false, false, true, false, false]
  const ALTERED: Grid := [RowA, RowBAlt, RowC, RowA, RowB, RowB, RowA]

  /** Seven rows of three columns, the last two matching. */
  const RowNarrow: seq<bool> := [false, true, true]
  const NARROW: Grid := [RowNarrow, RowNarrow, RowNarrow, RowNarrow, RowNarrow, RowNarrow, RowNarrow]

  /** Seven rows of six columns, every cell matching. */
  const RowFull: seq<bool> := [true, true, true, true, true, true]
  const FULL: Grid := [RowFull, RowFull, RowFull, RowFull, RowFull, RowFull, RowFull]

  /** The candidate indexes find_candidates builds over the altered abcabba grid, row by row. */
  const AltAfter1: Index := map[1 := [(0, 2)]]
  const AltAfter2: Index := map[1 := [(0, 2)], 2 := [(1, 3)]]
  const AltAfter3: Index := map[1 := [(0, 2), (2, 0)], 2 := [(1, 3)], 3 := [(2, 5)]]
  const AltAfter4: Index := map[1 := [(0, 2), (2, 0)], 2 := [(1, 3), (3, 2)], 3 := [(2, 5), (3, 4)]]
  const AltAfter5: Index := map[1 := [(0, 2), (2, 0)], 2 := [(1, 3), (3, 2), (4, 1)], 3 := [(2, 5), (3, 4), (4, 3)]]
  const AltAfter6: Index := map[1 := [(0, 2), (2, 0)], 2 := [(1, 3), (3, 2), (4, 1)], 3 := [(2, 5), (3, 4), (4, 3)]]
  const AltAfter7: Index := map[1 := [(0, 2), (2, 0)], 2 := [(1, 3), (3, 2), (4, 1)], 3 := [(2, 5), (3, 4), (4, 3), (6, 2)], 4 := [(6, 4)]]

  lemma AltProcess0Matches()
    ensures FindMatches(RowA, 0) == [(0, 2), (0, 4)]
  {
  }

  lemma AltProcess0Checks()
    ensures CheckMatch((0, 2), EmptyIndex) == Some(1)
    ensures CheckMatch((0, 4), EmptyIndex) == Some(1)
  {
    TopPredecessorBucketIs(EmptyIndex, (0, 2), 0);
    TopPredecessorBucketIs(EmptyIndex, (0, 4), 0);
  }

  lemma AltProcess0Place()
    ensures PlaceAnswers([(0, 2), (0, 4)], [Some(1), Some(1)]) == map[1 := [(0, 2)]]
  {
    assert PlaceAnswers([(0, 2)], [Some(1)]) == map[1 := [(0, 2)]];
  }

  lemma AltProcess0()
    ensures ProcessRow(EmptyIndex, RowA, 0) == map[1 := [(0, 2)]]
  {
    AltProcess0Matches();
    AltProcess0Checks();
    ProcessRowByAnswers(EmptyIndex, RowA, 0, [(0, 2), (0, 4)], [Some(1), Some(1)]);
    AltProcess0Place();
  }

  lemma AltJoin1()
    ensures AddResults(EmptyIndex, map[1 := [(0, 2)]]) == AltAfter1
  {
    AddResultsIs(EmptyIndex, map[1 := [(0, 2)]], AltAfter1);
  }

  lemma AltStep0(k: Index, row: seq<bool>)
    requires k == EmptyIndex && row == RowA
    ensures AddResults(k, ProcessRow(k, row, 0)) == AltAfter1
  {
    AltProcess0();
    AltJoin1();
  }

  lemma AltPrefix1(grid: Grid)
    requires |grid| > 0 && forall t :: 0 <= t <= 0 ==> grid[t] == ALTERED[t]
    ensures FindCandidates(grid[..1]) == AltAfter1
  {
    assert grid[0] == RowA;
    assert grid[..0] == [];
    AltStep0(FindCandidates(grid[..0]), grid[0]);
    FindCandidatesStep(grid, 0, AltAfter1);
  }

  lemma AltProcess1Matches()
    ensures FindMatches(RowBAlt, 1) == [(1, 3)]
  {
  }

  lemma AltProcess1Checks()
    ensures CheckMatch((1, 3), AltAfter1) == Some(2)
  {
    assert (0, 2) in AltAfter1[1];
    TopPredecessorBucketIs(AltAfter1, (1, 3), 1);
  }

  lemma AltProcess1Place()
    ensures PlaceAnswers([(1, 3)], [Some(2)]) == map[2 := [(1, 3)]]
  {
  }

  lemma AltProcess1()
    ensures ProcessRow(AltAfter1, RowBAlt, 1) == map[2 := [(1, 3)]]
  {
    AltProcess1Matches();
    AltProcess1Checks();
    ProcessRowByAnswers(AltAfter1, RowBAlt, 1, [(1, 3)], [Some(2)]);
    AltProcess1Place();
  }

  lemma AltJoin2()
    ensures AddResults(AltAfter1, map[2 := [(1, 3)]]) == AltAfter2
  {
    AddResultsIs(AltAfter1, map[2 := [(1, 3)]], AltAfter2);
  }

  lemma AltStep1(k: Index, row: seq<bool>)
    requires k == AltAfter1 && row == RowBAlt
    ensures AddResults(k, ProcessRow(k, row, 1)) == AltAfter2
  {
    AltProcess1();
    AltJoin2();
  }

  lemma AltPrefix2(grid: Grid)
    requires |grid| > 1 && forall t :: 0 <= t <= 1 ==> grid[t] == ALTERED[t]
    ensures FindCandidates(grid[..2]) == AltAfter2
  {
    assert grid[1] == RowBAlt;
    AltPrefix1(grid);
    AltStep1(FindCandidates(grid[..1]), grid[1]);
    FindCandidatesStep(grid, 1, AltAfter2);
  }

  lemma AltProcess2Matches()
    ensures FindMatches(RowC, 2) == [(2, 0), (2, 5)]
  {
  }

  lemma AltProcess2Checks()
    ensures CheckMatch((2, 0), AltAfter2) == Some(1)
    ensures CheckMatch((2, 5), AltAfter2) == Some(3)
  {
    TopPredecessorBucketIs(AltAfter2, (2, 0), 0);
    assert (1, 3) in AltAfter2[2];
    TopPredecessorBucketIs(AltAfter2, (2, 5), 2);
  }

  lemma AltProcess2Place()
    ensures PlaceAnswers([(2, 0), (2, 5)], [Some(1), Some(3)]) == map[1 := [(2, 0)], 3 := [(2, 5)]]
  {
    assert PlaceAnswers([(2, 0)], [Some(1)]) == map[1 := [(2, 0)]];
  }

  lemma AltProcess2()
    ensures ProcessRow(AltAfter2, RowC, 2) == map[1 := [(2, 0)], 3 := [(2, 5)]]
  {
    AltProcess2Matches();
    AltProcess2Checks();
    ProcessRowByAnswers(AltAfter2, RowC, 2, [(2, 0), (2, 5)], [Some(1), Some(3)]);
    AltProcess2Place();
  }

  lemma AltJoin3()
    ensures AddResults(AltAfter2, map[1 := [(2, 0)], 3 := [(2, 5)]]) == AltAfter3
  {
    AddResultsIs(AltAfter2, map[1 := [(2, 0)], 3 := [(2, 5)]], AltAfter3);
  }

  lemma AltStep2(k: Index, row: seq<bool>)
    requires k == AltAfter2 && row == RowC
    ensures AddResults(k, ProcessRow(k, row, 2)) == AltAfter3
  {
    AltProcess2();
    AltJoin3();
  }

  lemma AltPrefix3(grid: Grid)
    requires |grid| > 2 && forall t :: 0 <= t <= 2 ==> grid[t] == ALTERED[t]
    ensures FindCandidates(grid[..3]) == AltAfter3
  {
    assert grid[2] == RowC;
    AltPrefix2(grid);
    AltStep2(FindCandidates(grid[..2]), grid[2]);
    FindCandidatesStep(grid, 2, AltAfter3);
  }

  lemma AltProcess3Matches()
    ensures FindMatches(RowA, 3) == [(3, 2), (3, 4)]
  {
  }

  lemma AltProcess3Checks()
    ensures CheckMatch((3, 2), AltAfter3) == Some(2)
    ensures CheckMatch((3, 4), AltAfter3) == Some(3)
  {
    assert (2, 0) in AltAfter3[1];
    TopPredecessorBucketIs(AltAfter3, (3, 2), 1);
    assert (1, 3) in AltAfter3[2];
    TopPredecessorBucketIs(AltAfter3, (3, 4), 2);
  }

  lemma AltProcess3Place()
    ensures PlaceAnswers([(3, 2), (3, 4)], [Some(2), Some(3)]) == map[2 := [(3, 2)], 3 := [(3, 4)]]
  {
    assert PlaceAnswers([(3, 2)], [Some(2)]) == map[2 := [(3, 2)]];
  }

  lemma AltProcess3()
    ensures ProcessRow(AltAfter3, RowA, 3) == map[2 := [(3, 2)], 3 := [(3, 4)]]
  {
    AltProcess3Matches();
    AltProcess3Checks();
    ProcessRowByAnswers(AltAfter3, RowA, 3, [(3, 2), (3, 4)], [Some(2), Some(3)]);
    AltProcess3Place();
  }

  lemma AltJoin4()
    ensures AddResults(AltAfter3, map[2 := [(3, 2)], 3 := [(3, 4)]]) == AltAfter4
  {
    AddResultsIs(AltAfter3, map[2 := [(3, 2)], 3 := [(3, 4)]], AltAfter4);
  }

  lemma AltStep3(k: Index, row: seq<bool>)
    requires k == AltAfter3 && row == RowA
    ensures AddResults(k, ProcessRow(k, row, 3)) == AltAfter4
  {
    AltProcess3();
    AltJoin4();
  }

  lemma AltPrefix4(grid: Grid)
    requires |grid| > 3 && forall t :: 0 <= t <= 3 ==> grid[t] == ALTERED[t]
    ensures FindCandidates(grid[..4]) == AltAfter4
  {
    assert grid[3] == RowA;
    AltPrefix3(grid);
    AltStep3(FindCandidates(grid[..3]), grid[3]);
    FindCandidatesStep(grid, 3, AltAfter4);
  }

  lemma AltProcess4Matches()
    ensures FindMatches(RowB, 4) == [(4, 1), (4, 3)]
  {
  }

  lemma AltProcess4Checks()
    ensures CheckMatch((4, 1), AltAfter4) == Some(2)
    ensures CheckMatch((4, 3), AltAfter4) == Some(3)
  {
    assert (2, 0) in AltAfter4[1];
    TopPredecessorBucketIs(AltAfter4, (4, 1), 1);
    assert (3, 2) in AltAfter4[2];
    TopPredecessorBucketIs(AltAfter4, (4, 3), 2);
  }

  lemma AltProcess4Place()
    ensures PlaceAnswers([(4, 1), (4, 3)], [Some(2), Some(3)]) == map[2 := [(4, 1)], 3 := [(4, 3)]]
  {
    assert PlaceAnswers([(4, 1)], [Some(2)]) == map[2 := [(4, 1)]];
  }

  lemma AltProcess4()
    ensures ProcessRow(AltAfter4, RowB, 4) == map[2 := [(4, 1)], 3 := [(4, 3)]]
  {
    AltProcess4Matches();
    AltProcess4Checks();
    ProcessRowByAnswers(AltAfter4, RowB, 4, [(4, 1), (4, 3)], [Some(2), Some(3)]);
    AltProcess4Place();
  }

  lemma AltJoin5()
    ensures AddResults(AltAfter4, map[2 := [(4, 1)], 3 := [(4, 3)]]) == AltAfter5
  {
    AddResultsIs(AltAfter4, map[2 := [(4, 1)], 3 := [(4, 3)]], AltAfter5);
  }

  lemma AltStep4(k: Index, row: seq<bool>)
    requires k == AltAfter4 && row == RowB
    ensures AddResults(k, ProcessRow(k, row, 4)) == AltAfter5
  {
    AltProcess4();
    AltJoin5();
  }

  lemma AltPrefix5(grid: Grid)
    requires |grid| > 4 && forall t :: 0 <= t <= 4 ==> grid[t] == ALTERED[t]
    ensures FindCandidates(grid[..5]) == AltAfter5
  {
    assert grid[4] == RowB;
    AltPrefix4(grid);
    AltStep4(FindCandidates(grid[..4]), grid[4]);
    FindCandidatesStep(grid, 4, AltAfter5);
  }

  lemma AltProcess5Matches()
    ensures FindMatches(RowB, 5) == [(5, 1), (5, 3)]
  {
  }

  lemma AltProcess5Checks()
    ensures CheckMatch((5, 1), AltAfter5) == None
    ensures CheckMatch((5, 3), AltAfter5) == None
  {
    assert (2, 0) in AltAfter5[1];
    TopPredecessorBucketIs(AltAfter5, (5, 1), 1);
    assert (3, 2) in AltAfter5[2];
    TopPredecessorBucketIs(AltAfter5, (5, 3), 2);
  }

  lemma AltProcess5Place()
    ensures PlaceAnswers([(5, 1), (5, 3)], [None, None]) == map[]
  {
    assert PlaceAnswers([(5, 1)], [None]) == map[];
  }

  lemma AltProcess5()
    ensures ProcessRow(AltAfter5, RowB, 5) == map[]
  {
    AltProcess5Matches();
    AltProcess5Checks();
    ProcessRowByAnswers(AltAfter5, RowB, 5, [(5, 1), (5, 3)], [None, None]);
    AltProcess5Place();
  }

  lemma AltJoin6()
    ensures AddResults(AltAfter5, map[]) == AltAfter6
  {
    AddResultsIs(AltAfter5, map[], AltAfter6);
  }

  lemma AltStep5(k: Index, row: seq<bool>)
    requires k == AltAfter5 && row == RowB
    ensures AddResults(k, ProcessRow(k, row, 5)) == AltAfter6
  {
    AltProcess5();
    AltJoin6();
  }

  lemma AltPrefix6(grid: Grid)
    requires |grid| > 5 && forall t :: 0 <= t <= 5 ==> grid[t] == ALTERED[t]
    ensures FindCandidates(grid[..6]) == AltAfter6
  {
    assert grid[5] == RowB;
    AltPrefix5(grid);
    AltStep5(FindCandidates(grid[..5]), grid[5]);
    FindCandidatesStep(grid, 5, AltAfter6);
  }

  lemma AltProcess6Matches()
    ensures FindMatches(RowA, 6) == [(6, 2), (6, 4)]
  {
  }

  lemma AltProcess6Checks()
    ensures CheckMatch((6, 2), AltAfter6) == Some(3)
    ensures CheckMatch((6, 4), AltAfter6) == Some(4)
  {
    assert (4, 1) in AltAfter6[2];
    TopPredecessorBucketIs(AltAfter6, (6, 2), 2);
    assert (4, 3) in AltAfter6[3];
    TopPredecessorBucketIs(AltAfter6, (6, 4), 3);
  }

  lemma AltProcess6Place()
    ensures PlaceAnswers([(6, 2), (6, 4)], [Some(3), Some(4)]) == map[3 := [(6, 2)], 4 := [(6, 4)]]
  {
    assert PlaceAnswers([(6, 2)], [Some(3)]) == map[3 := [(6, 2)]];
  }

  lemma AltProcess6()
    ensures ProcessRow(AltAfter6, RowA, 6) == map[3 := [(6, 2)], 4 := [(6, 4)]]
  {
    AltProcess6Matches();
    AltProcess6Checks();
    ProcessRowByAnswers(AltAfter6, RowA, 6, [(6, 2), (6, 4)], [Some(3), Some(4)]);
    AltProcess6Place();
  }

  lemma AltJoin7()
    ensures AddResults(AltAfter6, map[3 := [(6, 2)], 4 := [(6, 4)]]) == AltAfter7
  {
    AddResultsIs(AltAfter6, map[3 := [(6, 2)], 4 := [(6, 4)]], AltAfter7);
  }

  lemma AltStep6(k: Index, row: seq<bool>)
    requires k == AltAfter6 && row == RowA
    ensures AddResults(k, ProcessRow(k, row, 6)) == AltAfter7
  {
    AltProcess6();
    AltJoin7();
  }

  lemma AltPrefix7(grid: Grid)
    requires |grid| > 6 && forall t :: 0 <= t <= 6 ==> grid[t] == ALTERED[t]
    ensures FindCandidates(grid[..7]) == AltAfter7
  {
    assert grid[6] == RowA;
    AltPrefix6(grid);
    AltStep6(FindCandidates(grid[..6]), grid[6]);
    FindCandidatesStep(grid, 6, AltAfter7);
  }

  /** find_candidates over the altered abcabba grid. */
  lemma AltCandidates()
    ensures FindCandidates(ALTERED) == map[1 := [(0, 2), (2, 0)], 2 := [(1, 3), (3, 2), (4, 1)], 3 := [(2, 5), (3, 4), (4, 3), (6, 2)], 4 := [(6, 4)]]
  {
    AltPrefix7(ALTERED);
    assert ALTERED[..7] == ALTERED;
  }

  lemma AltBacktrack()
    ensures Backtrack(AltAfter7, 3, (6, 4)) == [(2, 0), (3, 2), (4, 3)]
  {
  }

  lemma AltLcsOfIndex(k: Index)
    requires k == AltAfter7 && IsFrontier(k)
    ensures LcsOfIndex(k) == [(2, 0), (3, 2), (4, 3), (6, 4)]
  {
    assert k.Keys == {1, 2, 3, 4};
    TopIs(k, 4);
    AltBacktrack();
    LcsOfIndexIs(k, 4, (6, 4), [(2, 0), (3, 2), (4, 3)]);
  }

  /** lcs over the altered abcabba grid. */
  lemma AltLcs()
    ensures Lcs(ALTERED) == [(2, 0), (3, 2), (4, 3), (6, 4)]
  {
    AltCandidates();
    LcsOfCandidates(ALTERED, AltAfter7);
    AltLcsOfIndex(AltAfter7);
  }

  /** The candidate indexes find_candidates builds over the narrow grid, row by row. */
  const NarrowAfter1: Index := map[1 := [(0, 1)]]
  const NarrowAfter2: Index := map[1 := [(0, 1)], 2 := [(1, 2)]]
  const NarrowAfter3: Index := map[1 := [(0, 1)], 2 := [(1, 2)]]
  const NarrowAfter4: Index := map[1 := [(0, 1)], 2 := [(1, 2)]]
  const NarrowAfter5: Index := map[1 := [(0, 1)], 2 := [(1, 2)]]
  const NarrowAfter6: Index := map[1 := [(0, 1)], 2 := [(1, 2)]]
  const NarrowAfter7: Index := map[1 := [(0, 1)], 2 := [(1, 2)]]

  lemma NarrowProcess0Matches()
    ensures FindMatches(RowNarrow, 0) == [(0, 1), (0, 2)]
  {
  }

  lemma NarrowProcess0Checks()
    ensures CheckMatch((0, 1), EmptyIndex) == Some(1)
    ensures CheckMatch((0, 2), EmptyIndex) == Some(1)
  {
    TopPredecessorBucketIs(EmptyIndex, (0, 1), 0);
    TopPredecessorBucketIs(EmptyIndex, (0, 2), 0);
  }

  lemma NarrowProcess0Place()
    ensures PlaceAnswers([(0, 1), (0, 2)], [Some(1), Some(1)]) == map[1 := [(0, 1)]]
  {
    assert PlaceAnswers([(0, 1)], [Some(1)]) == map[1 := [(0, 1)]];
  }

  lemma NarrowProcess0()
    ensures ProcessRow(EmptyIndex, RowNarrow, 0) == map[1 := [(0, 1)]]
  {
    NarrowProcess0Matches();
    NarrowProcess0Checks();
    ProcessRowByAnswers(EmptyIndex, RowNarrow, 0, [(0, 1), (0, 2)], [Some(1), Some(1)]);
    NarrowProcess0Place();
  }

  lemma NarrowJoin1()
    ensures AddResults(EmptyIndex, map[1 := [(0, 1)]]) == NarrowAfter1
  {
    AddResultsIs(EmptyIndex, map[1 := [(0, 1)]], NarrowAfter1);
  }

  lemma NarrowStep0(k: Index, row: seq<bool>)
    requires k == EmptyIndex && row == RowNarrow
    ensures AddResults(k, ProcessRow(k, row, 0)) == NarrowAfter1
  {
    NarrowProcess0();
    NarrowJoin1();
  }

  lemma NarrowPrefix1(grid: Grid)
    requires |grid| > 0 && forall t :: 0 <= t <= 0 ==> grid[t] == NARROW[t]
    ensures FindCandidates(grid[..1]) == NarrowAfter1
  {
    assert grid[0] == RowNarrow;
    assert grid[..0] == [];
    NarrowStep0(FindCandidates(grid[..0]), grid[0]);
    FindCandidatesStep(grid, 0, NarrowAfter1);
  }

  lemma NarrowProcess1Matches()
    ensures FindMatches(RowNarrow, 1) == [(1, 1), (1, 2)]
  {
  }

  lemma NarrowProcess1Checks()
    ensures CheckMatch((1, 1), NarrowAfter1) == None
    ensures CheckMatch((1, 2), NarrowAfter1) == Some(2)
  {
    TopPredecessorBucketIs(NarrowAfter1, (1, 1), 0);
    assert (0, 1) in NarrowAfter1[1];
    TopPredecessorBucketIs(NarrowAfter1, (1, 2), 1);
  }

  lemma NarrowProcess1Place()
    ensures PlaceAnswers([(1, 1), (1, 2)], [None, Some(2)]) == map[2 := [(1, 2)]]
  {
    assert PlaceAnswers([(1, 1)], [None]) == map[];
  }

  lemma NarrowProcess1()
    ensures ProcessRow(NarrowAfter1, RowNarrow, 1) == map[2 := [(1, 2)]]
  {
    NarrowProcess1Matches();
    NarrowProcess1Checks();
    ProcessRowByAnswers(NarrowAfter1, RowNarrow, 1, [(1, 1), (1, 2)], [None, Some(2)]);
    NarrowProcess1Place();
  }

  lemma NarrowJoin2()
    ensures AddResults(NarrowAfter1, map[2 := [(1, 2)]]) == NarrowAfter2
  {
    AddResultsIs(NarrowAfter1, map[2 := [(1, 2)]], NarrowAfter2);
  }

  lemma NarrowStep1(k: Index, row: seq<bool>)
    requires k == NarrowAfter1 && row == RowNarrow
    ensures AddResults(k, ProcessRow(k, row, 1)) == NarrowAfter2
  {
    NarrowProcess1();
    NarrowJoin2();
  }

  lemma NarrowPrefix2(grid: Grid)
    requires |grid| > 1 && forall t :: 0 <= t <= 1 ==> grid[t] == NARROW[t]
    ensures FindCandidates(grid[..2]) == NarrowAfter2
  {
    assert grid[1] == RowNarrow;
    NarrowPrefix1(grid);
    NarrowStep1(FindCandidates(grid[..1]), grid[1]);
    FindCandidatesStep(grid, 1, NarrowAfter2);
  }

  lemma NarrowProcess2Matches()
    ensures FindMatches(RowNarrow, 2) == [(2, 1), (2, 2)]
  {
  }

  lemma NarrowProcess2Checks()
    ensures CheckMatch((2, 1), NarrowAfter2) == None
    ensures CheckMatch((2, 2), NarrowAfter2) == None
  {
    TopPredecessorBucketIs(NarrowAfter2, (2, 1), 0);
    assert (0, 1) in NarrowAfter2[1];
    TopPredecessorBucketIs(NarrowAfter2, (2, 2), 1);
  }

  lemma NarrowProcess2Place()
    ensures PlaceAnswers([(2, 1), (2, 2)], [None, None]) == map[]
  {
    assert PlaceAnswers([(2, 1)], [None]) == map[];
  }

  lemma NarrowProcess2()
    ensures ProcessRow(NarrowAfter2, RowNarrow, 2) == map[]
  {
    NarrowProcess2Matches();
    NarrowProcess2Checks();
    ProcessRowByAnswers(NarrowAfter2, RowNarrow, 2, [(2, 1), (2, 2)], [None, None]);
    NarrowProcess2Place();
  }

  lemma NarrowJoin3()
    ensures AddResults(NarrowAfter2, map[]) == NarrowAfter3
  {
    AddResultsIs(NarrowAfter2, map[], NarrowAfter3);
  }

  lemma NarrowStep2(k: Index, row: seq<bool>)
    requires k == NarrowAfter2 && row == RowNarrow
    ensures AddResults(k, ProcessRow(k, row, 2)) == NarrowAfter3
  {
    NarrowProcess2();
    NarrowJoin3();
  }

  lemma NarrowPrefix3(grid: Grid)
    requires |grid| > 2 && forall t :: 0 <= t <= 2 ==> grid[t] == NARROW[t]
    ensures FindCandidates(grid[..3]) == NarrowAfter3
  {
    assert grid[2] == RowNarrow;
    NarrowPrefix2(grid);
    NarrowStep2(FindCandidates(grid[..2]), grid[2]);
    FindCandidatesStep(grid, 2, NarrowAfter3);
  }

  lemma NarrowProcess3Matches()
    ensures FindMatches(RowNarrow, 3) == [(3, 1), (3, 2)]
  {
  }

  lemma NarrowProcess3Checks()
    ensures CheckMatch((3, 1), NarrowAfter3) == None
    ensures CheckMatch((3, 2), NarrowAfter3) == None
  {
    TopPredecessorBucketIs(NarrowAfter3, (3, 1), 0);
    assert (0, 1) in NarrowAfter3[1];
    TopPredecessorBucketIs(NarrowAfter3, (3, 2), 1);
  }

  lemma NarrowProcess3Place()
    ensures PlaceAnswers([(3, 1), (3, 2)], [None, None]) == map[]
  {
    assert PlaceAnswers([(3, 1)], [None]) == map[];
  }

  lemma NarrowProcess3()
    ensures ProcessRow(NarrowAfter3, RowNarrow, 3) == map[]
  {
    NarrowProcess3Matches();
    NarrowProcess3Checks();
    ProcessRowByAnswers(NarrowAfter3, RowNarrow, 3, [(3, 1), (3, 2)], [None, None]);
    NarrowProcess3Place();
  }

  lemma NarrowJoin4()
    ensures AddResults(NarrowAfter3, map[]) == NarrowAfter4
  {
    AddResultsIs(NarrowAfter3, map[], NarrowAfter4);
  }

  lemma NarrowStep3(k: Index, row: seq<bool>)
    requires k == NarrowAfter3 && row == RowNarrow
    ensures AddResults(k, ProcessRow(k, row, 3)) == NarrowAfter4
  {
    NarrowProcess3();
    NarrowJoin4();
  }

  lemma NarrowPrefix4(grid: Grid)
    requires |grid| > 3 && forall t :: 0 <= t <= 3 ==> grid[t] == NARROW[t]
    ensures FindCandidates(grid[..4]) == NarrowAfter4
  {
    assert grid[3] == RowNarrow;
    NarrowPrefix3(grid);
    NarrowStep3(FindCandidates(grid[..3]), grid[3]);
    FindCandidatesStep(grid, 3, NarrowAfter4);
  }

  lemma NarrowProcess4Matches()
    ensures FindMatches(RowNarrow, 4) == [(4, 1), (4, 2)]
  {
  }

  lemma NarrowProcess4Checks()
    ensures CheckMatch((4, 1), NarrowAfter4) == None
    ensures CheckMatch((4, 2), NarrowAfter4) == None
  {
    TopPredecessorBucketIs(NarrowAfter4, (4, 1), 0);
    assert (0, 1) in NarrowAfter4[1];
    TopPredecessorBucketIs(NarrowAfter4, (4, 2), 1);
  }

  lemma NarrowProcess4Place()
    ensures PlaceAnswers([(4, 1), (4, 2)], [None, None]) == map[]
  {
    assert PlaceAnswers([(4, 1)], [None]) == map[];
  }

  lemma NarrowProcess4()
    ensures ProcessRow(NarrowAfter4, RowNarrow, 4) == map[]
  {
    NarrowProcess4Matches();
    NarrowProcess4Checks();
    ProcessRowByAnswers(NarrowAfter4, RowNarrow, 4, [(4, 1), (4, 2)], [None, None]);
    NarrowProcess4Place();
  }

  lemma NarrowJoin5()
    ensures AddResults(NarrowAfter4, map[]) == NarrowAfter5
  {
    AddResultsIs(NarrowAfter4, map[], NarrowAfter5);
  }

  lemma NarrowStep4(k: Index, row: seq<bool>)
    requires k == NarrowAfter4 && row == RowNarrow
    ensures AddResults(k, ProcessRow(k, row, 4)) == NarrowAfter5
  {
    NarrowProcess4();
    NarrowJoin5();
  }

  lemma NarrowPrefix5(grid: Grid)
    requires |grid| > 4 && forall t :: 0 <= t <= 4 ==> grid[t] == NARROW[t]
    ensures FindCandidates(grid[..5]) == NarrowAfter5
  {
    assert grid[4] == RowNarrow;
    NarrowPrefix4(grid);
    NarrowStep4(FindCandidates(grid[..4]), grid[4]);
    FindCandidatesStep(grid, 4, NarrowAfter5);
  }

  lemma NarrowProcess5Matches()
    ensures FindMatches(RowNarrow, 5) == [(5, 1), (5, 2)]
  {
  }

  lemma NarrowProcess5Checks()
    ensures CheckMatch((5, 1), NarrowAfter5) == None
    ensures CheckMatch((5, 2), NarrowAfter5) == None
  {
    TopPredecessorBucketIs(NarrowAfter5, (5, 1), 0);
    assert (0, 1) in NarrowAfter5[1];
    TopPredecessorBucketIs(NarrowAfter5, (5, 2), 1);
  }

  lemma NarrowProcess5Place()
    ensures PlaceAnswers([(5, 1), (5, 2)], [None, None]) == map[]
  {
    assert PlaceAnswers([(5, 1)], [None]) == map[];
  }

  lemma NarrowProcess5()
    ensures ProcessRow(NarrowAfter5, RowNarrow, 5) == map[]
  {
    NarrowProcess5Matches();
    NarrowProcess5Checks();
    ProcessRowByAnswers(NarrowAfter5, RowNarrow, 5, [(5, 1), (5, 2)], [None, None]);
    NarrowProcess5Place();
  }

  lemma NarrowJoin6()
    ensures AddResults(NarrowAfter5, map[]) == NarrowAfter6
  {
    AddResultsIs(NarrowAfter5, map[], NarrowAfter6);
  }

  lemma NarrowStep5(k: Index, row: seq<bool>)
    requires k == NarrowAfter5 && row == RowNarrow
    ensures AddResults(k, ProcessRow(k, row, 5)) == NarrowAfter6
  {
    NarrowProcess5();
    NarrowJoin6();
  }

  lemma NarrowPrefix6(grid: Grid)
    requires |grid| > 5 && forall t :: 0 <= t <= 5 ==> grid[t] == NARROW[t]
    ensures FindCandidates(grid[..6]) == NarrowAfter6
  {
    assert grid[5] == RowNarrow;
    NarrowPrefix5(grid);
    NarrowStep5(FindCandidates(grid[..5]), grid[5]);
    FindCandidatesStep(grid, 5, NarrowAfter6);
  }

  lemma NarrowProcess6Matches()
    ensures FindMatches(RowNarrow, 6) == [(6, 1), (6, 2)]
  {
  }

  lemma NarrowProcess6Checks()
    ensures CheckMatch((6, 1), NarrowAfter6) == None
    ensures CheckMatch((6, 2), NarrowAfter6) == None
  {
    TopPredecessorBucketIs(NarrowAfter6, (6, 1), 0);
    assert (0, 1) in NarrowAfter6[1];
    TopPredecessorBucketIs(NarrowAfter6, (6, 2), 1);
  }

  lemma NarrowProcess6Place()
    ensures PlaceAnswers([(6, 1), (6, 2)], [None, None]) == map[]
  {
    assert PlaceAnswers([(6, 1)], [None]) == map[];
  }

  lemma NarrowProcess6()
    ensures ProcessRow(NarrowAfter6, RowNarrow, 6) == map[]
  {
    NarrowProcess6Matches();
    NarrowProcess6Checks();
    ProcessRowByAnswers(NarrowAfter6, RowNarrow, 6, [(6, 1), (6, 2)], [None, None]);
    NarrowProcess6Place();
  }

  lemma NarrowJoin7()
    ensures AddResults(NarrowAfter6, map[]) == NarrowAfter7
  {
    AddResultsIs(NarrowAfter6, map[], NarrowAfter7);
  }

  lemma NarrowStep6(k: Index, row: seq<bool>)
    requires k == NarrowAfter6 && row == RowNarrow
    ensures AddResults(k, ProcessRow(k, row, 6)) == NarrowAfter7
  {
    NarrowProcess6();
    NarrowJoin7();
  }

  lemma NarrowPrefix7(grid: Grid)
    requires |grid| > 6 && forall t :: 0 <= t <= 6 ==> grid[t] == NARROW[t]
    ensures FindCandidates(grid[..7]) == NarrowAfter7
  {
    assert grid[6] == RowNarrow;
    NarrowPrefix6(grid);
    NarrowStep6(FindCandidates(grid[..6]), grid[6]);
    FindCandidatesStep(grid, 6, NarrowAfter7);
  }

  /** find_candidates over the narrow grid. */
  lemma NarrowCandidates()
    ensures FindCandidates(NARROW) == map[1 := [(0, 1)], 2 := [(1, 2)]]
  {
    NarrowPrefix7(NARROW);
    assert NARROW[..7] == NARROW;
  }

  lemma NarrowBacktrack()
    ensures Backtrack(NarrowAfter7, 1, (1, 2)) == [(0, 1)]
  {
  }

  lemma NarrowLcsOfIndex(k: Index)
    requires k == NarrowAfter7 && IsFrontier(k)
    ensures LcsOfIndex(k) == [(0, 1), (1, 2)]
  {
    assert k.Keys == {1, 2};
    TopIs(k, 2);
    NarrowBacktrack();
    LcsOfIndexIs(k, 2, (1, 2), [(0, 1)]);
  }

  /** lcs over the narrow grid. */
  lemma NarrowLcs()
    ensures Lcs(NARROW) == [(0, 1), (1, 2)]
  {
    NarrowCandidates();
    LcsOfCandidates(NARROW, NarrowAfter7);
    NarrowLcsOfIndex(NarrowAfter7);
  }

  /** lcs over a grid of all matches is its leading diagonal. */
  lemma FullLcs()
    ensures Lcs(FULL) == [(0, 0), (1, 1), (2, 2), (3, 3), (4, 4), (5, 5)]
  {
    assert IsFull(FULL, 6);
    LcsOfFullGrid(FULL, 6);
  }

  /** lcs over a grid with no match is empty. */
  lemma NoEqualsLcs()
    ensures Lcs([[false, false], [false, false]]) == []
  {
    LcsWithoutMatches([[false, false], [false, false]]);
  }
}
