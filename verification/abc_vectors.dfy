/**
  find_candidates and lcs over the abcabba grid, evaluated one row at a
  time so that no single proof unfolds the whole fold.
 */
module AbcVectors {
  import opened Options
  import opened MatchGrid
  import opened Candidates
  import opened LcsExtraction
  import opened VectorSupport
  import opened GridVectors

  /** The candidate indexes find_candidates builds over the abcabba grid, row by row. */
  const AbcAfter1: Index := map[1 := [(0, 2)]]
  const AbcAfter2: Index := map[1 := [(0, 2), (1, 1)], 2 := [(1, 3)]]
  const AbcAfter3: Index := map[1 := [(0, 2), (1, 1), (2, 0)], 2 := [(1, 3)], 3 := [(2, 5)]]
  const AbcAfter4: Index := map[1 := [(0, 2), (1, 1), (2, 0)], 2 := [(1, 3), (3, 2)], 3 := [(2, 5), (3, 4)]]
  const AbcAfter5: Index := map[1 := [(0, 2), (1, 1), (2, 0)], 2 := [(1, 3), (3, 2), (4, 1)], 3 := [(2, 5), (3, 4), (4, 3)]]
  const AbcAfter6: Index := map[1 := [(0, 2), (1, 1), (2, 0)], 2 := [(1, 3), (3, 2), (4, 1)], 3 := [(2, 5), (3, 4), (4, 3)]]
  const AbcAfter7: Index := map[1 := [(0, 2), (1, 1), (2, 0)], 2 := [(1, 3), (3, 2), (4, 1)], 3 := [(2, 5), (3, 4), (4, 3), (6, 2)], 4 := [(6, 4)]]

  lemma AbcProcess0Matches()
    ensures FindMatches(RowA, 0) == [(0, 2), (0, 4)]
  {
  }

  lemma AbcProcess0Checks()
    ensures CheckMatch((0, 2), EmptyIndex) == Some(1)
    ensures CheckMatch((0, 4), EmptyIndex) == Some(1)
  {
    TopPredecessorBucketIs(EmptyIndex, (0, 2), 0);
    TopPredecessorBucketIs(EmptyIndex, (0, 4), 0);
  }

  lemma AbcProcess0Place()
    ensures PlaceAnswers([(0, 2), (0, 4)], [Some(1), Some(1)]) == map[1 := [(0, 2)]]
  {
    assert PlaceAnswers([(0, 2)], [Some(1)]) == map[1 := [(0, 2)]];
  }

  lemma AbcProcess0()
    ensures ProcessRow(EmptyIndex, RowA, 0) == map[1 := [(0, 2)]]
  {
    AbcProcess0Matches();
    AbcProcess0Checks();
    ProcessRowByAnswers(EmptyIndex, RowA, 0, [(0, 2), (0, 4)], [Some(1), Some(1)]);
    AbcProcess0Place();
  }

  lemma AbcJoin1()
    ensures AddResults(EmptyIndex, map[1 := [(0, 2)]]) == AbcAfter1
  {
    AddResultsIs(EmptyIndex, map[1 := [(0, 2)]], AbcAfter1);
  }

  lemma AbcStep0(k: Index, row: seq<bool>)
    requires k == EmptyIndex && row == RowA
    ensures AddResults(k, ProcessRow(k, row, 0)) == AbcAfter1
  {
    AbcProcess0();
    AbcJoin1();
  }

  lemma AbcPrefix1(grid: Grid)
    requires |grid| > 0 && forall t :: 0 <= t <= 0 ==> grid[t] == ABCABBA[t]
    ensures FindCandidates(grid[..1]) == AbcAfter1
  {
    assert grid[0] == RowA;
    assert grid[..0] == [];
    AbcStep0(FindCandidates(grid[..0]), grid[0]);
    FindCandidatesStep(grid, 0, AbcAfter1);
  }

  lemma AbcProcess1Matches()
    ensures FindMatches(RowB, 1) == [(1, 1), (1, 3)]
  {
  }

  lemma AbcProcess1Checks()
    ensures CheckMatch((1, 1), AbcAfter1) == Some(1)
    ensures CheckMatch((1, 3), AbcAfter1) == Some(2)
  {
    TopPredecessorBucketIs(AbcAfter1, (1, 1), 0);
    assert (0, 2) in AbcAfter1[1];
    TopPredecessorBucketIs(AbcAfter1, (1, 3), 1);
  }

  lemma AbcProcess1Place()
    ensures PlaceAnswers([(1, 1), (1, 3)], [Some(1), Some(2)]) == map[1 := [(1, 1)], 2 := [(1, 3)]]
  {
    assert PlaceAnswers([(1, 1)], [Some(1)]) == map[1 := [(1, 1)]];
  }

  lemma AbcProcess1()
    ensures ProcessRow(AbcAfter1, RowB, 1) == map[1 := [(1, 1)], 2 := [(1, 3)]]
  {
    AbcProcess1Matches();
    AbcProcess1Checks();
    ProcessRowByAnswers(AbcAfter1, RowB, 1, [(1, 1), (1, 3)], [Some(1), Some(2)]);
    AbcProcess1Place();
  }

  lemma AbcJoin2()
    ensures AddResults(AbcAfter1, map[1 := [(1, 1)], 2 := [(1, 3)]]) == AbcAfter2
  {
    AddResultsIs(AbcAfter1, map[1 := [(1, 1)], 2 := [(1, 3)]], AbcAfter2);
  }

  lemma AbcStep1(k: Index, row: seq<bool>)
    requires k == AbcAfter1 && row == RowB
    ensures AddResults(k, ProcessRow(k, row, 1)) == AbcAfter2
  {
    AbcProcess1();
    AbcJoin2();
  }

  lemma AbcPrefix2(grid: Grid)
    requires |grid| > 1 && forall t :: 0 <= t <= 1 ==> grid[t] == ABCABBA[t]
    ensures FindCandidates(grid[..2]) == AbcAfter2
  {
    assert grid[1] == RowB;
    AbcPrefix1(grid);
    AbcStep1(FindCandidates(grid[..1]), grid[1]);
    FindCandidatesStep(grid, 1, AbcAfter2);
  }

  lemma AbcProcess2Matches()
    ensures FindMatches(RowC, 2) == [(2, 0), (2, 5)]
  {
  }

  lemma AbcProcess2Checks()
    ensures CheckMatch((2, 0), AbcAfter2) == Some(1)
    ensures CheckMatch((2, 5), AbcAfter2) == Some(3)
  {
    TopPredecessorBucketIs(AbcAfter2, (2, 0), 0);
    assert (1, 3) in AbcAfter2[2];
    TopPredecessorBucketIs(AbcAfter2, (2, 5), 2);
  }

  lemma AbcProcess2Place()
    ensures PlaceAnswers([(2, 0), (2, 5)], [Some(1), Some(3)]) == map[1 := [(2, 0)], 3 := [(2, 5)]]
  {
    assert PlaceAnswers([(2, 0)], [Some(1)]) == map[1 := [(2, 0)]];
  }

  lemma AbcProcess2()
    ensures ProcessRow(AbcAfter2, RowC, 2) == map[1 := [(2, 0)], 3 := [(2, 5)]]
  {
    AbcProcess2Matches();
    AbcProcess2Checks();
    ProcessRowByAnswers(AbcAfter2, RowC, 2, [(2, 0), (2, 5)], [Some(1), Some(3)]);
    AbcProcess2Place();
  }

  lemma AbcJoin3()
    ensures AddResults(AbcAfter2, map[1 := [(2, 0)], 3 := [(2, 5)]]) == AbcAfter3
  {
    AddResultsIs(AbcAfter2, map[1 := [(2, 0)], 3 := [(2, 5)]], AbcAfter3);
  }

  lemma AbcStep2(k: Index, row: seq<bool>)
    requires k == AbcAfter2 && row == RowC
    ensures AddResults(k, ProcessRow(k, row, 2)) == AbcAfter3
  {
    AbcProcess2();
    AbcJoin3();
  }

  lemma AbcPrefix3(grid: Grid)
    requires |grid| > 2 && forall t :: 0 <= t <= 2 ==> grid[t] == ABCABBA[t]
    ensures FindCandidates(grid[..3]) == AbcAfter3
  {
    assert grid[2] == RowC;
    AbcPrefix2(grid);
    AbcStep2(FindCandidates(grid[..2]), grid[2]);
    FindCandidatesStep(grid, 2, AbcAfter3);
  }

  lemma AbcProcess3Matches()
    ensures FindMatches(RowA, 3) == [(3, 2), (3, 4)]
  {
  }

  lemma AbcProcess3Checks()
    ensures CheckMatch((3, 2), AbcAfter3) == Some(2)
    ensures CheckMatch((3, 4), AbcAfter3) == Some(3)
  {
    assert (1, 1) in AbcAfter3[1];
    TopPredecessorBucketIs(AbcAfter3, (3, 2), 1);
    assert (1, 3) in AbcAfter3[2];
    TopPredecessorBucketIs(AbcAfter3, (3, 4), 2);
  }

  lemma AbcProcess3Place()
    ensures PlaceAnswers([(3, 2), (3, 4)], [Some(2), Some(3)]) == map[2 := [(3, 2)], 3 := [(3, 4)]]
  {
    assert PlaceAnswers([(3, 2)], [Some(2)]) == map[2 := [(3, 2)]];
  }

  lemma AbcProcess3()
    ensures ProcessRow(AbcAfter3, RowA, 3) == map[2 := [(3, 2)], 3 := [(3, 4)]]
  {
    AbcProcess3Matches();
    AbcProcess3Checks();
    ProcessRowByAnswers(AbcAfter3, RowA, 3, [(3, 2), (3, 4)], [Some(2), Some(3)]);
    AbcProcess3Place();
  }

  lemma AbcJoin4()
    ensures AddResults(AbcAfter3, map[2 := [(3, 2)], 3 := [(3, 4)]]) == AbcAfter4
  {
    AddResultsIs(AbcAfter3, map[2 := [(3, 2)], 3 := [(3, 4)]], AbcAfter4);
  }

  lemma AbcStep3(k: Index, row: seq<bool>)
    requires k == AbcAfter3 && row == RowA
    ensures AddResults(k, ProcessRow(k, row, 3)) == AbcAfter4
  {
    AbcProcess3();
    AbcJoin4();
  }

  lemma AbcPrefix4(grid: Grid)
    requires |grid| > 3 && forall t :: 0 <= t <= 3 ==> grid[t] == ABCABBA[t]
    ensures FindCandidates(grid[..4]) == AbcAfter4
  {
    assert grid[3] == RowA;
    AbcPrefix3(grid);
    AbcStep3(FindCandidates(grid[..3]), grid[3]);
    FindCandidatesStep(grid, 3, AbcAfter4);
  }

  lemma AbcProcess4Matches()
    ensures FindMatches(RowB, 4) == [(4, 1), (4, 3)]
  {
  }

  lemma AbcProcess4Checks()
    ensures CheckMatch((4, 1), AbcAfter4) == Some(2)
    ensures CheckMatch((4, 3), AbcAfter4) == Some(3)
  {
    assert (2, 0) in AbcAfter4[1];
    TopPredecessorBucketIs(AbcAfter4, (4, 1), 1);
    assert (3, 2) in AbcAfter4[2];
    TopPredecessorBucketIs(AbcAfter4, (4, 3), 2);
  }

  lemma AbcProcess4Place()
    ensures PlaceAnswers([(4, 1), (4, 3)], [Some(2), Some(3)]) == map[2 := [(4, 1)], 3 := [(4, 3)]]
  {
    assert PlaceAnswers([(4, 1)], [Some(2)]) == map[2 := [(4, 1)]];
  }

  lemma AbcProcess4()
    ensures ProcessRow(AbcAfter4, RowB, 4) == map[2 := [(4, 1)], 3 := [(4, 3)]]
  {
    AbcProcess4Matches();
    AbcProcess4Checks();
    ProcessRowByAnswers(AbcAfter4, RowB, 4, [(4, 1), (4, 3)], [Some(2), Some(3)]);
    AbcProcess4Place();
  }

  lemma AbcJoin5()
    ensures AddResults(AbcAfter4, map[2 := [(4, 1)], 3 := [(4, 3)]]) == AbcAfter5
  {
    AddResultsIs(AbcAfter4, map[2 := [(4, 1)], 3 := [(4, 3)]], AbcAfter5);
  }

  lemma AbcStep4(k: Index, row: seq<bool>)
    requires k == AbcAfter4 && row == RowB
    ensures AddResults(k, ProcessRow(k, row, 4)) == AbcAfter5
  {
    AbcProcess4();
    AbcJoin5();
  }

  lemma AbcPrefix5(grid: Grid)
    requires |grid| > 4 && forall t :: 0 <= t <= 4 ==> grid[t] == ABCABBA[t]
    ensures FindCandidates(grid[..5]) == AbcAfter5
  {
    assert grid[4] == RowB;
    AbcPrefix4(grid);
    AbcStep4(FindCandidates(grid[..4]), grid[4]);
    FindCandidatesStep(grid, 4, AbcAfter5);
  }

  lemma AbcProcess5Matches()
    ensures FindMatches(RowB, 5) == [(5, 1), (5, 3)]
  {
  }

  lemma AbcProcess5Checks()
    ensures CheckMatch((5, 1), AbcAfter5) == None
    ensures CheckMatch((5, 3), AbcAfter5) == None
  {
    assert (2, 0) in AbcAfter5[1];
    TopPredecessorBucketIs(AbcAfter5, (5, 1), 1);
    assert (3, 2) in AbcAfter5[2];
    TopPredecessorBucketIs(AbcAfter5, (5, 3), 2);
  }

  lemma AbcProcess5Place()
    ensures PlaceAnswers([(5, 1), (5, 3)], [None, None]) == map[]
  {
    assert PlaceAnswers([(5, 1)], [None]) == map[];
  }

  lemma AbcProcess5()
    ensures ProcessRow(AbcAfter5, RowB, 5) == map[]
  {
    AbcProcess5Matches();
    AbcProcess5Checks();
    ProcessRowByAnswers(AbcAfter5, RowB, 5, [(5, 1), (5, 3)], [None, None]);
    AbcProcess5Place();
  }

  lemma AbcJoin6()
    ensures AddResults(AbcAfter5, map[]) == AbcAfter6
  {
    AddResultsIs(AbcAfter5, map[], AbcAfter6);
  }

  lemma AbcStep5(k: Index, row: seq<bool>)
    requires k == AbcAfter5 && row == RowB
    ensures AddResults(k, ProcessRow(k, row, 5)) == AbcAfter6
  {
    AbcProcess5();
    AbcJoin6();
  }

  lemma AbcPrefix6(grid: Grid)
    requires |grid| > 5 && forall t :: 0 <= t <= 5 ==> grid[t] == ABCABBA[t]
    ensures FindCandidates(grid[..6]) == AbcAfter6
  {
    assert grid[5] == RowB;
    AbcPrefix5(grid);
    AbcStep5(FindCandidates(grid[..5]), grid[5]);
    FindCandidatesStep(grid, 5, AbcAfter6);
  }

  lemma AbcProcess6Matches()
    ensures FindMatches(RowA, 6) == [(6, 2), (6, 4)]
  {
  }

  lemma AbcProcess6Checks()
    ensures CheckMatch((6, 2), AbcAfter6) == Some(3)
    ensures CheckMatch((6, 4), AbcAfter6) == Some(4)
  {
    assert (4, 1) in AbcAfter6[2];
    TopPredecessorBucketIs(AbcAfter6, (6, 2), 2);
    assert (4, 3) in AbcAfter6[3];
    TopPredecessorBucketIs(AbcAfter6, (6, 4), 3);
  }

  lemma AbcProcess6Place()
    ensures PlaceAnswers([(6, 2), (6, 4)], [Some(3), Some(4)]) == map[3 := [(6, 2)], 4 := [(6, 4)]]
  {
    assert PlaceAnswers([(6, 2)], [Some(3)]) == map[3 := [(6, 2)]];
  }

  lemma AbcProcess6()
    ensures ProcessRow(AbcAfter6, RowA, 6) == map[3 := [(6, 2)], 4 := [(6, 4)]]
  {
    AbcProcess6Matches();
    AbcProcess6Checks();
    ProcessRowByAnswers(AbcAfter6, RowA, 6, [(6, 2), (6, 4)], [Some(3), Some(4)]);
    AbcProcess6Place();
  }

  lemma AbcJoin7()
    ensures AddResults(AbcAfter6, map[3 := [(6, 2)], 4 := [(6, 4)]]) == AbcAfter7
  {
    AddResultsIs(AbcAfter6, map[3 := [(6, 2)], 4 := [(6, 4)]], AbcAfter7);
  }

  lemma AbcStep6(k: Index, row: seq<bool>)
    requires k == AbcAfter6 && row == RowA
    ensures AddResults(k, ProcessRow(k, row, 6)) == AbcAfter7
  {
    AbcProcess6();
    AbcJoin7();
  }

  lemma AbcPrefix7(grid: Grid)
    requires |grid| > 6 && forall t :: 0 <= t <= 6 ==> grid[t] == ABCABBA[t]
    ensures FindCandidates(grid[..7]) == AbcAfter7
  {
    assert grid[6] == RowA;
    AbcPrefix6(grid);
    AbcStep6(FindCandidates(grid[..6]), grid[6]);
    FindCandidatesStep(grid, 6, AbcAfter7);
  }

  /** find_candidates over the abcabba grid. */
  lemma AbcCandidates()
    ensures FindCandidates(ABCABBA) == map[1 := [(0, 2), (1, 1), (2, 0)], 2 := [(1, 3), (3, 2), (4, 1)], 3 := [(2, 5), (3, 4), (4, 3), (6, 2)], 4 := [(6, 4)]]
  {
    AbcPrefix7(ABCABBA);
    assert ABCABBA[..7] == ABCABBA;
  }

  lemma AbcBacktrack()
    ensures Backtrack(AbcAfter7, 3, (6, 4)) == [(1, 1), (3, 2), (4, 3)]
  {
  }

  lemma AbcLcsOfIndex(k: Index)
    requires k == AbcAfter7 && IsFrontier(k)
    ensures LcsOfIndex(k) == [(1, 1), (3, 2), (4, 3), (6, 4)]
  {
    assert k.Keys == {1, 2, 3, 4};
    TopIs(k, 4);
    AbcBacktrack();
    LcsOfIndexIs(k, 4, (6, 4), [(1, 1), (3, 2), (4, 3)]);
  }

  /** lcs over the abcabba grid. */
  lemma AbcLcs()
    ensures Lcs(ABCABBA) == [(1, 1), (3, 2), (4, 3), (6, 4)]
  {
    AbcCandidates();
    LcsOfCandidates(ABCABBA, AbcAfter7);
    AbcLcsOfIndex(AbcAfter7);
  }
}
