/**
  The create_grid and find_matches cases over "abcabba" and "cbabac".
 */
module GridVectors {
  import opened Comparison
  import opened MatchGrid
  import opened VectorSupport

  /** The rows of the abcabba grid: the matches of a, b and c against "cbabac". */
  const RowA: seq<bool> := [false, false, true, false, true, false]
  const RowB: seq<bool> := [false, true, false, true, false, false]
  const RowC: seq<bool> := [true, false, false, false, false, true]

  /** create_grid("abcabba", "cbabac"), the grid of the find_candidates and lcs cases. */
  const ABCABBA: Grid := [RowA, RowB, RowC, RowA, RowB, RowB, RowA]

  lemma AbcGridRow0()
    ensures CreateGrid("abcabba", "cbabac", PlainCompare)[0] == RowA
  {
    GridRowIs("abcabba", "cbabac", PlainCompare, 0, RowA);
  }

  lemma AbcGridRow1()
    ensures CreateGrid("abcabba", "cbabac", PlainCompare)[1] == RowB
  {
    GridRowIs("abcabba", "cbabac", PlainCompare, 1, RowB);
  }

  lemma AbcGridRow2()
    ensures CreateGrid("abcabba", "cbabac", PlainCompare)[2] == RowC
  {
    GridRowIs("abcabba", "cbabac", PlainCompare, 2, RowC);
  }

  lemma AbcGridRow3()
    ensures CreateGrid("abcabba", "cbabac", PlainCompare)[3] == RowA
  {
    GridRowIs("abcabba", "cbabac", PlainCompare, 3, RowA);
  }

  lemma AbcGridRow4()
    ensures CreateGrid("abcabba", "cbabac", PlainCompare)[4] == RowB
  {
    GridRowIs("abcabba", "cbabac", PlainCompare, 4, RowB);
  }

  lemma AbcGridRow5()
    ensures CreateGrid("abcabba", "cbabac", PlainCompare)[5] == RowB
  {
    GridRowIs("abcabba", "cbabac", PlainCompare, 5, RowB);
  }

  lemma AbcGridRow6()
    ensures CreateGrid("abcabba", "cbabac", PlainCompare)[6] == RowA
  {
    GridRowIs("abcabba", "cbabac", PlainCompare, 6, RowA);
  }

  /** create_grid of "abcabba" against "cbabac", row by row. */
  lemma CreateGridExample()
    ensures CreateGrid("abcabba", "cbabac", PlainCompare) == ABCABBA
  {
    var grid := CreateGrid("abcabba", "cbabac", PlainCompare);
    AbcGridRow0();
    AbcGridRow1();
    AbcGridRow2();
    AbcGridRow3();
    AbcGridRow4();
    AbcGridRow5();
    AbcGridRow6();
    assert grid == [grid[0], grid[1], grid[2], grid[3], grid[4], grid[5], grid[6]];
  }

  /** create_grid of "cabcdef" against "abdef" has no empty row. */
  lemma CreateGridRowsNonEmpty()
    ensures forall i :: 0 <= i < |CreateGrid("cabcdef", "abdef", PlainCompare)| ==> |CreateGrid("cabcdef", "abdef", PlainCompare)[i]| == 5
  {
  }

  /** find_matches on the first row of the abcabba grid. */
  lemma FindMatchesExample()
    ensures FindMatches(CreateGrid("abcabba", "cbabac", PlainCompare)[0], 0) == [(0, 2), (0, 4)]
  {
    AbcGridRow0();
  }
}
