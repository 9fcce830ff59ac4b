/**
  The check_match, process_col and add_results cases, each on literal
  indexes and rows.
 */
module CandidateVectors {
  import opened Options
  import opened MatchGrid
  import opened Candidates
  import opened VectorSupport

  /** check_match, case 1. */
  lemma CheckMatch1()
    ensures CheckMatch((1, 3), map[1 := [(0, 2)]]) == Some(2)
  {
    assert (0, 2) in map[1 := [(0, 2)]][1];
    TopPredecessorBucketIs(map[1 := [(0, 2)]], (1, 3), 1);
  }

  /** check_match, case 2. */
  lemma CheckMatch2()
    ensures CheckMatch((1, 1), map[1 := [(0, 2)]]) == Some(1)
  {
    TopPredecessorBucketIs(map[1 := [(0, 2)]], (1, 1), 0);
  }

  /** check_match, case 3. */
  lemma CheckMatch3()
    ensures CheckMatch((1, 2), map[1 := [(0, 2)]]) == None
  {
    TopPredecessorBucketIs(map[1 := [(0, 2)]], (1, 2), 0);
  }

  /** check_match, case 4. */
  lemma CheckMatch4()
    ensures CheckMatch((3, 4), map[1 := [(0, 2), (1, 1), (2, 0)], 2 := [(1, 3)], 3 := [(2, 5)]]) == Some(3)
  {
    assert (1, 3) in map[1 := [(0, 2), (1, 1), (2, 0)], 2 := [(1, 3)], 3 := [(2, 5)]][2];
    TopPredecessorBucketIs(map[1 := [(0, 2), (1, 1), (2, 0)], 2 := [(1, 3)], 3 := [(2, 5)]], (3, 4), 2);
  }

  /** check_match, case 5. */
  lemma CheckMatch5()
    ensures CheckMatch((2, 0), map[1 := [(0, 2), (1, 1)], 2 := [(1, 3)]]) == Some(1)
  {
    TopPredecessorBucketIs(map[1 := [(0, 2), (1, 1)], 2 := [(1, 3)]], (2, 0), 0);
  }

  /** check_match, case 6. */
  lemma CheckMatch6()
    ensures CheckMatch((5, 1), map[1 := [(0, 2), (1, 1), (2, 0)], 2 := [(1, 3), (3, 2), (4, 1)], 3 := [(2, 5), (3, 4), (4, 3)]]) == None
  {
    assert (2, 0) in map[1 := [(0, 2), (1, 1), (2, 0)], 2 := [(1, 3), (3, 2), (4, 1)], 3 := [(2, 5), (3, 4), (4, 3)]][1];
    TopPredecessorBucketIs(map[1 := [(0, 2), (1, 1), (2, 0)], 2 := [(1, 3), (3, 2), (4, 1)], 3 := [(2, 5), (3, 4), (4, 3)]], (5, 1), 1);
  }

  /** check_match, case 7. */
  lemma CheckMatch7()
    ensures CheckMatch((2, 1), map[1 := [(0, 1)], 2 := [(1, 2)]]) == None
  {
    TopPredecessorBucketIs(map[1 := [(0, 1)], 2 := [(1, 2)]], (2, 1), 0);
  }

  lemma ProcessCol1Matches()
    ensures FindMatches([false, true, false, true, false, false], 1) == [(1, 1), (1, 3)]
  {
  }

  lemma ProcessCol1Checks()
    ensures CheckMatch((1, 1), map[1 := [(0, 2)]]) == Some(1)
    ensures CheckMatch((1, 3), map[1 := [(0, 2)]]) == Some(2)
  {
    TopPredecessorBucketIs(map[1 := [(0, 2)]], (1, 1), 0);
    assert (0, 2) in map[1 := [(0, 2)]][1];
    TopPredecessorBucketIs(map[1 := [(0, 2)]], (1, 3), 1);
  }

  lemma ProcessCol1Place()
    ensures PlaceAnswers([(1, 1), (1, 3)], [Some(1), Some(2)]) == map[1 := [(1, 1)], 2 := [(1, 3)]]
  {
    assert PlaceAnswers([(1, 1)], [Some(1)]) == map[1 := [(1, 1)]];
  }

  /** process_col, case 1. */
  lemma ProcessCol1()
    ensures ProcessRow(map[1 := [(0, 2)]], [false, true, false, true, false, false], 1) == map[1 := [(1, 1)], 2 := [(1, 3)]]
  {
    ProcessCol1Matches();
    ProcessCol1Checks();
    ProcessRowByAnswers(map[1 := [(0, 2)]], [false, true, false, true, false, false], 1, [(1, 1), (1, 3)], [Some(1), Some(2)]);
    ProcessCol1Place();
  }

  lemma ProcessCol2Matches()
    ensures FindMatches([false, true, false, true, false, false], 1) == [(1, 1), (1, 3)]
  {
  }

  lemma ProcessCol2Checks()
    ensures CheckMatch((1, 1), map[]) == Some(1)
    ensures CheckMatch((1, 3), map[]) == Some(1)
  {
    TopPredecessorBucketIs(map[], (1, 1), 0);
    TopPredecessorBucketIs(map[], (1, 3), 0);
  }

  lemma ProcessCol2Place()
    ensures PlaceAnswers([(1, 1), (1, 3)], [Some(1), Some(1)]) == map[1 := [(1, 1)]]
  {
    assert PlaceAnswers([(1, 1)], [Some(1)]) == map[1 := [(1, 1)]];
  }

  /** process_col, case 2. */
  lemma ProcessCol2()
    ensures ProcessRow(map[], [false, true, false, true, false, false], 1) == map[1 := [(1, 1)]]
  {
    ProcessCol2Matches();
    ProcessCol2Checks();
    ProcessRowByAnswers(map[], [false, true, false, true, false, false], 1, [(1, 1), (1, 3)], [Some(1), Some(1)]);
    ProcessCol2Place();
  }

  lemma ProcessCol3Matches()
    ensures FindMatches([false, true, false, true, false, true], 1) == [(1, 1), (1, 3), (1, 5)]
  {
  }

  lemma ProcessCol3Checks()
    ensures CheckMatch((1, 1), map[1 := [(0, 2)]]) == Some(1)
    ensures CheckMatch((1, 3), map[1 := [(0, 2)]]) == Some(2)
    ensures CheckMatch((1, 5), map[1 := [(0, 2)]]) == Some(2)
  {
    TopPredecessorBucketIs(map[1 := [(0, 2)]], (1, 1), 0);
    assert (0, 2) in map[1 := [(0, 2)]][1];
    TopPredecessorBucketIs(map[1 := [(0, 2)]], (1, 3), 1);
    assert (0, 2) in map[1 := [(0, 2)]][1];
    TopPredecessorBucketIs(map[1 := [(0, 2)]], (1, 5), 1);
  }

  lemma ProcessCol3Place()
    ensures PlaceAnswers([(1, 1), (1, 3), (1, 5)], [Some(1), Some(2), Some(2)]) == map[1 := [(1, 1)], 2 := [(1, 3)]]
  {
    assert PlaceAnswers([(1, 1)], [Some(1)]) == map[1 := [(1, 1)]];
    assert PlaceAnswers([(1, 1), (1, 3)], [Some(1), Some(2)]) == map[1 := [(1, 1)], 2 := [(1, 3)]];
  }

  /** process_col, case 3. */
  lemma ProcessCol3()
    ensures ProcessRow(map[1 := [(0, 2)]], [false, true, false, true, false, true], 1) == map[1 := [(1, 1)], 2 := [(1, 3)]]
  {
    ProcessCol3Matches();
    ProcessCol3Checks();
    ProcessRowByAnswers(map[1 := [(0, 2)]], [false, true, false, true, false, true], 1, [(1, 1), (1, 3), (1, 5)], [Some(1), Some(2), Some(2)]);
    ProcessCol3Place();
  }

  lemma ProcessCol4Matches()
    ensures FindMatches([false, false, false, false, true, false], 3) == [(3, 4)]
  {
  }

  lemma ProcessCol4Checks()
    ensures CheckMatch((3, 4), map[1 := [(0, 2), (1, 1), (2, 0)], 2 := [(1, 3)], 3 := [(2, 5)]]) == Some(3)
  {
    assert (1, 3) in map[1 := [(0, 2), (1, 1), (2, 0)], 2 := [(1, 3)], 3 := [(2, 5)]][2];
    TopPredecessorBucketIs(map[1 := [(0, 2), (1, 1), (2, 0)], 2 := [(1, 3)], 3 := [(2, 5)]], (3, 4), 2);
  }

  lemma ProcessCol4Place()
    ensures PlaceAnswers([(3, 4)], [Some(3)]) == map[3 := [(3, 4)]]
  {
  }

  /** process_col, case 4. */
  lemma ProcessCol4()
    ensures ProcessRow(map[1 := [(0, 2), (1, 1), (2, 0)], 2 := [(1, 3)], 3 := [(2, 5)]], [false, false, false, false, true, false], 3) == map[3 := [(3, 4)]]
  {
    ProcessCol4Matches();
    ProcessCol4Checks();
    ProcessRowByAnswers(map[1 := [(0, 2), (1, 1), (2, 0)], 2 := [(1, 3)], 3 := [(2, 5)]], [false, false, false, false, true, false], 3, [(3, 4)], [Some(3)]);
    ProcessCol4Place();
  }

  lemma ProcessCol5Matches()
    ensures FindMatches([false, true, true], 1) == [(1, 1), (1, 2)]
  {
  }

  lemma ProcessCol5Checks()
    ensures CheckMatch((1, 1), map[1 := [(0, 1)]]) == None
    ensures CheckMatch((1, 2), map[1 := [(0, 1)]]) == Some(2)
  {
    TopPredecessorBucketIs(map[1 := [(0, 1)]], (1, 1), 0);
    assert (0, 1) in map[1 := [(0, 1)]][1];
    TopPredecessorBucketIs(map[1 := [(0, 1)]], (1, 2), 1);
  }

  lemma ProcessCol5Place()
    ensures PlaceAnswers([(1, 1), (1, 2)], [None, Some(2)]) == map[2 := [(1, 2)]]
  {
    assert PlaceAnswers([(1, 1)], [None]) == map[];
  }

  /** process_col, case 5. */
  lemma ProcessCol5()
    ensures ProcessRow(map[1 := [(0, 1)]], [false, true, true], 1) == map[2 := [(1, 2)]]
  {
    ProcessCol5Matches();
    ProcessCol5Checks();
    ProcessRowByAnswers(map[1 := [(0, 1)]], [false, true, true], 1, [(1, 1), (1, 2)], [None, Some(2)]);
    ProcessCol5Place();
  }

  lemma ProcessCol6Matches()
    ensures FindMatches([false, true, true], 2) == [(2, 1), (2, 2)]
  {
  }

  lemma ProcessCol6Checks()
    ensures CheckMatch((2, 1), map[1 := [(0, 1)], 2 := [(1, 2)]]) == None
    ensures CheckMatch((2, 2), map[1 := [(0, 1)], 2 := [(1, 2)]]) == None
  {
    TopPredecessorBucketIs(map[1 := [(0, 1)], 2 := [(1, 2)]], (2, 1), 0);
    assert (0, 1) in map[1 := [(0, 1)], 2 := [(1, 2)]][1];
    TopPredecessorBucketIs(map[1 := [(0, 1)], 2 := [(1, 2)]], (2, 2), 1);
  }

  lemma ProcessCol6Place()
    ensures PlaceAnswers([(2, 1), (2, 2)], [None, None]) == map[]
  {
    assert PlaceAnswers([(2, 1)], [None]) == map[];
  }

  /** process_col, case 6. */
  lemma ProcessCol6()
    ensures ProcessRow(map[1 := [(0, 1)], 2 := [(1, 2)]], [false, true, true], 2) == map[]
  {
    ProcessCol6Matches();
    ProcessCol6Checks();
    ProcessRowByAnswers(map[1 := [(0, 1)], 2 := [(1, 2)]], [false, true, true], 2, [(2, 1), (2, 2)], [None, None]);
    ProcessCol6Place();
  }

  /** add_results appends each new bucket to the bucket of the same key. */
  lemma AddResultsExample()
    ensures AddResults(map[1 := [(0, 2)]], map[1 := [(1, 1)], 2 := [(1, 3)]]) == map[1 := [(0, 2), (1, 1)], 2 := [(1, 3)]]
  {
    AddResultsIs(map[1 := [(0, 2)]], map[1 := [(1, 1)], 2 := [(1, 3)]], map[1 := [(0, 2), (1, 1)], 2 := [(1, 3)]]);
  }
}
