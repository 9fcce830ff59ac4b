# nbdiff sequence differ, in Dafny

This project models the LCS-based sequence differ of the `nbdiff.diff` Python
module. The differ compares two sequences A and B, such as the lines of two
texts or the cells of two notebooks, and has five stages:

- `create_grid`: the match grid. `grid[i][j]` says whether `A[i]` matches
  `B[j]`.
- `find_matches`, `check_match`, `process_col`, `add_results` and
  `find_candidates`: a patience-sort-style candidate index. It maps a chain
  length c to the grid points that can end a chain of that length. The grid
  is scanned one row, i.e. one element of A, at a time.
- `lcs`: extracts one longest common subsequence from the index, as a list of
  anchor points.
- `diff_points`: walks the anchors. It emits `deleted`, `added` and
  `unchanged` operations; in each gap the deletions come before the
  additions.
- `diff(A, B, check_modified)`: resolves each operation into a record. With
  `check_modified`, a kept pair whose elements are only *close*, not equal,
  is reported as `modified`.

The implementation file `nbdiff/diff.py` is not part of this model. Its
behaviour is fixed function by function by the assertions of
`tests/test_diff.py`, and the model takes those assertions as its contract.
Every tested case is proved about the model as a lemma, by evaluation. The
general properties the cases illustrate are proved for all inputs:

- the grid's shape and meaning;
- `find_matches` returns exactly the true cells of a row;
- what `check_match` answers;
- one entry per bucket from `process_col`;
- the candidate index is a Pareto frontier of true cells;
- the extracted LCS is a chain, and no chain is longer;
- `diff_points` covers A and B exactly once each, in order;
- `diff` can be read back as A on one side and as B on the other.

Element comparison is a function parameter that returns an `Outcome`:
`Equal`, `Close` or `Different`. The grid counts both `Equal` and `Close` as
a match.

Files and modules:

- `options.dfy` (`Options`): the `Option` type that `check_match` returns.
- `comparison.dfy` (`Comparison`): comparison outcomes.
- `grid.dfy` (`MatchGrid`): `create_grid`, `find_matches`, chains.
- `candidates.dfy` (`Candidates`): `check_match`, `process_col`,
  `add_results`, `find_candidates`, and the frontier invariant.
- `lcs.dfy` (`LcsExtraction`): `lcs`, that its result is a chain, and that
  the result is longest.
- `full_grid.dfy` (`FullGrid`): the grid in which every cell matches.
- `diff_points.dfy` (`DiffPoints`): `diff_points` and its coverage.
- `differ.dfy` (`Differ`): `diff` and its records.
- `vector_support.dfy`, `grid_vectors.dfy`, `candidate_vectors.dfy`,
  `abc_vectors.dfy`, `lcs_vectors.dfy`, `diff_vectors.dfy`: the tested cases.

## Model

| member | source | states |
|---|---|---|
| MatchGrid.CreateGrid | tests/test_diff.py:17-35 | one row per element of A; every row has one cell per element of B; cell (i, j) is true exactly when comparing A[i] with B[j] gives Equal or Close |
| MatchGrid.FindMatches | tests/test_diff.py:177-192 | the matches of row i are exactly the points (i, j) whose cell is true, in strictly increasing column order |
| MatchGrid.MatchesFromSpec | tests/test_diff.py:177-192 | scanning a row from a column on lists exactly that row's true cells at or after that column, in increasing order |
| Candidates.TopPredecessorBucket | tests/test_diff.py:244-290 | the bucket found is the highest one holding an entry strictly above and left of the point, or 0 when no bucket holds such an entry |
| Candidates.CheckMatchJoins | tests/test_diff.py:244-290 | check_match answers bucket c exactly when c is one past the highest bucket holding a predecessor and bucket c is absent or lies wholly right of the point; it answers None exactly when that bucket exists and has an entry at or left of the point's column |
| Candidates.PlaceClaims | tests/test_diff.py:195-241 | in the fold over a row's matches, bucket c holds only the first match that check_match sends to c, and every bucket some match is sent to is present |
| Candidates.ProcessRowClaims | tests/test_diff.py:195-241 | process_col gives each bucket exactly one point: the smallest-column match of the row that check_match, judged against the index before the row, sends there; no other bucket appears |
| Candidates.AddResults | tests/test_diff.py:169-174 | the keys are those of either index; each bucket is the old bucket followed by the new one |
| Candidates.FindCandidatesIsFrontier | tests/test_diff.py:75-105 | the index of every grid has keys 1..top with no gaps; in each bucket rows strictly increase and columns strictly decrease; every entry of bucket c > 1 has a predecessor in bucket c - 1; every entry is a true cell |
| Candidates.NewEntries | tests/test_diff.py:195-241 | a row's new entries are true cells of that row; each lies left of every entry already in its bucket and has a predecessor in the bucket below |
| LcsExtraction.FirstPredecessorSpec | tests/test_diff.py:108-120 | backtracking takes the first entry of a bucket that precedes the point (ties go to the earlier entry), and finds none exactly when no entry precedes it |
| LcsExtraction.LcsOfIndex | tests/test_diff.py:108-159 | lcs of an empty index is empty; otherwise it is non-empty and ends at the first entry of the highest bucket |
| LcsExtraction.LcsEndsEarliest | tests/test_diff.py:108-159 | of the entries of the highest bucket, lcs ends at the one in the earliest row |
| LcsExtraction.BacktrackChain | tests/test_diff.py:108-159 | backtracking from a point with a predecessor in bucket b yields b points, one from each bucket 1..b, each preceding the next and the last preceding the point |
| LcsExtraction.LcsIsChain | tests/test_diff.py:108-159 | lcs returns true cells that strictly increase in both coordinates; its length is the largest key of the candidate index |
| LcsExtraction.FrontierBoundsChains | tests/test_diff.py:108-159 | every chain of the grid that ends at or before a point is matched by a bucket of its length holding an entry at or left of that point's column |
| LcsExtraction.LcsIsLongest | tests/test_diff.py:108-159 | no chain of true cells is longer than the result of lcs |
| LcsExtraction.LcsWithoutMatches | tests/test_diff.py:162-166 | a grid with no true cell has an empty lcs |
| FullGrid.FullPrefix | tests/test_diff.py:135-146 | on a grid of all matches, the candidate index after r rows holds bucket c = (c - 1, c - 1) for c = 1..min(r, width) |
| FullGrid.LcsOfFullGrid | tests/test_diff.py:135-146 | lcs of an m-by-n grid of all matches is the diagonal (0, 0) .. (min(m, n) - 1, min(m, n) - 1) |
| DiffPoints.DiffPointsCover | tests/test_diff.py:56-72 | diff_points lists every index of A once and every index of B once, both in increasing order; the kept pairs are exactly the lcs; there are len(A) + len(B) - len(lcs) operations; within each gap, deletions come before additions |
| DiffPoints.DiffPointsKeepMost | tests/test_diff.py:56-72 | diff_points keeps at least as many pairs as any chain of the grid has |
| DiffPoints.DiagonalGridOps | tests/test_diff.py:56-72 | on a square grid whose diagonal matches, every operation is unchanged, pairing each index with itself |
| Differ.Ops | tests/test_diff.py:56-72 | every operation of diff names only indices inside A and B |
| Differ.DiffBeforeIsA | tests/test_diff.py:370-376 | reading the old side of the records of diff(A, B) gives back A |
| Differ.DiffAfterIsB | tests/test_diff.py:370-376 | reading the new side gives back B, when Equal means identical and Close pairs are either reported as modified or never occur |
| Differ.DiffStates | tests/test_diff.py:386-403 | each record follows its operation: deletions and additions carry their element, and a kept pair is modified exactly when check_modified is on and the pair compares as Close |
| Differ.ModifiedMeansClose | tests/test_diff.py:370-403 | without check_modified no record is modified; every modified record pairs two elements that compare as Close |
| Differ.DiffSize | tests/test_diff.py:38-53 | diff has len(A) + len(B) - len(lcs) records and keeps at least as many pairs as any common subsequence has |
| Differ.LcsOfEmptySide | tests/test_diff.py:38-53 | a grid with no rows or no columns has an empty lcs |
| Differ.DiffToEmpty | tests/test_diff.py:44-47 | diffing against an empty sequence deletes every element of A, in order |
| Differ.DiffFromEmpty | tests/test_diff.py:50-53 | diffing from an empty sequence adds every element of B, in order |
| Differ.DiagonalOps | tests/test_diff.py:384-387 | two sequences of equal length that match position by position are diffed pair by pair, each pair unchanged |
| Differ.DiffAlongDiagonal | tests/test_diff.py:384-387 | in that case each record is Modified(A[t], B[t]) when check_modified is on and the pair is Close, and Unchanged(A[t]) otherwise |
| Differ.DiffOfSelf | tests/test_diff.py:370-376 | a sequence diffed against itself is entirely unchanged, when every element compares Equal to itself |
| GridVectors.CreateGridExample | tests/test_diff.py:17-31 | create_grid of "abcabba" against "cbabac" is the tested 7-by-6 grid |
| GridVectors.CreateGridRowsNonEmpty | tests/test_diff.py:33-35 | create_grid of "cabcdef" against "abdef" has no empty row |
| GridVectors.FindMatchesExample | tests/test_diff.py:177-192 | find_matches of the first row gives [(0, 2), (0, 4)] |
| CandidateVectors.CheckMatch1 | tests/test_diff.py:245-249 | (1, 3) over {1: [(0, 2)]} joins bucket 2 |
| CandidateVectors.CheckMatch2 | tests/test_diff.py:251-255 | (1, 1) over {1: [(0, 2)]} joins bucket 1 |
| CandidateVectors.CheckMatch3 | tests/test_diff.py:257-261 | (1, 2) over {1: [(0, 2)]} joins no bucket |
| CandidateVectors.CheckMatch4 | tests/test_diff.py:263-267 | (3, 4) joins bucket 3 |
| CandidateVectors.CheckMatch5 | tests/test_diff.py:269-273 | (2, 0) joins bucket 1 |
| CandidateVectors.CheckMatch6 | tests/test_diff.py:275-283 | (5, 1) joins no bucket |
| CandidateVectors.CheckMatch7 | tests/test_diff.py:286-290 | (2, 1) over {1: [(0, 1)], 2: [(1, 2)]} joins no bucket |
| CandidateVectors.ProcessCol1 | tests/test_diff.py:196-201 | process_col of the second abcabba row against {1: [(0, 2)]} |
| CandidateVectors.ProcessCol2 | tests/test_diff.py:203-208 | the same row against the empty index gives {1: [(1, 1)]} |
| CandidateVectors.ProcessCol3 | tests/test_diff.py:210-215 | (1, 5) is dropped because (1, 3) already took bucket 2 |
| CandidateVectors.ProcessCol4 | tests/test_diff.py:217-222 | a single match joins bucket 3 |
| CandidateVectors.ProcessCol5 | tests/test_diff.py:224-234 | the narrow row against {1: [(0, 1)]} gives {2: [(1, 2)]} |
| CandidateVectors.ProcessCol6 | tests/test_diff.py:236-241 | dominated matches contribute nothing: the result is empty |
| CandidateVectors.AddResultsExample | tests/test_diff.py:169-174 | {1: [(0, 2)]} plus {1: [(1, 1)], 2: [(1, 3)]} gives {1: [(0, 2), (1, 1)], 2: [(1, 3)]} |
| AbcVectors.AbcCandidates | tests/test_diff.py:75-92 | find_candidates of the abcabba grid is the tested four-bucket index |
| LcsVectors.NarrowCandidates | tests/test_diff.py:94-105 | find_candidates of the narrow grid is {1: [(0, 1)], 2: [(1, 2)]} |
| AbcVectors.AbcLcs | tests/test_diff.py:108-120 | lcs of the abcabba grid is [(1, 1), (3, 2), (4, 3), (6, 4)] |
| LcsVectors.AltLcs | tests/test_diff.py:122-133 | lcs of the altered grid is [(2, 0), (3, 2), (4, 3), (6, 4)] |
| LcsVectors.FullLcs | tests/test_diff.py:135-146 | lcs of the 7-by-6 grid of all matches is the diagonal (0, 0) .. (5, 5) |
| LcsVectors.NarrowLcs | tests/test_diff.py:148-159 | lcs of the narrow grid is [(0, 1), (1, 2)] |
| LcsVectors.NoEqualsLcs | tests/test_diff.py:162-166 | lcs of the 2-by-2 grid without matches is empty |
| DiffVectors.DiffPointsExample | tests/test_diff.py:56-72 | diff_points of the two texts is deleted 0, added 0, unchanged (1, 1), unchanged (2, 2), deleted 3, added 3 |
| DiffVectors.EmptyDiff | tests/test_diff.py:39-41 | diff([], []) has no records |
| DiffVectors.EmptyDiffRight | tests/test_diff.py:45-47 | diff(["a"], []) has one record |
| DiffVectors.EmptyDiffLeft | tests/test_diff.py:51-53 | diff([], ["a"]) has one record |
| DiffVectors.ShiftDiff | tests/test_diff.py:370-376 | diff of "abc" against "bc" is deleted a, unchanged b, unchanged c, with check_modified or without |
| DiffVectors.CloseFirstModified | tests/test_diff.py:381-387 | for any comparison under which x is close to y, the first record of diff([x, y, y, y], [y, y, y, y]) with check_modified is modified(x, y), whether or not y compares equal to itself |
| DiffVectors.CloseOnlyDiff | tests/test_diff.py:381-387 | when x is close to y and y does not match itself, x is modified into the first y, the other three y are deleted, then three are added |
| DiffVectors.FakeDiff | tests/test_diff.py:389-403 | [c1, c2, c3] against [c4, c5] with check_modified gives modified, modified, deleted |

## Left out

- `nbdiff/diff.py` is not part of this model. The model is built from the
  assertions of `tests/test_diff.py`; where they fix no detail, the simplest
  rule that satisfies all of them is used.
- `check_match`: the rule is read off the seven assertions of
  `test_check_match` (tests/test_diff.py:244-290). Taking b as the highest
  bucket that holds an entry strictly above and left of the point (0 when
  none does), the answer is bucket b + 1, unless that bucket exists and
  holds an entry at or left of the point's column, when it is None. For
  example, over {1: [(0, 2)]}, (1, 3) gives 2, (1, 1) gives 1 and (1, 2)
  gives None.
- The `CellComparator` similarity heuristic of `nbdiff.comparable` is not part
  of this model. Element comparison is an abstract function returning Equal,
  Close or Different; Python's `__eq__` dispatch and `BooleanPlus` truthiness
  are reduced to that outcome.
- DiffVectors.CloseFirstModified: the tested `CellComparator` objects are
  replaced by any comparison under which the first element is Close to the
  second.
- Differ.Diff: a record carries its state and value(s) only. Other dict keys,
  object identity and performance are out of scope. An unchanged record
  carries the element of A; a modified record carries both elements.
- DiffPoints.DiffPointsOf: it takes the grid width |B| as a parameter.
  diff_points receives only the grid (tests/test_diff.py:62), and |B| cannot
  be read from a grid with no rows, so the model passes it.
- Whether the differ updates its dicts and lists in place is not modelled:
  the candidate index and the grid are pure maps and sequences, and
  `find_candidates` is a fold over grid prefixes.
- `tests/test_merge.py` and the three-way merge are not part of this model:
  the merge implementation is not available, and the test checks only
  notebook-document plumbing.
- `nbdiff/webapp/static/main.js` is browser UI and has no behaviour to state
  as a contract.
