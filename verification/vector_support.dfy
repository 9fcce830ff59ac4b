/**
  Small facts for evaluating the model on literal inputs: a literal row of
  create_grid, the top key of a literal index, one step of find_candidates,
  and lcs read off a known candidate index.
 */
module VectorSupport {
  import opened Comparison
  import opened MatchGrid
  import opened Candidates
  import opened LcsExtraction

  const EmptyIndex: Index := map[]

  /** A row of the grid create_grid builds, given as a literal. */
  lemma GridRowIs<T>(A: seq<T>, B: seq<T>, cmp: (T, T) -> Outcome, i: nat, row: seq<bool>)
    requires i < |A| && |row| == |B|
    requires forall j :: 0 <= j < |B| ==> row[j] == IsMatch(cmp(A[i], B[j]))
    ensures CreateGrid(A, B, cmp)[i] == row
  {
  }

  /** The highest key of a literal index. */
  lemma TopIs(k: Index, t: nat)
    requires t in k && forall c :: c in k ==> c <= t
    ensures Top(k) == t
  {
  }

  /** add_results on literal indexes, bucket by bucket. */
  lemma AddResultsIs(k: Index, d: Index, k': Index)
    requires k'.Keys == k.Keys + d.Keys
    requires forall c :: c in k' ==> k'[c] == Bucket(k, c) + Bucket(d, c)
    ensures AddResults(k, d) == k'
  {
  }

  /** One more row of the fold find_candidates performs. */
  lemma FindCandidatesStep(grid: Grid, r: nat, k': Index)
    requires r < |grid|
    requires AddResults(FindCandidates(grid[..r]), ProcessRow(FindCandidates(grid[..r]), grid[r], r)) == k'
    ensures FindCandidates(grid[..r + 1]) == k'
  {
    assert grid[..r + 1][..r] == grid[..r];
  }
}
