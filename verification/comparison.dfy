/**
  The comparison capability every diffed element offers. Exact equality and
  "close enough to be a modification" are both matches for the longest
  common subsequence; only the later relabelling step tells them apart.
 */
module Comparison {

  datatype Outcome = Equal | Close | Different

  /** The projection used by the match grid: Equal and Close both match. */
  predicate IsMatch(o: Outcome)
  {
    o.Equal? || o.Close?
  }

  /** Comparison of plain values such as characters or text lines, which are never merely close. */
  function PlainCompare<T(==)>(a: T, b: T): Outcome
  {
    if a == b then Equal else Different
  }
}
