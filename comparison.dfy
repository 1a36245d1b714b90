/**
 * Comparison: LT, GT and EQ, each holding the range of `compareTo` results
 * for which it is true.
 */
module Comparisons {
  import opened Java

  datatype Comparison = LT | GT | EQ

  /** The smallest `compareTo` result for which the comparison holds. */
  function Min(c: Comparison): Int32
  {
    match c
    case LT => INT_MIN
    case GT => 1
    case EQ => 0
  }

  /** The largest `compareTo` result for which the comparison holds. */
  function Max(c: Comparison): Int32
  {
    match c
    case LT => -1
    case GT => INT_MAX
    case EQ => 0
  }

  /** `Integer.compareTo`: negative, zero or positive as `left` is below, equal to or above `right`. */
  function CompareTo(left: Int32, right: Int32): (k: Int32)
    ensures k < 0 <==> left < right
    ensures k == 0 <==> left == right
    ensures k > 0 <==> left > right
  {
    if left < right then -1 else if left == right then 0 else 1
  }

  /** Whether a comparator result lies in the comparison's range. */
  predicate InRange(c: Comparison, k: Int32)
  {
    Min(c) <= k <= Max(c)
  }

  /** compare(left, right): `left.compareTo(right)` lies in the comparison's range. */
  predicate Compare(c: Comparison, left: Int32, right: Int32)
  {
    InRange(c, CompareTo(left, right))
  }

  /** LT, GT and EQ mean <, > and ==. */
  lemma CompareMeaning(left: Int32, right: Int32)
    ensures Compare(LT, left, right) <==> left < right
    ensures Compare(GT, left, right) <==> left > right
    ensures Compare(EQ, left, right) <==> left == right
  {
  }

  /** The three ranges partition every possible `int` comparator result. */
  lemma RangesPartition(k: Int32)
    ensures InRange(LT, k) || InRange(GT, k) || InRange(EQ, k)
    ensures !(InRange(LT, k) && InRange(GT, k))
    ensures !(InRange(LT, k) && InRange(EQ, k))
    ensures !(InRange(GT, k) && InRange(EQ, k))
  {
  }

  /** a < b is b > a. */
  lemma LtMirrorsGt(a: Int32, b: Int32)
    ensures Compare(LT, a, b) == Compare(GT, b, a)
  {
  }

  /** toString(): the constant's name. */
  function Name(c: Comparison): string
  {
    match c
    case LT => "LT"
    case GT => "GT"
    case EQ => "EQ"
  }

  /** The constant whose name equals the string exactly, if any (null matches none). */
  function Named(s: Option<string>): (r: Option<Comparison>)
    ensures r.Some? ==> s == Some(Name(r.value))
    ensures s.Some? && s.value in {"LT", "GT", "EQ"} ==> r.Some?
  {
    if s == Some("LT") then Some(LT)
    else if s == Some("GT") then Some(GT)
    else if s == Some("EQ") then Some(EQ)
    else None
  }
}
