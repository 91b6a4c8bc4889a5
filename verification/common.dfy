/**
 Shared vocabulary of the Spending Diary model: user identifiers, the
 optional-value wrapper used for absent request fields and query parameters,
 and sums over integer sequences.
 */
module Common {

  /** A user's primary key as stored by the database. */
  type UserId = string

  /** An absent value (an omitted field, a missing query parameter) or a present one. */
  datatype Option<+T> = None | Some(value: T)

  /** Sum of a sequence of integers, folded from the left. */
  function Sum(xs: seq<int>): int
  {
    if xs == [] then 0 else Sum(xs[..|xs| - 1]) + xs[|xs| - 1]
  }

  /** Summing splits over concatenation. */
  lemma {:induction false} SumAppend(xs: seq<int>, ys: seq<int>)
    ensures Sum(xs + ys) == Sum(xs) + Sum(ys)
    decreases |ys|
  {
    if ys == [] {
      assert xs + ys == xs;
    } else {
      var zs := ys[..|ys| - 1];
      assert (xs + ys)[..|xs + ys| - 1] == xs + zs;
      SumAppend(xs, zs);
    }
  }

  /** The maximum of two integers, as `Math.max` computes it on finite numbers. */
  function Max(a: int, b: int): (r: int)
    ensures r >= a && r >= b
    ensures r == a || r == b
  {
    if a >= b then a else b
  }
}
