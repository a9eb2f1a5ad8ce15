/** File-size arithmetic shared by the three processing-mode selectors:
    the total of a list of file sizes and its exact average. */
module Sizes {

  function Sum(sizes: seq<nat>): (t: nat)
    ensures |sizes| == 0 ==> t == 0
    ensures forall i :: 0 <= i < |sizes| ==> sizes[i] <= t
  {
    if |sizes| == 0 then 0 else Sum(sizes[..|sizes| - 1]) + sizes[|sizes| - 1]
  }

  /** `total_size / file_count if file_count > 0 else 0`, as an exact quotient. */
  function Average(total: nat, count: nat): real
  {
    if count > 0 then total as real / count as real else 0.0
  }

  /** The average exceeds a bound exactly when the total exceeds the bound
      times the count; an empty list never exceeds a non-negative bound. */
  lemma AverageExceeds(total: nat, count: nat, bound: nat)
    requires count == 0 ==> total == 0
    ensures Average(total, count) > bound as real <==> total > bound * count
  {
    if count > 0 {
      var a := total as real / count as real;
      assert Average(total, count) == a;
      var c := count as real;
      var b := bound as real;
      assert a * c == total as real;
      assert (bound * count) as real == b * c;
      assert total > bound * count <==> total as real > b * c;
      if a > b {
        assert a * c - b * c == (a - b) * c;
        assert (a - b) * c > 0.0;
      } else {
        assert b * c - a * c == (b - a) * c;
        assert (b - a) * c >= 0.0;
      }
    }
  }
}
