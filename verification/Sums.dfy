/** Totals of a column, and how they react to one changed row, a new row, or two columns merged into one. */
module Sums {
  function Sum(column: seq<nat>): nat {
    if |column| == 0 then 0 else Sum(column[..|column| - 1]) + column[|column| - 1]
  }

  lemma {:induction false} SumAppend(column: seq<nat>, entry: nat)
    ensures Sum(column + [entry]) == Sum(column) + entry
  {
    assert (column + [entry])[..|column|] == column;
  }

  lemma {:induction false} SumSplit(column: seq<nat>, row: nat)
    requires row < |column|
    ensures Sum(column) == Sum(column[row := 0]) + column[row]
    decreases |column|
  {
    var last := |column| - 1;
    if row == last {
      assert column[row := 0][..last] == column[..last];
    } else {
      SumSplit(column[..last], row);
      assert column[..last][row := 0] == column[row := 0][..last];
    }
  }

  /** A column that differs from another in one row differs by that row only in its total. */
  lemma SumPoint(before: seq<nat>, after: seq<nat>, row: nat)
    requires |before| == |after| && row < |before|
    requires forall k :: 0 <= k < |before| && k != row ==> before[k] == after[k]
    ensures Sum(after) + before[row] == Sum(before) + after[row]
    ensures before[row] <= Sum(before)
  {
    SumSplit(before, row);
    SumSplit(after, row);
    assert before[row := 0] == after[row := 0];
  }

  lemma {:induction false} SumMerge(left: seq<nat>, right: seq<nat>, merged: seq<nat>)
    requires |left| == |right| == |merged|
    requires forall k :: 0 <= k < |left| ==> merged[k] == left[k] + right[k]
    ensures Sum(merged) == Sum(left) + Sum(right)
    decreases |left|
  {
    var n := |left|;
    if n > 0 {
      SumMerge(left[..n - 1], right[..n - 1], merged[..n - 1]);
    }
  }

  lemma {:induction false} SumZero(column: seq<nat>)
    requires forall k :: 0 <= k < |column| ==> column[k] == 0
    ensures Sum(column) == 0
    decreases |column|
  {
    if |column| > 0 {
      SumZero(column[..|column| - 1]);
    }
  }

  lemma {:induction false} SumAtMost(small: seq<nat>, large: seq<nat>)
    requires |small| == |large|
    requires forall k :: 0 <= k < |small| ==> small[k] <= large[k]
    ensures Sum(small) <= Sum(large)
    decreases |small|
  {
    var n := |small|;
    if n > 0 {
      SumAtMost(small[..n - 1], large[..n - 1]);
    }
  }
}
