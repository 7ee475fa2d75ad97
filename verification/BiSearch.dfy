/** Binary search with three ways to match (util/algorithms/BiSearch.go). */
module BiSearch {

  ghost predicate Sorted(s: seq<int>) {
    forall i, j :: 0 <= i < j < |s| ==> s[i] <= s[j]
  }

  /** Index r holds the value, or is the nearest one to its right or left, as the mode says. */
  ghost predicate Matches(s: seq<int>, value: int, mode: int, r: int) {
    if r == -1 then
      if mode == 1 then forall i :: 0 <= i < |s| ==> s[i] < value
      else if mode == -1 then forall i :: 0 <= i < |s| ==> s[i] > value
      else value !in s
    else
      && 0 <= r < |s|
      && (s[r] == value
          || (mode == 1 && s[r] > value && forall i :: 0 <= i < r ==> s[i] < value)
          || (mode == -1 && s[r] < value && forall i :: r < i < |s| ==> s[i] > value))
  }

  method Search(s: seq<int>, value: int, mode: int) returns (r: int)
    requires Sorted(s) && -1 <= mode <= 1
    ensures Matches(s, value, mode, r)
  {
    var low, high := 0, |s| - 1;
    if high == -1 {
      return -1;
    }
    var mid := 0;
    var probed := false;
    while low <= high
      invariant 0 <= low <= high + 1 <= |s| && (probed || (low == 0 && high == |s| - 1))
      invariant forall i :: 0 <= i < low ==> s[i] < value
      invariant forall i :: high < i < |s| ==> s[i] > value
      invariant probed ==> 0 <= mid < |s| && ((s[mid] > value && high == mid - 1) || (s[mid] < value && low == mid + 1))
      decreases high - low
    {
      mid := low + (high - low) / 2;
      probed := true;
      if s[mid] > value {
        high := mid - 1;
      } else if s[mid] < value {
        low := mid + 1;
      } else {
        return mid;
      }
    }
    if mode == 1 {
      if s[mid] < value {
        return if mid + 1 >= |s| then -1 else mid + 1;
      }
      return mid;
    }
    if mode == -1 {
      if s[mid] > value {
        return if mid - 1 < 0 then -1 else mid - 1;
      }
      return mid;
    }
    r := -1;
  }

  /** In a strictly increasing sequence the match is unique. */
  lemma MatchUnique(s: seq<int>, value: int, mode: int, r: int, q: int)
    requires forall i, j :: 0 <= i < j < |s| ==> s[i] < s[j]
    requires Matches(s, value, mode, r) && Matches(s, value, mode, q) && -1 <= mode <= 1
    ensures r == q
  {
  }
}
