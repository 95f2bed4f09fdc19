/** Searching sequences, and two properties of them. */
module Sequences {

  /** The loops that look for the first entry with some property. */
  function First<T>(s: seq<T>, f: T -> bool): (r: int)
    ensures -1 <= r < |s|
    ensures r >= 0 ==> f(s[r]) && forall j | 0 <= j < r :: !f(s[j])
    ensures r < 0 <==> forall j | 0 <= j < |s| :: !f(s[j])
  {
    if s == [] then -1
    else if f(s[0]) then 0
    else
      var r := First(s[1..], f);
      assert forall j | 0 < j < |s| :: s[j] == s[1..][j - 1];
      if r < 0 then -1 else r + 1
  }

  /** No entry occurs twice. */
  ghost predicate Distinct<T>(s: seq<T>)
  {
    forall i, j | 0 <= i < j < |s| :: s[i] != s[j]
  }

  /** Times that begin no earlier than `start` and never go back. */
  ghost predicate Rising(start: int, times: seq<int>)
  {
    && (forall i | 0 <= i < |times| :: start <= times[i])
    && (forall i, j | 0 <= i < j < |times| :: times[i] <= times[j])
  }
}
