/** Small functions that several components share. */
module Commons {
  const HUNDRED_PERCENT := 10_000

  function Min(x: nat, y: nat): nat {
    if x < y then x else y
  }

  function Total(s: seq<nat>): nat {
    if s == [] then 0 else Total(s[..|s| - 1]) + s[|s| - 1]
  }

  lemma {:induction false} TotalFromFront(s: seq<nat>)
    requires s != []
    ensures Total(s) == s[0] + Total(s[1..])
  {
    if |s| > 1 {
      TotalFromFront(s[..|s| - 1]);
      assert s[..|s| - 1][1..] == s[1..][..|s| - 2];
    }
  }

  ghost predicate Distinct<T>(s: seq<T>) {
    forall i, j :: 0 <= i < j < |s| ==> s[i] != s[j]
  }

  function Swap<T>(s: seq<T>, i: nat, j: nat): (r: seq<T>)
    requires i < |s| && j < |s|
    ensures |r| == |s|
  {
    s[i := s[j]][j := s[i]]
  }
}
