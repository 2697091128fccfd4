/** `Array.prototype.sort` with a comparator, over an abstract total preorder on strings. */
module Sorting {

  /** What `(a, b) => a.localeCompare(b) <= 0` is assumed to be: total and transitive. */
  ghost predicate TotalPreorder(leq: (string, string) -> bool) {
    && (forall a, b :: leq(a, b) || leq(b, a))
    && (forall a, b, c :: leq(a, b) && leq(b, c) ==> leq(a, c))
  }

  predicate SortedBy(s: seq<string>, leq: (string, string) -> bool) {
    forall i, j :: 0 <= i < j < |s| ==> leq(s[i], s[j])
  }

  /** Puts `x` before the first element it does not follow. */
  function Insert(x: string, s: seq<string>, leq: (string, string) -> bool): (r: seq<string>)
    requires TotalPreorder(leq)
    requires SortedBy(s, leq)
    ensures multiset(r) == multiset(s) + multiset{x}
    ensures SortedBy(r, leq)
  {
    if s == [] || leq(x, s[0]) then
      [x] + s
    else
      var rest := Insert(x, s[1..], leq);
      assert s == [s[0]] + s[1..];
      assert forall k :: 0 <= k < |rest| ==> leq(s[0], rest[k]) by {
        forall k | 0 <= k < |rest| ensures leq(s[0], rest[k]) {
          assert rest[k] in multiset(rest);
          assert rest[k] == x || rest[k] in multiset(s[1..]);
          if rest[k] != x {
            var m :| 0 <= m < |s[1..]| && s[1..][m] == rest[k];
            assert s[m + 1] == rest[k];
          }
        }
      }
      [s[0]] + rest
  }

  /** The sorted permutation of `s`. */
  function SortBy(s: seq<string>, leq: (string, string) -> bool): (r: seq<string>)
    requires TotalPreorder(leq)
    ensures multiset(r) == multiset(s)
    ensures SortedBy(r, leq)
  {
    if s == [] then []
    else
      assert s == [s[0]] + s[1..];
      Insert(s[0], SortBy(s[1..], leq), leq)
  }
}
