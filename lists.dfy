/**
 * Sequence helpers for the arrays the game edits with `indexOf` and
 * `splice(index, 1)`.
 */
module Lists {

  predicate Distinct<T(==)>(s: seq<T>) {
    forall i, j :: 0 <= i < j < |s| ==> s[i] != s[j]
  }

  /** `indexOf`: the first index holding `x`, or -1. */
  function IndexOf<T(==)>(s: seq<T>, x: T): (k: int)
    ensures -1 <= k < |s|
    ensures k == -1 <==> x !in s
    ensures k >= 0 ==> s[k] == x && x !in s[..k]
  {
    if s == [] then -1
    else if s[0] == x then 0
    else
      var k := IndexOf(s[1..], x);
      assert k >= 0 ==> s[1..][..k] == s[1..k + 1];
      if k == -1 then -1 else k + 1
  }

  /** `splice(k, 1)`: the sequence without its `k`-th element, the rest in order. */
  function RemoveAt<T>(s: seq<T>, k: int): (r: seq<T>)
    requires 0 <= k < |s|
    ensures |r| == |s| - 1
    ensures forall i :: 0 <= i < k ==> r[i] == s[i]
    ensures forall i :: k <= i < |r| ==> r[i] == s[i + 1]
  {
    s[..k] + s[k + 1..]
  }

  /** `const i = s.indexOf(x); if (i > -1) s.splice(i, 1);` */
  function Remove<T(==)>(s: seq<T>, x: T): seq<T> {
    var k := IndexOf(s, x);
    if k > -1 then RemoveAt(s, k) else s
  }

  /**
   * Removing an element of a duplicate-free sequence deletes exactly that
   * element: it is gone, every other element stays, the result is still
   * duplicate-free, and an absent element leaves the sequence as it was.
   */
  lemma RemoveDistinct<T>(s: seq<T>, x: T)
    requires Distinct(s)
    ensures var r := Remove(s, x);
      x !in r && Distinct(r) && (x !in s ==> r == s) && (x in s ==> |r| == |s| - 1) &&
      forall y :: y != x ==> (y in r <==> y in s)
  {
    var k := IndexOf(s, x);
    if k > -1 {
      var r := RemoveAt(s, k);
      forall y | y != x
        ensures y in r <==> y in s
      {
        if y in s {
          var i :| 0 <= i < |s| && s[i] == y;
          if i < k { assert r[i] == y; } else { assert i > k && r[i - 1] == y; }
        }
      }
      forall i | 0 <= i < |r|
        ensures r[i] != x
      {
        if i < k { assert r[i] == s[i]; } else { assert r[i] == s[i + 1]; }
      }
    }
  }

  /** On a duplicate-free sequence, removing twice is removing once. */
  lemma RemoveIdempotent<T>(s: seq<T>, x: T)
    requires Distinct(s)
    ensures Remove(Remove(s, x), x) == Remove(s, x)
  {
    RemoveDistinct(s, x);
  }

  /** `Remove` of each element of `xs` in turn. */
  function RemoveAll<T(==)>(s: seq<T>, xs: seq<T>): seq<T> {
    if xs == [] then s else Remove(RemoveAll(s, xs[..|xs| - 1]), xs[|xs| - 1])
  }

  /**
   * Removing a list of elements from a duplicate-free sequence leaves it
   * duplicate-free, without any of them, and with every other element.
   */
  lemma {:induction false} RemoveAllDistinct<T>(s: seq<T>, xs: seq<T>)
    requires Distinct(s)
    ensures var r := RemoveAll(s, xs);
      Distinct(r) && (forall x :: x in xs ==> x !in r) &&
      forall y :: y !in xs ==> (y in r <==> y in s)
  {
    if xs != [] {
      var init, x := xs[..|xs| - 1], xs[|xs| - 1];
      RemoveAllDistinct(s, init);
      RemoveDistinct(RemoveAll(s, init), x);
      assert forall z :: z in xs <==> z in init || z == x;
    }
  }
}
