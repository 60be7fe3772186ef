/** LINQ `Where` and `FirstOrDefault` over a sequence. */
module Sequences {
  import opened Wrappers

  /** The elements of `s` that satisfy `p`, in their original order. */
  function Filter<T(!new)>(s: seq<T>, p: T -> bool): (r: seq<T>)
    ensures |r| <= |s|
    ensures forall x :: x in r <==> x in s && p(x)
  {
    if s == [] then []
    else (if p(s[0]) then [s[0]] else []) + Filter(s[1..], p)
  }

  /** Filtering distributes over concatenation, so the kept elements keep
      their relative order. */
  lemma {:induction false} FilterAppend<T(!new)>(a: seq<T>, b: seq<T>, p: T -> bool)
    ensures Filter(a + b, p) == Filter(a, p) + Filter(b, p)
  {
    if a == [] {
      assert a + b == b;
    } else {
      assert (a + b)[0] == a[0];
      assert (a + b)[1..] == a[1..] + b;
      FilterAppend(a[1..], b, p);
    }
  }

  /** Every occurrence of a kept value is kept, and no other value is. */
  lemma {:induction false} FilterMultiplicity<T(!new)>(s: seq<T>, p: T -> bool, x: T)
    ensures multiset(Filter(s, p))[x] == if p(x) then multiset(s)[x] else 0
  {
    if s != [] {
      FilterMultiplicity(s[1..], p, x);
      assert s == [s[0]] + s[1..];
    }
  }

  /** `s[i]` is the first element of `s` satisfying `p`. */
  predicate IsFirstWhere<T>(s: seq<T>, p: T -> bool, i: int) {
    0 <= i < |s| && p(s[i]) && forall j :: 0 <= j < i ==> !p(s[j])
  }

  /** `s.FirstOrDefault(p)`, with `None` for the default `null`. */
  function FirstWhere<T>(s: seq<T>, p: T -> bool): (r: Option<T>)
    ensures r.None? <==> forall i :: 0 <= i < |s| ==> !p(s[i])
    ensures r.Some? ==> exists i :: IsFirstWhere(s, p, i) && r.value == s[i]
  {
    if s == [] then None
    else if p(s[0]) then
      assert IsFirstWhere(s, p, 0);
      Some(s[0])
    else
      var r := FirstWhere(s[1..], p);
      assert r.Some? ==> exists i :: IsFirstWhere(s, p, i) && r.value == s[i] by {
        if r.Some? {
          var i :| IsFirstWhere(s[1..], p, i) && r.value == s[1..][i];
          assert IsFirstWhere(s, p, i + 1);
        }
      }
      assert r.None? ==> forall i :: 0 <= i < |s| ==> !p(s[i]) by {
        if r.None? {
          forall i | 0 < i < |s| ensures !p(s[i]) {
            assert s[i] == s[1..][i - 1];
          }
        }
      }
      r
  }

  /** The first match depends only on which elements satisfy the predicate. */
  lemma {:induction false} FirstWhereCongruent<T>(s: seq<T>, p: T -> bool, q: T -> bool)
    requires forall i :: 0 <= i < |s| ==> p(s[i]) == q(s[i])
    ensures FirstWhere(s, p) == FirstWhere(s, q)
  {
    if s != [] && !p(s[0]) {
      FirstWhereCongruent(s[1..], p, q);
    }
  }
}
