/** LINQ `OrderBy` / `OrderByDescending` followed by enumeration: a stable sort
    by a real-valued key. Stability is captured by sorting POSITIONS of the
    input: position i goes before position j when its key is strictly better,
    or when the keys are equal and i < j. That relation is a strict total
    order, so the sorted order of positions is the one LINQ produces. */
module StableSort {

  /** Position i comes before position j in the stable order of `s`. */
  predicate Precedes<T>(s: seq<T>, key: T -> real, descending: bool, i: nat, j: nat)
    requires i < |s| && j < |s|
  {
    var ki, kj := key(s[i]), key(s[j]);
    if ki == kj then i < j
    else if descending then ki > kj
    else ki < kj
  }

  lemma PrecedesTotal<T>(s: seq<T>, key: T -> real, descending: bool, i: nat, j: nat)
    requires i < |s| && j < |s| && i != j
    ensures Precedes(s, key, descending, i, j) != Precedes(s, key, descending, j, i)
  {
  }

  /** `p` lists distinct positions of `s` in stable order. */
  predicate SortedPositions<T>(s: seq<T>, key: T -> real, descending: bool, p: seq<nat>) {
    && (forall k :: 0 <= k < |p| ==> p[k] < |s|)
    && (forall a, b :: 0 <= a < b < |p| ==> Precedes(s, key, descending, p[a], p[b]))
  }

  /** `p` is the stable order of all positions of `s`. */
  predicate IsStableOrder<T>(s: seq<T>, key: T -> real, descending: bool, p: seq<nat>) {
    && |p| == |s|
    && SortedPositions(s, key, descending, p)
    && (forall i :: 0 <= i < |s| ==> i in p)
  }

  /** Inserts position i into the sorted positions p. */
  function Insert<T>(s: seq<T>, key: T -> real, descending: bool, i: nat, p: seq<nat>): (r: seq<nat>)
    requires i < |s| && i !in p
    requires SortedPositions(s, key, descending, p)
    ensures SortedPositions(s, key, descending, r)
    ensures |r| == |p| + 1
    ensures forall x :: x in r <==> x in p || x == i
  {
    if p == [] then [i]
    else if Precedes(s, key, descending, i, p[0]) then
      assert forall b :: 0 <= b < |p| ==> Precedes(s, key, descending, i, p[b]) by {
        forall b | 0 < b < |p| ensures Precedes(s, key, descending, i, p[b]) {
          assert Precedes(s, key, descending, p[0], p[b]);
        }
      }
      [i] + p
    else
      PrecedesTotal(s, key, descending, i, p[0]);
      var rest := Insert(s, key, descending, i, p[1..]);
      assert forall x :: x in rest ==> Precedes(s, key, descending, p[0], x) by {
        forall x | x in rest ensures Precedes(s, key, descending, p[0], x) {
          if x != i {
            var b :| 1 <= b < |p| && p[b] == x;
          }
        }
      }
      [p[0]] + rest
  }

  /** The stable order of the positions 0 .. n-1 of `s`, by insertion. */
  function SortPrefix<T>(s: seq<T>, key: T -> real, descending: bool, n: nat): (p: seq<nat>)
    requires n <= |s|
    ensures SortedPositions(s, key, descending, p)
    ensures |p| == n
    ensures forall x: nat :: x in p <==> x < n
  {
    if n == 0 then [] else Insert(s, key, descending, n - 1, SortPrefix(s, key, descending, n - 1))
  }

  /** The stable order of all positions of `s`. */
  function StableOrder<T>(s: seq<T>, key: T -> real, descending: bool): (p: seq<nat>)
    ensures IsStableOrder(s, key, descending, p)
  {
    SortPrefix(s, key, descending, |s|)
  }

  /** Keys in the requested direction: non-increasing when descending,
      non-decreasing otherwise. */
  predicate InOrder(a: real, b: real, descending: bool) {
    if descending then a >= b else a <= b
  }

  /** `s.OrderBy(key)` (or `OrderByDescending`) enumerated. */
  function OrderBy<T>(s: seq<T>, key: T -> real, descending: bool): (r: seq<T>)
    ensures |r| == |s|
    ensures forall k :: 0 <= k < |r| ==> r[k] == s[StableOrder(s, key, descending)[k]]
    ensures forall a, b :: 0 <= a < b < |r| ==> InOrder(key(r[a]), key(r[b]), descending)
  {
    var p := StableOrder(s, key, descending);
    var r := seq(|s|, k requires 0 <= k < |s| => s[p[k]]);
    assert forall a, b :: 0 <= a < b < |r| ==> InOrder(key(r[a]), key(r[b]), descending) by {
      forall a, b | 0 <= a < b < |r| ensures InOrder(key(r[a]), key(r[b]), descending) {
        assert Precedes(s, key, descending, p[a], p[b]);
      }
    }
    r
  }

  /** Two stable orders of the same sequence coincide: the stable order is
      determined by the keys and the original positions alone. */
  lemma {:induction false} StableOrderUnique<T>(s: seq<T>, key: T -> real, descending: bool, p: seq<nat>, q: seq<nat>)
    requires IsStableOrder(s, key, descending, p)
    requires IsStableOrder(s, key, descending, q)
    ensures p == q
  {
    forall k | 0 <= k < |p| ensures p[k] == q[k] {
      RankIsIndex(s, key, descending, p, k);
      RankIsIndex(s, key, descending, q, k);
      assert p[k] in q;
      var j :| 0 <= j < |q| && q[j] == p[k];
      RankIsIndex(s, key, descending, q, j);
    }
  }

  /** The positions that precede x in the stable order. */
  function Predecessors<T>(s: seq<T>, key: T -> real, descending: bool, x: nat): set<nat>
    requires x < |s|
  {
    set i: nat | i < |s| && Precedes(s, key, descending, i, x)
  }

  /** In a stable order, position p[k] has exactly k predecessors. */
  lemma RankIsIndex<T>(s: seq<T>, key: T -> real, descending: bool, p: seq<nat>, k: nat)
    requires IsStableOrder(s, key, descending, p)
    requires k < |p|
    ensures Predecessors(s, key, descending, p[k]) == set a | 0 <= a < k :: p[a]
    ensures |Predecessors(s, key, descending, p[k])| == k
  {
    var pre := Predecessors(s, key, descending, p[k]);
    var earlier := set a | 0 <= a < k :: p[a];
    forall i | i in pre ensures i in earlier {
      assert i in p;
      var b :| 0 <= b < |p| && p[b] == i;
      assert b < k;
    }
    DistinctCard(p, k);
  }

  /** k distinct positions make a set of size k. */
  lemma {:induction false} DistinctCard(p: seq<nat>, k: nat)
    requires k <= |p|
    requires forall a, b :: 0 <= a < b < |p| ==> p[a] != p[b]
    ensures |set a | 0 <= a < k :: p[a]| == k
  {
    if k > 0 {
      DistinctCard(p, k - 1);
      var smaller := set a | 0 <= a < k - 1 :: p[a];
      assert (set a | 0 <= a < k :: p[a]) == smaller + {p[k - 1]};
      assert p[k - 1] !in smaller;
    }
  }

  /** The first element of the stable order has the best key, and every
      earlier position has a strictly worse key (first occurrence wins). */
  lemma FirstOfStableOrder<T>(s: seq<T>, key: T -> real, descending: bool, j: nat)
    requires j < |s|
    ensures var i := StableOrder(s, key, descending)[0];
      && InOrder(key(s[i]), key(s[j]), descending)
      && (j < i ==> key(s[j]) != key(s[i]))
  {
    var p := StableOrder(s, key, descending);
    assert j in p;
    var b :| 0 <= b < |p| && p[b] == j;
    if b > 0 {
      assert Precedes(s, key, descending, p[0], p[b]);
    }
  }

  /** `top` is a prefix of the stable order of `s`. The stable order is unique
      (StableOrderUnique), so this pins `top` down once its length is known. */
  ghost predicate IsStablePrefix<T>(s: seq<T>, key: T -> real, descending: bool, top: seq<T>) {
    exists p :: IsStableOrder(s, key, descending, p)
      && |top| <= |p|
      && forall k :: 0 <= k < |top| ==> top[k] == s[p[k]]
  }

  /** Taking the first m of `OrderBy` gives a stable prefix, with the
      consequences callers rely on: its elements come from `s`, they are in
      key order, and every element left out is no better than any kept. */
  lemma TakeOrderBy<T>(s: seq<T>, key: T -> real, descending: bool, m: nat)
    requires m <= |s|
    ensures IsStablePrefix(s, key, descending, OrderBy(s, key, descending)[..m])
    ensures var top := OrderBy(s, key, descending)[..m];
      && (forall x :: x in top ==> x in s)
      && (forall a, b :: 0 <= a < b < |top| ==> InOrder(key(top[a]), key(top[b]), descending))
      && (forall j, k :: 0 <= j < |s| && 0 <= k < |top| && s[j] !in top ==> InOrder(key(top[k]), key(s[j]), descending))
  {
    var p := StableOrder(s, key, descending);
    var all := OrderBy(s, key, descending);
    var top := all[..m];
    assert IsStableOrder(s, key, descending, p) && |top| <= |p|
      && forall k :: 0 <= k < |top| ==> top[k] == s[p[k]];
    forall j, k | 0 <= j < |s| && 0 <= k < |top| && s[j] !in top
      ensures InOrder(key(top[k]), key(s[j]), descending)
    {
      assert j in p;
      var b :| 0 <= b < |p| && p[b] == j;
      assert b >= m;
      assert Precedes(s, key, descending, p[k], p[b]);
    }
  }
}
