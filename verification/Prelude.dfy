/** Vocabulary shared by the other modules: optional values, string order, decimal rendering, and
    the counting argument behind every "try the next counter" loop of the repository. */
module Prelude {

  datatype Option<+T> = None | Some(value: T)

  /** `order` lists every element of `keys` exactly once: what a SELECT without duplicates returns. */
  ghost predicate Enumerates<T(!new)>(order: seq<T>, keys: set<T>) {
    && (forall i, j | 0 <= i < j < |order| :: order[i] != order[j])
    && (forall x :: x in keys <==> x in order)
  }

  /** `seen` holds the first `i` entries of an enumeration: where a loop over it stands. */
  ghost predicate SeenUpTo<T(!new)>(order: seq<T>, keys: set<T>, i: nat, seen: set<T>) {
    && seen <= keys
    && (forall k | 0 <= k < |order| :: order[k] in keys && (order[k] in seen <==> k < i))
  }

  lemma SeenNone<T(!new)>(order: seq<T>, keys: set<T>)
    requires Enumerates(order, keys)
    ensures SeenUpTo(order, keys, 0, {})
  {
    assert forall i | 0 <= i < |order| :: order[i] in order;
  }

  lemma SeenOneMore<T(!new)>(order: seq<T>, keys: set<T>, i: nat, seen: set<T>)
    requires Enumerates(order, keys) && SeenUpTo(order, keys, i, seen) && i < |order|
    ensures order[i] in keys && order[i] !in seen
    ensures SeenUpTo(order, keys, i + 1, seen + {order[i]})
  {
  }

  lemma SeenAll<T(!new)>(order: seq<T>, keys: set<T>, seen: set<T>)
    requires Enumerates(order, keys) && SeenUpTo(order, keys, |order|, seen)
    ensures seen == keys
  {
    forall x | x in keys ensures x in seen {
      assert x in order;
    }
  }

  /** Python's string comparison `a < b`. */
  predicate Less(a: string, b: string) {
    if b == [] then false
    else if a == [] then true
    else if a[0] != b[0] then a[0] < b[0]
    else Less(a[1..], b[1..])
  }

  lemma {:induction false} LessIsTotal(a: string, b: string)
    ensures Less(a, b) || Less(b, a) || a == b
    ensures !(Less(a, b) && Less(b, a)) && !Less(a, a)
  {
    if a != [] && b != [] {
      LessIsTotal(a[1..], b[1..]);
      LessIsTotal(a[1..], a[1..]);
      assert a == [a[0]] + a[1..] && b == [b[0]] + b[1..];
    } else if a != [] {
      LessIsTotal(a[1..], a[1..]);
    }
  }

  lemma {:induction false} LessIsTransitive(a: string, b: string, c: string)
    requires Less(a, b) && Less(b, c)
    ensures Less(a, c)
  {
    if a != [] && a[0] == b[0] && b[0] == c[0] {
      LessIsTransitive(a[1..], b[1..], c[1..]);
    }
  }

  /** The order compares the first position at which the texts differ; a text comes after each of its beginnings. */
  lemma {:induction false} LessIs(a: string, b: string)
    ensures Less(a, b) <==>
      exists k :: 0 <= k <= |a| && k < |b| && a[..k] == b[..k] && (k == |a| || a[k] < b[k])
  {
    if a == [] || b == [] || a[0] != b[0] {
      if b != [] && Less(a, b) {
        assert a[..0] == b[..0];
      }
    } else {
      LessIs(a[1..], b[1..]);
      if Less(a, b) {
        var k :| 0 <= k <= |a[1..]| && k < |b[1..]| && a[1..][..k] == b[1..][..k]
          && (k == |a[1..]| || a[1..][k] < b[1..][k]);
        assert a[..k + 1] == [a[0]] + a[1..][..k] && b[..k + 1] == [b[0]] + b[1..][..k];
      }
      if k :| 0 <= k <= |a| && k < |b| && a[..k] == b[..k] && (k == |a| || a[k] < b[k]) {
        assert k > 0;
        assert a[1..][..k - 1] == a[..k][1..] && b[1..][..k - 1] == b[..k][1..];
      }
    }
  }

  /** Decimal rendering of a counter, as an f-string produces it. */
  function Decimal(n: nat): (s: string)
    ensures |s| > 0
  {
    if n < 10 then ["0123456789"[n]] else Decimal(n / 10) + ["0123456789"[n % 10]]
  }

  lemma {:induction false} DecimalInjective(a: nat, b: nat)
    requires Decimal(a) == Decimal(b)
    ensures a == b
    decreases a
  {
    var s, t := Decimal(a), Decimal(b);
    assert s[|s| - 1] == t[|t| - 1];
    if a >= 10 && b >= 10 {
      assert s[..|s| - 1] == Decimal(a / 10) && t[..|t| - 1] == Decimal(b / 10);
      DecimalInjective(a / 10, b / 10);
    }
  }

  /** n pairwise different names cannot all be taken by fewer than n taken names. */
  lemma {:induction false} Pigeonhole(name: nat -> string, taken: set<string>, n: nat)
    requires forall i, j | 0 <= i < j < n :: name(i) != name(j)
    requires forall i | 0 <= i < n :: name(i) in taken
    ensures n <= |taken|
    decreases n
  {
    if n > 0 {
      Pigeonhole(name, taken - {name(n - 1)}, n - 1);
    }
  }
}
