/** Sequence helpers shared by the store model: the ORM's `filter(...)`
    over a table, and "unique on key" constraints. */
module Seqs {

  /** The rows of `s` that satisfy `p`, in table order (a queryset filter). */
  function Filter<T(!new)>(p: T -> bool, s: seq<T>): (r: seq<T>)
    ensures |r| <= |s|
    ensures forall x :: x in r <==> x in s && p(x)
  {
    if s == [] then []
    else (if p(s[0]) then [s[0]] else []) + Filter(p, s[1..])
  }

  /** No two rows of `s` share a key: a database unique constraint. */
  ghost predicate UniqueBy<T, K>(s: seq<T>, key: T -> K)
  {
    forall i, j :: 0 <= i < j < |s| ==> key(s[i]) != key(s[j])
  }

  lemma {:induction false} FilterAppend<T(!new)>(p: T -> bool, a: seq<T>, b: seq<T>)
    ensures Filter(p, a + b) == Filter(p, a) + Filter(p, b)
  {
    if a == [] {
      assert a + b == b;
    } else {
      assert (a + b)[1..] == a[1..] + b;
      FilterAppend(p, a[1..], b);
    }
  }

  /** Filtering keeps a table whole when every row passes. */
  lemma {:induction false} FilterKeepsAll<T(!new)>(p: T -> bool, s: seq<T>)
    requires forall x :: x in s ==> p(x)
    ensures Filter(p, s) == s
  {
    if s != [] {
      FilterKeepsAll(p, s[1..]);
    }
  }

  /** Filtering empties a table when no row passes. */
  lemma {:induction false} FilterDropsAll<T(!new)>(p: T -> bool, s: seq<T>)
    requires forall x :: x in s ==> !p(x)
    ensures Filter(p, s) == []
  {
    if s != [] {
      FilterDropsAll(p, s[1..]);
    }
  }

  /** A filtered table keeps every unique constraint of the table. */
  lemma {:induction false} FilterUnique<T(!new), K>(p: T -> bool, s: seq<T>, key: T -> K)
    requires UniqueBy(s, key)
    ensures UniqueBy(Filter(p, s), key)
  {
    if s != [] {
      FilterUnique(p, s[1..], key);
      var rest := Filter(p, s[1..]);
      forall x | x in rest ensures key(x) != key(s[0]) {
        var k :| 1 <= k < |s| && s[k] == x;
      }
      var head: seq<T> := if p(s[0]) then [s[0]] else [];
      var r := head + rest;
      forall i, j | 0 <= i < j < |r| ensures key(r[i]) != key(r[j]) {
        if p(s[0]) && i == 0 {
          assert r[j] in rest;
        } else {
          assert r[i] == rest[i - |head|] && r[j] == rest[j - |head|];
        }
      }
    }
  }

  /** Filtering by `p` after a weaker filter `q` is filtering by `p`. */
  lemma {:induction false} FilterNested<T(!new)>(p: T -> bool, q: T -> bool, s: seq<T>)
    requires forall x :: p(x) ==> q(x)
    ensures Filter(p, Filter(q, s)) == Filter(p, s)
  {
    if s != [] {
      FilterNested(p, q, s[1..]);
      var head: seq<T> := if q(s[0]) then [s[0]] else [];
      FilterAppend(p, head, Filter(q, s[1..]));
    }
  }

  /** Taking the first row of `a` out of a rearrangement `b` of `a` leaves a
      rearrangement of the rest of `a`. */
  lemma PermutationRemove<T>(a: seq<T>, b: seq<T>, j: int)
    requires multiset(a) == multiset(b) && a != [] && 0 <= j < |b| && b[j] == a[0]
    ensures multiset(a[1..]) == multiset(b[..j] + b[j + 1..])
  {
    assert a == [a[0]] + a[1..];
    assert b == b[..j] + [b[j]] + b[j + 1..];
    var rest := b[..j] + b[j + 1..];
    forall y ensures multiset(a[1..])[y] == multiset(rest)[y] {
      assert multiset(a)[y] == multiset{a[0]}[y] + multiset(a[1..])[y];
      assert multiset(b)[y] == multiset(b[..j])[y] + multiset{b[j]}[y] + multiset(b[j + 1..])[y];
    }
  }
}
