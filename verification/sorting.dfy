/**
 * Ascending sort by a string key: the model of `sort.Strings` (key: the
 * string itself) and of `sort.Slice` with `less(i, j) = key(i) < key(j)`.
 * The model is an insertion sort; it is stable, Go's `sort.Slice` is not,
 * which matters only for elements with equal keys.
 */
module Sorting {
  import opened Strings

  function Identity(s: string): string { s }

  ghost predicate SortedBy<T>(xs: seq<T>, key: T -> string) {
    forall i, j :: 0 <= i < j < |xs| ==> LessEq(key(xs[i]), key(xs[j]))
  }

  function Insert<T>(x: T, xs: seq<T>, key: T -> string): (r: seq<T>)
    requires SortedBy(xs, key)
    ensures SortedBy(r, key)
    ensures multiset(r) == multiset(xs) + multiset{x}
  {
    if xs == [] then [x]
    else if LessEq(key(x), key(xs[0])) then
      InsertFrontSorted(x, xs, key);
      [x] + xs
    else
      var rest := Insert(x, xs[1..], key);
      assert xs == [xs[0]] + xs[1..];
      LessEqTotal(key(x), key(xs[0]));
      forall y | y in multiset(rest) ensures LessEq(key(xs[0]), key(y)) {
        if y != x {
          assert y in multiset(xs[1..]);
        }
      }
      ConsSorted(xs[0], rest, key);
      [xs[0]] + rest
  }

  lemma InsertFrontSorted<T>(x: T, xs: seq<T>, key: T -> string)
    requires SortedBy(xs, key) && xs != [] && LessEq(key(x), key(xs[0]))
    ensures SortedBy([x] + xs, key)
  {
    forall j | 0 < j < |xs| ensures LessEq(key(x), key(xs[j])) {
      LessEqTransitive(key(x), key(xs[0]), key(xs[j]));
    }
  }

  lemma ConsSorted<T>(x: T, xs: seq<T>, key: T -> string)
    requires SortedBy(xs, key)
    requires forall y | y in multiset(xs) :: LessEq(key(x), key(y))
    ensures SortedBy([x] + xs, key)
  {
    forall j | 0 <= j < |xs| ensures LessEq(key(x), key(xs[j])) {
      assert xs[j] in multiset(xs);
    }
  }

  /** The sorted permutation of `xs`. */
  function SortBy<T>(xs: seq<T>, key: T -> string): (r: seq<T>)
    ensures SortedBy(r, key)
    ensures multiset(r) == multiset(xs)
  {
    if xs == [] then []
    else
      assert xs == [xs[0]] + xs[1..];
      Insert(xs[0], SortBy(xs[1..], key), key)
  }

  lemma SortByMembers<T>(xs: seq<T>, key: T -> string)
    ensures forall x | x in SortBy(xs, key) :: x in xs
  {
    forall x | x in SortBy(xs, key) ensures x in xs {
      assert x in multiset(SortBy(xs, key));
    }
  }

  function Map<T, U>(f: T -> U, xs: seq<T>): (r: seq<U>)
    ensures |r| == |xs|
  {
    if xs == [] then [] else [f(xs[0])] + Map(f, xs[1..])
  }

  lemma {:induction false} MapAt<T, U>(f: T -> U, xs: seq<T>, i: nat)
    requires i < |xs|
    ensures Map(f, xs)[i] == f(xs[i])
  {
    if i > 0 {
      MapAt(f, xs[1..], i - 1);
    }
  }

  lemma {:induction false} MapAppend<T, U>(f: T -> U, a: seq<T>, b: seq<T>)
    ensures Map(f, a + b) == Map(f, a) + Map(f, b)
  {
    if a != [] {
      assert (a + b)[1..] == a[1..] + b;
      MapAppend(f, a[1..], b);
    } else {
      assert a + b == b;
    }
  }

  /**
   * Sorting commutes with a projection that preserves the key: sorting
   * records by a field and then projecting that field is sorting the field.
   */
  lemma {:induction false} SortByMap<T, U>(xs: seq<T>, f: T -> U, kt: T -> string, ku: U -> string)
    requires forall x :: ku(f(x)) == kt(x)
    ensures SortBy(Map(f, xs), ku) == Map(f, SortBy(xs, kt))
  {
    if xs != [] {
      assert Map(f, xs)[1..] == Map(f, xs[1..]);
      SortByMap(xs[1..], f, kt, ku);
      InsertMap(xs[0], SortBy(xs[1..], kt), f, kt, ku);
    }
  }

  lemma {:induction false} InsertMap<T, U>(x: T, xs: seq<T>, f: T -> U, kt: T -> string, ku: U -> string)
    requires forall y :: ku(f(y)) == kt(y)
    requires SortedBy(xs, kt) && SortedBy(Map(f, xs), ku)
    ensures Insert(f(x), Map(f, xs), ku) == Map(f, Insert(x, xs, kt))
  {
    if xs != [] && !LessEq(kt(x), kt(xs[0])) {
      assert Map(f, xs)[1..] == Map(f, xs[1..]);
      assert SortedBy(Map(f, xs[1..]), ku);
      InsertMap(x, xs[1..], f, kt, ku);
    }
  }

  /**
   * Two sorted sequences of strings holding the same strings are equal: the
   * outcome of sorting strings does not depend on the order they arrived in.
   */
  lemma {:induction false} SortedUnique(a: seq<string>, b: seq<string>)
    requires SortedBy(a, Identity) && SortedBy(b, Identity)
    requires multiset(a) == multiset(b)
    ensures a == b
    decreases |a|
  {
    if a != [] {
      assert |b| == |a| by { assert |multiset(b)| == |multiset(a)|; }
      SortedHeads(a, b);
      TailMultiset(a);
      TailMultiset(b);
      SortedUnique(a[1..], b[1..]);
    }
  }

  lemma TailMultiset<T>(a: seq<T>)
    requires a != []
    ensures multiset(a[1..]) == multiset(a) - multiset{a[0]}
  {
    assert a == [a[0]] + a[1..];
  }

  /** Two sorted sequences of strings with the same strings start with the same string. */
  lemma SortedHeads(a: seq<string>, b: seq<string>)
    requires SortedBy(a, Identity) && SortedBy(b, Identity)
    requires multiset(a) == multiset(b) && a != [] && b != []
    ensures a[0] == b[0]
  {
    assert a[0] in multiset(b) && b[0] in multiset(a);
    var i :| 0 <= i < |b| && b[i] == a[0];
    var j :| 0 <= j < |a| && a[j] == b[0];
    assert LessEq(b[0], a[0]) by { if i > 0 { assert LessEq(Identity(b[0]), Identity(b[i])); } }
    assert LessEq(a[0], b[0]) by { if j > 0 { assert LessEq(Identity(a[0]), Identity(a[j])); } }
    LessEqAntisymmetric(a[0], b[0]);
  }
}
