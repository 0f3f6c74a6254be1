/** Python's sorted() with string keys: the order of strings, and a sort that keeps all elements. */
module Sorting {
  // ----- The order Python sorts strings by -----

  predicate Less(a: string, b: string) {
    if a == "" then b != ""
    else b != "" && (a[0] < b[0] || (a[0] == b[0] && Less(a[1..], b[1..])))
  }

  /** The strings agree before position `k`, and there the first one ends or has the smaller character. */
  predicate SmallerAt(a: string, b: string, k: nat) {
    && k <= |a| && k < |b| && a[..k] == b[..k]
    && (k == |a| || a[k] < b[k])
  }

  /** The order is that of dictionaries. */
  lemma {:induction false} LessExactly(a: string, b: string)
    ensures Less(a, b) <==> exists k: nat :: SmallerAt(a, b, k)
  {
    if a == "" {
      if b != "" { assert SmallerAt(a, b, 0); }
    } else if b != "" {
      LessExactly(a[1..], b[1..]);
      if Less(a, b) {
        if a[0] < b[0] {
          assert SmallerAt(a, b, 0);
        } else {
          var k: nat :| SmallerAt(a[1..], b[1..], k);
          assert a[..k + 1] == [a[0]] + a[1..][..k] && b[..k + 1] == [b[0]] + b[1..][..k];
          assert SmallerAt(a, b, k + 1);
        }
      }
      if k: nat :| SmallerAt(a, b, k) {
        if k > 0 {
          assert a[0] == a[..k][0] == b[..k][0] == b[0];
          assert a[1..][..k - 1] == a[..k][1..] && b[1..][..k - 1] == b[..k][1..];
          assert SmallerAt(a[1..], b[1..], k - 1);
        }
      }
    }
  }

  lemma {:induction false} LessTotal(a: string, b: string)
    ensures Less(a, b) || Less(b, a) || a == b
    ensures !(Less(a, b) && Less(b, a)) && !Less(a, a)
  {
    if a != "" {
      LessTotal(a[1..], a[1..]);
    }
    if a != "" && b != "" {
      LessTotal(a[1..], b[1..]);
      assert a == [a[0]] + a[1..] && b == [b[0]] + b[1..];
    }
  }

  lemma {:induction false} LessTransitive(a: string, b: string, c: string)
    requires Less(a, b) && Less(b, c)
    ensures Less(a, c)
  {
    if a != "" && a[0] == b[0] && b[0] == c[0] {
      LessTransitive(a[1..], b[1..], c[1..]);
    }
  }

  /** Among prefixes of one string the sorting order is the order of length. */
  lemma {:induction false} PrefixesByLength(a: string, b: string, s: string)
    requires a <= s && b <= s
    ensures Less(a, b) <==> |a| < |b|
  {
    if a != "" && b != "" {
      PrefixesByLength(a[1..], b[1..], s[1..]);
    }
  }

  // ----- Sorting by a key -----

  ghost predicate DistinctKeys<T>(key: T -> string, xs: seq<T>) {
    forall i, j :: 0 <= i < j < |xs| ==> key(xs[i]) != key(xs[j])
  }

  ghost predicate SortedBy<T>(key: T -> string, xs: seq<T>) {
    forall i, j :: 0 <= i < j < |xs| ==> Less(key(xs[i]), key(xs[j]))
  }

  function Insert<T>(key: T -> string, x: T, xs: seq<T>): seq<T> {
    if xs == [] || !Less(key(xs[0]), key(x)) then [x] + xs else [xs[0]] + Insert(key, x, xs[1..])
  }

  function Sort<T>(key: T -> string, xs: seq<T>): seq<T> {
    if xs == [] then [] else Insert(key, xs[0], Sort(key, xs[1..]))
  }

  lemma {:induction false} InsertKeeps<T>(key: T -> string, x: T, xs: seq<T>)
    ensures multiset(Insert(key, x, xs)) == multiset(xs) + multiset{x}
  {
    if xs == [] || !Less(key(xs[0]), key(x)) {
    } else {
      InsertKeeps(key, x, xs[1..]);
      assert xs == [xs[0]] + xs[1..];
    }
  }

  lemma {:induction false} InsertSorts<T>(key: T -> string, x: T, xs: seq<T>)
    requires SortedBy(key, xs) && forall i :: 0 <= i < |xs| ==> key(xs[i]) != key(x)
    ensures SortedBy(key, Insert(key, x, xs))
  {
    if xs == [] {
    } else if Less(key(xs[0]), key(x)) {
      InsertSorts(key, x, xs[1..]);
      var tail := Insert(key, x, xs[1..]);
      forall i | 0 <= i < |tail| ensures Less(key(xs[0]), key(tail[i])) {
        InsertKeeps(key, x, xs[1..]);
        assert tail[i] in multiset(tail);
        assert tail[i] == x || tail[i] in xs[1..];
      }
      PrependSorted(key, xs[0], tail);
    } else {
      LessTotal(key(x), key(xs[0]));
      forall i | 0 <= i < |xs| ensures Less(key(x), key(xs[i])) {
        if i > 0 { LessTransitive(key(x), key(xs[0]), key(xs[i])); }
      }
      PrependSorted(key, x, xs);
    }
  }

  lemma {:induction false} PrependSorted<T>(key: T -> string, x: T, xs: seq<T>)
    requires SortedBy(key, xs) && forall i :: 0 <= i < |xs| ==> Less(key(x), key(xs[i]))
    ensures SortedBy(key, [x] + xs)
  {
  }

  lemma {:induction false} SortKeeps<T>(key: T -> string, xs: seq<T>)
    ensures multiset(Sort(key, xs)) == multiset(xs)
  {
    if xs != [] {
      SortKeeps(key, xs[1..]);
      InsertKeeps(key, xs[0], Sort(key, xs[1..]));
      assert xs == [xs[0]] + xs[1..];
    }
  }

  lemma {:induction false} SortSorts<T>(key: T -> string, xs: seq<T>)
    requires DistinctKeys(key, xs)
    ensures SortedBy(key, Sort(key, xs))
  {
    if xs != [] {
      SortSorts(key, xs[1..]);
      var rest := Sort(key, xs[1..]);
      forall i | 0 <= i < |rest| ensures key(rest[i]) != key(xs[0]) {
        SameElements(key, xs[1..], rest[i]);
      }
      InsertSorts(key, xs[0], rest);
    }
  }

  lemma {:induction false} SameElements<T>(key: T -> string, xs: seq<T>, x: T)
    ensures x in Sort(key, xs) <==> x in xs
  {
    SortKeeps(key, xs);
    assert x in multiset(xs) <==> x in xs;
    assert x in multiset(Sort(key, xs)) <==> x in Sort(key, xs);
  }

  // ----- Equal keys -----

  ghost predicate Ordered<T>(key: T -> string, xs: seq<T>) {
    forall i, j :: 0 <= i < j < |xs| ==> !Less(key(xs[j]), key(xs[i]))
  }

  /** The elements with the given key, in order. */
  function WithKey<T>(key: T -> string, k: string, xs: seq<T>): seq<T> {
    if xs == [] then []
    else if key(xs[0]) == k then [xs[0]] + WithKey(key, k, xs[1..])
    else WithKey(key, k, xs[1..])
  }

  lemma {:induction false} PrependOrdered<T>(key: T -> string, x: T, xs: seq<T>)
    requires Ordered(key, xs) && (xs != [] ==> !Less(key(xs[0]), key(x)))
    ensures Ordered(key, [x] + xs)
  {
    forall i | 0 <= i < |xs| ensures !Less(key(xs[i]), key(x)) {
      if i > 0 && Less(key(xs[i]), key(x)) {
        LessTotal(key(xs[i]), key(xs[0]));
        LessTotal(key(xs[0]), key(x));
        if Less(key(xs[0]), key(xs[i])) { LessTransitive(key(xs[0]), key(xs[i]), key(x)); }
      }
    }
  }

  lemma {:induction false} InsertOrders<T>(key: T -> string, x: T, xs: seq<T>)
    requires Ordered(key, xs)
    ensures Ordered(key, Insert(key, x, xs))
  {
    if xs == [] || !Less(key(xs[0]), key(x)) {
      PrependOrdered(key, x, xs);
    } else {
      InsertOrders(key, x, xs[1..]);
      LessTotal(key(xs[0]), key(x));
      PrependOrdered(key, xs[0], Insert(key, x, xs[1..]));
    }
  }

  /** Whatever the keys, no element comes behind one with a greater key. */
  lemma {:induction false} SortOrders<T>(key: T -> string, xs: seq<T>)
    ensures Ordered(key, Sort(key, xs))
  {
    if xs != [] {
      SortOrders(key, xs[1..]);
      InsertOrders(key, xs[0], Sort(key, xs[1..]));
    }
  }

  lemma {:induction false} InsertStable<T>(key: T -> string, k: string, x: T, xs: seq<T>)
    ensures WithKey(key, k, Insert(key, x, xs)) == WithKey(key, k, [x] + xs)
  {
    assert ([x] + xs)[1..] == xs;
    if xs != [] && Less(key(xs[0]), key(x)) {
      InsertStable(key, k, x, xs[1..]);
      assert ([x] + xs[1..])[1..] == xs[1..];
      LessTotal(key(xs[0]), key(x));
    }
  }

  /** The sort is stable: elements with equal keys keep their order. */
  lemma {:induction false} SortStable<T>(key: T -> string, k: string, xs: seq<T>)
    ensures WithKey(key, k, Sort(key, xs)) == WithKey(key, k, xs)
  {
    if xs != [] {
      SortStable(key, k, xs[1..]);
      InsertStable(key, k, xs[0], Sort(key, xs[1..]));
      assert ([xs[0]] + Sort(key, xs[1..]))[1..] == Sort(key, xs[1..]);
    }
  }
}
