/** A stable insertion sort keyed by a string, ascending or descending. It
    stands for JavaScript's `Array.prototype.sort` with a `localeCompare`
    comparator and for SQL `ORDER BY` on a date-time column, whose
    'YYYY-MM-DD HH:MM:SS' text orders as its characters do. */
module Sorting {
  import opened Strings

  /** May `a` come before `b`: keys ascending, or descending when `desc`. */
  predicate InOrder<T>(a: T, b: T, key: T -> string, desc: bool) {
    if desc then !Less(key(a), key(b)) else !Less(key(b), key(a))
  }

  ghost predicate Sorted<T>(s: seq<T>, key: T -> string, desc: bool) {
    forall i, j :: 0 <= i < j < |s| ==> InOrder(s[i], s[j], key, desc)
  }

  lemma InOrderTotal<T>(a: T, b: T, key: T -> string, desc: bool)
    ensures InOrder(a, b, key, desc) || InOrder(b, a, key, desc)
  {
    if key(a) == key(b) {
      LessIrreflexive(key(a));
    } else {
      LessTotal(key(a), key(b));
      if Less(key(a), key(b)) {
        LessAsymmetric(key(a), key(b));
      } else {
        LessAsymmetric(key(b), key(a));
      }
    }
  }

  lemma InOrderTransitive<T>(a: T, b: T, c: T, key: T -> string, desc: bool)
    requires InOrder(a, b, key, desc) && InOrder(b, c, key, desc)
    ensures InOrder(a, c, key, desc)
  {
    var ka, kb, kc := key(a), key(b), key(c);
    if ka == kc {
      LessIrreflexive(ka);
    } else if ka != kb && kb != kc {
      LessTotal(ka, kb);
      LessTotal(kb, kc);
      if desc {
        LessTransitive(kc, kb, ka);
        LessAsymmetric(kc, ka);
      } else {
        LessTransitive(ka, kb, kc);
        LessAsymmetric(ka, kc);
      }
    }
  }

  /** Inserts `x` into `r` after every element that may precede it. */
  function Insert<T>(r: seq<T>, x: T, key: T -> string, desc: bool): (r': seq<T>)
    ensures multiset(r') == multiset(r) + multiset{x}
    decreases |r|
  {
    if r == [] then [x]
    else if InOrder(r[|r| - 1], x, key, desc) then r + [x]
    else
      assert r == r[..|r| - 1] + [r[|r| - 1]];
      Insert(r[..|r| - 1], x, key, desc) + [r[|r| - 1]]
  }

  /** `s` reordered by `key`; elements with equal keys keep their order. */
  function SortBy<T>(s: seq<T>, key: T -> string, desc: bool): (r: seq<T>)
    ensures multiset(r) == multiset(s)
    decreases |s|
  {
    if s == [] then []
    else
      assert s == s[..|s| - 1] + [s[|s| - 1]];
      Insert(SortBy(s[..|s| - 1], key, desc), s[|s| - 1], key, desc)
  }

  lemma {:induction false} InsertSorted<T>(r: seq<T>, x: T, key: T -> string, desc: bool)
    requires Sorted(r, key, desc)
    ensures Sorted(Insert(r, x, key, desc), key, desc)
    decreases |r|
  {
    if r == [] {
    } else if InOrder(r[|r| - 1], x, key, desc) {
      var r' := r + [x];
      forall i, j | 0 <= i < j < |r'| ensures InOrder(r'[i], r'[j], key, desc) {
        if j == |r| && i < |r| - 1 {
          InOrderTransitive(r[i], r[|r| - 1], x, key, desc);
        }
      }
    } else {
      var init, last := r[..|r| - 1], r[|r| - 1];
      InOrderTotal(last, x, key, desc);
      assert Sorted(init, key, desc);
      InsertSorted(init, x, key, desc);
      var mid := Insert(init, x, key, desc);
      var r' := mid + [last];
      forall i, j | 0 <= i < j < |r'| ensures InOrder(r'[i], r'[j], key, desc) {
        if j == |mid| {
          var y := mid[i];
          assert y in multiset(mid);
          assert y in multiset(init) || y == x;
          if y != x {
            var k :| 0 <= k < |init| && init[k] == y;
            assert InOrder(r[k], r[|r| - 1], key, desc);
          }
        }
      }
    }
  }

  /** The sorted sequence is in key order. */
  lemma {:induction false} SortBySorted<T>(s: seq<T>, key: T -> string, desc: bool)
    ensures Sorted(SortBy(s, key, desc), key, desc)
    decreases |s|
  {
    if s != [] {
      SortBySorted(s[..|s| - 1], key, desc);
      InsertSorted(SortBy(s[..|s| - 1], key, desc), s[|s| - 1], key, desc);
    }
  }
}
