/** Searching and filtering sequences: JavaScript's `Array.prototype.find`,
    `findIndex` and `filter`, and a SQL `WHERE` over a table held in id order. */
module Lists {
  import opened Wrappers

  /** The index of the first element satisfying `p` (`findIndex`, with `None`
      for -1). */
  function First<T>(s: seq<T>, p: T -> bool): (r: Option<nat>)
    ensures r.Some? ==> r.value < |s| && p(s[r.value])
    ensures r.Some? ==> forall k :: 0 <= k < r.value ==> !p(s[k])
    ensures r.None? <==> forall k :: 0 <= k < |s| ==> !p(s[k])
    decreases |s|
  {
    if s == [] then None
    else if p(s[0]) then Some(0)
    else match First(s[1..], p)
      case None => None
      case Some(i) => Some(i + 1)
  }

  /** A position that satisfies `p` with none before it is what `First` finds. */
  lemma FirstAt<T>(s: seq<T>, p: T -> bool, i: nat)
    requires i < |s| && p(s[i])
    requires forall k :: 0 <= k < i ==> !p(s[k])
    ensures First(s, p) == Some(i)
  {
  }

  /** The elements satisfying `p`, in their original order. */
  function Filter<T(!new)>(s: seq<T>, p: T -> bool): (r: seq<T>)
    ensures forall k :: 0 <= k < |r| ==> p(r[k])
    ensures forall x :: multiset(r)[x] == if p(x) then multiset(s)[x] else 0
    decreases |s|
  {
    if s == [] then []
    else
      assert s == [s[0]] + s[1..];
      if p(s[0]) then [s[0]] + Filter(s[1..], p) else Filter(s[1..], p)
  }

  /** Every element of the filtered sequence comes from the sequence. */
  lemma {:induction false} FilterElements<T(!new)>(s: seq<T>, p: T -> bool, k: int)
    requires 0 <= k < |Filter(s, p)|
    ensures Filter(s, p)[k] in s
  {
    assert Filter(s, p)[k] in multiset(Filter(s, p));
  }

  /** A property every element has is a property every kept element has. */
  lemma {:induction false} FilterKeepsProperty<T(!new)>(s: seq<T>, p: T -> bool, q: T -> bool)
    requires forall k :: 0 <= k < |s| ==> q(s[k])
    ensures var r := Filter(s, p); forall k :: 0 <= k < |r| ==> q(r[k])
    decreases |s|
  {
    if s != [] {
      var tail := s[1..];
      assert forall k :: 0 <= k < |tail| ==> q(tail[k]) by {
        forall k | 0 <= k < |tail| ensures q(tail[k]) {
          assert tail[k] == s[k + 1];
        }
      }
      FilterKeepsProperty(tail, p, q);
    }
  }

  ghost predicate Ordered<T>(s: seq<T>, rel: (T, T) -> bool) {
    forall i, j :: 0 <= i < j < |s| ==> rel(s[i], s[j])
  }

  lemma {:induction false} TailOrdered<T>(s: seq<T>, rel: (T, T) -> bool)
    requires s != [] && Ordered(s, rel)
    ensures Ordered(s[1..], rel)
    ensures forall k :: 0 <= k < |s[1..]| ==> rel(s[0], s[1..][k])
  {
    var tail := s[1..];
    forall i, j | 0 <= i < j < |tail| ensures rel(tail[i], tail[j]) {
      assert tail[i] == s[i + 1] && tail[j] == s[j + 1];
    }
    forall k | 0 <= k < |tail| ensures rel(s[0], tail[k]) {
      assert tail[k] == s[k + 1];
    }
  }

  lemma {:induction false} ConsOrdered<T>(x: T, r: seq<T>, rel: (T, T) -> bool)
    requires Ordered(r, rel)
    requires forall k :: 0 <= k < |r| ==> rel(x, r[k])
    ensures Ordered([x] + r, rel)
  {
    var xr := [x] + r;
    forall i, j | 0 <= i < j < |xr| ensures rel(xr[i], xr[j]) {
      assert xr[j] == r[j - 1];
      if i > 0 {
        assert xr[i] == r[i - 1];
      }
    }
  }

  /** Filtering keeps any order the sequence was in: if every earlier element
      stands in `rel` to every later one, the same holds of the filtered
      sequence. */
  lemma {:induction false} FilterKeepsOrder<T(!new)>(s: seq<T>, p: T -> bool, rel: (T, T) -> bool)
    requires Ordered(s, rel)
    ensures Ordered(Filter(s, p), rel)
    decreases |s|
  {
    if s != [] {
      var tail := s[1..];
      TailOrdered(s, rel);
      FilterKeepsOrder(tail, p, rel);
      if p(s[0]) {
        FilterKeepsProperty(tail, p, (x: T) => rel(s[0], x));
        ConsOrdered(s[0], Filter(tail, p), rel);
      }
    }
  }

  /** An element is kept exactly when it occurs and satisfies `p`. */
  lemma FilterMembers<T(!new)>(s: seq<T>, p: T -> bool)
    ensures forall x :: x in Filter(s, p) <==> x in s && p(x)
  {
    forall x ensures x in Filter(s, p) <==> x in s && p(x) {
      assert x in Filter(s, p) <==> x in multiset(Filter(s, p));
      assert x in s <==> x in multiset(s);
    }
  }

  /** Two exclusive predicates whose union is `q` split `Filter(s, q)`
      between them, each element exactly once. */
  lemma {:induction false} FilterPartition<T(!new)>(s: seq<T>, p1: T -> bool, p2: T -> bool, q: T -> bool)
    requires forall x :: q(x) <==> p1(x) || p2(x)
    requires forall x :: !(p1(x) && p2(x))
    ensures multiset(Filter(s, p1)) + multiset(Filter(s, p2)) == multiset(Filter(s, q))
    decreases |s|
  {
    if s != [] {
      FilterPartition(s[1..], p1, p2, q);
    }
  }

  /** Filtering a concatenation filters each part. */
  lemma {:induction false} FilterAppend<T(!new)>(s: seq<T>, t: seq<T>, p: T -> bool)
    ensures Filter(s + t, p) == Filter(s, p) + Filter(t, p)
    decreases |s|
  {
    if s == [] {
      assert s + t == t;
    } else {
      assert (s + t)[0] == s[0] && (s + t)[1..] == s[1..] + t;
      FilterAppend(s[1..], t, p);
    }
  }

  /** Filtering with a predicate every element satisfies changes nothing. */
  lemma {:induction false} FilterAll<T(!new)>(s: seq<T>, p: T -> bool)
    requires forall k :: 0 <= k < |s| ==> p(s[k])
    ensures Filter(s, p) == s
    decreases |s|
  {
    if s != [] {
      FilterAll(s[1..], p);
      assert s == [s[0]] + s[1..];
    }
  }
}
