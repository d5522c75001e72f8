/**
 * LINQ `orderby` on strings. The comparison it uses is the culture's string
 * comparer, which the model does not fix: it is a parameter `leq`, and the
 * properties below hold for every total preorder (sortedness) or total order
 * (canonical result). `OrderBy` is a stable sort; insertion sort is one.
 */
module Sorting {

  ghost predicate TotalPreorder(leq: (string, string) -> bool) {
    && (forall a, b :: leq(a, b) || leq(b, a))
    && (forall a, b, c :: leq(a, b) && leq(b, c) ==> leq(a, c))
  }

  ghost predicate TotalOrder(leq: (string, string) -> bool) {
    && TotalPreorder(leq)
    && (forall a, b :: leq(a, b) && leq(b, a) ==> a == b)
  }

  predicate Sorted(leq: (string, string) -> bool, s: seq<string>) {
    forall i, j :: 0 <= i < j < |s| ==> leq(s[i], s[j])
  }

  /** Puts `x` before the first element it is not after. */
  function Insert(leq: (string, string) -> bool, x: string, s: seq<string>): (r: seq<string>)
    ensures multiset(r) == multiset(s) + multiset{x}
  {
    if |s| == 0 then [x]
    else if leq(x, s[0]) then [x] + s
    else
      assert s == [s[0]] + s[1..];
      [s[0]] + Insert(leq, x, s[1..])
  }

  /** `from d in s orderby d select d`: the same elements, as often as in `s`. */
  function Sort(leq: (string, string) -> bool, s: seq<string>): (r: seq<string>)
    ensures multiset(r) == multiset(s)
    ensures |r| == |s|
  {
    if |s| == 0 then []
    else
      assert s == [s[0]] + s[1..];
      Insert(leq, s[0], Sort(leq, s[1..]))
  }

  lemma {:induction false} InsertSorted(leq: (string, string) -> bool, x: string, s: seq<string>)
    requires TotalPreorder(leq)
    requires Sorted(leq, s)
    ensures Sorted(leq, Insert(leq, x, s))
    decreases |s|
  {
    if |s| > 0 && !leq(x, s[0]) {
      var tail := Insert(leq, x, s[1..]);
      InsertSorted(leq, x, s[1..]);
      forall e | e in tail ensures leq(s[0], e) {
        assert e in multiset(tail);
        assert e == x || e in s[1..];
      }
      ConsSorted(leq, s[0], tail);
    }
  }

  /** A sorted sequence stays sorted under an element that precedes all of it. */
  lemma ConsSorted(leq: (string, string) -> bool, x: string, t: seq<string>)
    requires Sorted(leq, t)
    requires forall e :: e in t ==> leq(x, e)
    ensures Sorted(leq, [x] + t)
  {
    var r := [x] + t;
    forall i, j | 0 <= i < j < |r| ensures leq(r[i], r[j]) {
      if i == 0 {
        assert r[j] == t[j - 1];
      } else {
        assert r[i] == t[i - 1] && r[j] == t[j - 1];
      }
    }
  }

  /** For a total preorder, the result of `Sort` is sorted. */
  lemma {:induction false} SortSorted(leq: (string, string) -> bool, s: seq<string>)
    requires TotalPreorder(leq)
    ensures Sorted(leq, Sort(leq, s))
    decreases |s|
  {
    if |s| > 0 {
      SortSorted(leq, s[1..]);
      InsertSorted(leq, s[0], Sort(leq, s[1..]));
    }
  }

  /** For a total order, two sorted permutations of one another are equal. */
  lemma {:induction false} SortedUnique(leq: (string, string) -> bool, a: seq<string>, b: seq<string>)
    requires TotalOrder(leq)
    requires Sorted(leq, a) && Sorted(leq, b)
    requires multiset(a) == multiset(b)
    ensures a == b
    decreases |a|
  {
    assert |a| == |multiset(a)| == |multiset(b)| == |b|;
    if |a| > 0 {
      SortedHeads(leq, a, b);
      TailMultiset(a, b);
      SortedUnique(leq, a[1..], b[1..]);
      assert a == [a[0]] + a[1..] && b == [b[0]] + b[1..];
    }
  }

  /** Sorted permutations of one another under a total order start alike. */
  lemma SortedHeads(leq: (string, string) -> bool, a: seq<string>, b: seq<string>)
    requires TotalOrder(leq)
    requires Sorted(leq, a) && Sorted(leq, b)
    requires multiset(a) == multiset(b)
    requires |a| > 0 && |b| > 0
    ensures a[0] == b[0]
  {
    assert a[0] in multiset(b) && b[0] in multiset(a);
    assert leq(b[0], a[0]) by {
      var k :| 0 <= k < |b| && b[k] == a[0];
      assert k == 0 || leq(b[0], b[k]);
    }
    assert leq(a[0], b[0]) by {
      var k :| 0 <= k < |a| && a[k] == b[0];
      assert k == 0 || leq(a[0], a[k]);
    }
  }

  lemma TailMultiset(a: seq<string>, b: seq<string>)
    requires |a| > 0 && |b| > 0 && a[0] == b[0]
    requires multiset(a) == multiset(b)
    ensures multiset(a[1..]) == multiset(b[1..])
  {
    assert a == [a[0]] + a[1..] && b == [b[0]] + b[1..];
    assert multiset(a[1..]) == multiset(a) - multiset{a[0]};
    assert multiset(b[1..]) == multiset(b) - multiset{b[0]};
  }

  /** For a total order, `Sort` depends only on the multiset of its input. */
  lemma SortCanonical(leq: (string, string) -> bool, a: seq<string>, b: seq<string>)
    requires TotalOrder(leq)
    requires multiset(a) == multiset(b)
    ensures Sort(leq, a) == Sort(leq, b)
  {
    SortSorted(leq, a);
    SortSorted(leq, b);
    SortedUnique(leq, Sort(leq, a), Sort(leq, b));
  }

  /** Two elements out of order are swapped. */
  lemma SortTwo(leq: (string, string) -> bool, x: string, y: string)
    requires !leq(x, y)
    ensures Sort(leq, [x, y]) == [y, x]
  {
    assert [x, y][1..] == [y];
    assert Sort(leq, [y]) == [y] by {
      assert [y][1..] == [];
    }
    assert Insert(leq, x, [y]) == [y] + Insert(leq, x, []);
  }

  /** `from x in s select f(x)`. */
  function Map<A, B>(f: A -> B, s: seq<A>): (r: seq<B>)
    ensures |r| == |s|
    ensures forall k :: 0 <= k < |s| ==> r[k] == f(s[k])
  {
    seq(|s|, k requires 0 <= k < |s| => f(s[k]))
  }

  lemma MapAppend<A, B>(f: A -> B, a: seq<A>, b: seq<A>)
    ensures Map(f, a + b) == Map(f, a) + Map(f, b)
  {
  }

  lemma MapCons<A, B>(f: A -> B, a: seq<A>)
    requires |a| > 0
    ensures Map(f, a) == [f(a[0])] + Map(f, a[1..])
  {
    var r := [f(a[0])] + Map(f, a[1..]);
    forall k | 0 <= k < |a| ensures Map(f, a)[k] == r[k] {
      if k > 0 {
        assert r[k] == Map(f, a[1..])[k - 1];
      }
    }
  }

  lemma MultisetRemove<A>(b: seq<A>, j: nat)
    requires j < |b|
    ensures multiset(b[..j] + b[j + 1..]) == multiset(b) - multiset{b[j]}
  {
    assert b == b[..j] + [b[j]] + b[j + 1..];
    assert multiset(b) == multiset(b[..j]) + multiset{b[j]} + multiset(b[j + 1..]);
  }

  lemma MapRemove<A, B>(f: A -> B, b: seq<A>, j: nat)
    requires j < |b|
    ensures multiset(Map(f, b)) == multiset(Map(f, b[..j] + b[j + 1..])) + multiset{f(b[j])}
  {
    var l, x, r := b[..j], b[j], b[j + 1..];
    assert b == l + [x] + r;
    MapAppend(f, l + [x], r);
    MapAppend(f, l, [x]);
    MapAppend(f, l, r);
    var ml, mr := Map(f, l), Map(f, r);
    assert Map(f, [x]) == [f(x)];
    assert Map(f, b) == ml + [f(x)] + mr;
    assert multiset(ml + [f(x)] + mr) == multiset(ml) + multiset{f(x)} + multiset(mr);
    assert multiset(ml + mr) == multiset(ml) + multiset(mr);
  }

  lemma FindIndex<A>(x: A, b: seq<A>) returns (j: nat)
    requires x in multiset(b)
    ensures j < |b| && b[j] == x
  {
    assert x in b;
    j :| 0 <= j < |b| && b[j] == x;
  }

  /** Mapping permutations of one another gives permutations of one another. */
  lemma {:induction false} MapMultiset<A, B>(f: A -> B, a: seq<A>, b: seq<A>)
    requires multiset(a) == multiset(b)
    ensures multiset(Map(f, a)) == multiset(Map(f, b))
    decreases |a|
  {
    if |a| == 0 {
      assert |multiset(b)| == 0;
    } else {
      var j := FindIndex(a[0], b);
      var rest := b[..j] + b[j + 1..];
      MultisetRemove(b, j);
      assert a == [a[0]] + a[1..];
      assert multiset(a[1..]) == multiset(a) - multiset{a[0]};
      assert multiset(rest) == multiset(b) - multiset{a[0]};
      MapMultiset(f, a[1..], rest);
      MapRemove(f, b, j);
      MapCons(f, a);
      var m := Map(f, a[1..]);
      assert multiset([f(a[0])] + m) == multiset{f(a[0])} + multiset(m);
    }
  }
}
