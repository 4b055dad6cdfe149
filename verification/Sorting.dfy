/**
 * Python's `sorted`: a stable sort, and the fact that a sorted list is determined by its elements. The
 * sort itself is an insertion sort, since which stable algorithm runs makes no difference to its
 * result; what matters is that it permutes, that it orders, and that for an antisymmetric order the
 * result depends on the elements only. Around it are the facts about multisets of list elements that
 * proofs about permutations keep needing.
 */
module Sorting {

  ghost predicate TotalPreorder<T(!new)>(leq: (T, T) -> bool) {
    && (forall a, b :: leq(a, b) || leq(b, a))
    && (forall a, b, c :: leq(a, b) && leq(b, c) ==> leq(a, c))
  }

  ghost predicate Reflexive<T(!new)>(leq: (T, T) -> bool) {
    forall a :: leq(a, a)
  }

  ghost predicate Antisymmetric<T(!new)>(leq: (T, T) -> bool) {
    forall a, b :: leq(a, b) && leq(b, a) ==> a == b
  }

  ghost predicate SortedBy<T>(xs: seq<T>, leq: (T, T) -> bool) {
    forall i, j | 0 <= i < j < |xs| :: leq(xs[i], xs[j])
  }

  /** Places `x` behind every element that is not greater, which is what makes the sort stable. */
  function Insert<T>(x: T, xs: seq<T>, leq: (T, T) -> bool): (r: seq<T>)
    ensures multiset(r) == multiset(xs) + multiset{x}
  {
    if xs == [] then [x]
    else
      var init, last := xs[..|xs| - 1], xs[|xs| - 1];
      assert xs == init + [last];
      if leq(last, x) then xs + [x] else Insert(x, init, leq) + [last]
  }

  function Sort<T>(xs: seq<T>, leq: (T, T) -> bool): (r: seq<T>)
    ensures multiset(r) == multiset(xs)
  {
    if xs == [] then []
    else
      assert xs == xs[..|xs| - 1] + [xs[|xs| - 1]];
      Insert(xs[|xs| - 1], Sort(xs[..|xs| - 1], leq), leq)
  }

  lemma SameElements<T>(xs: seq<T>, ys: seq<T>)
    requires multiset(xs) == multiset(ys)
    ensures |xs| == |ys|
    ensures forall x :: x in xs <==> x in ys
  {
    assert |multiset(xs)| == |xs| && |multiset(ys)| == |ys|;
    forall x ensures x in xs <==> x in ys {
      assert x in xs <==> x in multiset(xs);
      assert x in ys <==> x in multiset(ys);
    }
  }

  lemma CancelMultiset<T>(a: multiset<T>, b: multiset<T>, c: multiset<T>)
    requires a + c == b + c
    ensures a == b
  {
    forall x ensures a[x] == b[x] {
      assert (a + c)[x] == (b + c)[x];
    }
  }

  lemma AddToBoth<T>(a: multiset<T>, b: multiset<T>, c: multiset<T>, d: multiset<T>, e: multiset<T>)
    requires a + b == c + d
    ensures a + e + b == c + e + d
  {
    assert a + e + b == a + b + e;
    assert c + e + d == c + d + e;
  }

  /** The last element of `xs` is somewhere in `ys`; without it the two lists still agree. */
  lemma TakeOut<T>(xs: seq<T>, ys: seq<T>) returns (k: nat)
    requires xs != [] && multiset(xs) == multiset(ys)
    ensures k < |ys| && ys[k] == xs[|xs| - 1]
    ensures multiset(xs[..|xs| - 1]) == multiset(Without(ys, k))
  {
    var x := xs[|xs| - 1];
    assert x in multiset(ys) by {
      assert x in xs && x in multiset(xs);
    }
    k :| 0 <= k < |ys| && ys[k] == x;
    assert xs == xs[..|xs| - 1] + [x];
    WithoutElement(ys, k);
    CancelMultiset(multiset(xs[..|xs| - 1]), multiset(Without(ys, k)), multiset{x});
  }

  function Without<T>(ys: seq<T>, k: nat): seq<T>
    requires k < |ys|
  {
    ys[..k] + ys[k + 1..]
  }

  lemma WithoutElement<T>(ys: seq<T>, k: nat)
    requires k < |ys|
    ensures multiset(ys) == multiset(Without(ys, k)) + multiset{ys[k]}
  {
    assert ys == ys[..k] + [ys[k]] + ys[k + 1..];
  }

  function Map<T, U>(f: T -> U, xs: seq<T>): (r: seq<U>)
    ensures |r| == |xs| && forall i | 0 <= i < |r| :: r[i] == f(xs[i])
  {
    seq(|xs|, i requires 0 <= i < |xs| => f(xs[i]))
  }

  /** Mapping keeps "the same elements in another order". */
  lemma {:induction false} MapKeepsElements<T, U>(f: T -> U, xs: seq<T>, ys: seq<T>)
    requires multiset(xs) == multiset(ys)
    ensures multiset(Map(f, xs)) == multiset(Map(f, ys))
  {
    SameElements(xs, ys);
    if xs == [] {
      assert Map(f, xs) == Map(f, ys);
    } else {
      var n := |xs| - 1;
      var k := TakeOut(xs, ys);
      MapKeepsElements(f, xs[..n], Without(ys, k));
      assert Map(f, xs) == Map(f, xs[..n]) + [f(xs[n])];
      assert Map(f, Without(ys, k)) == Without(Map(f, ys), k);
      WithoutElement(Map(f, ys), k);
    }
  }

  lemma {:induction false} InsertKeepsSorted<T(!new)>(x: T, xs: seq<T>, leq: (T, T) -> bool)
    requires TotalPreorder(leq) && SortedBy(xs, leq)
    ensures SortedBy(Insert(x, xs, leq), leq)
  {
    if xs != [] {
      var init, last := xs[..|xs| - 1], xs[|xs| - 1];
      if leq(last, x) {
        assert forall i | 0 <= i < |xs| :: leq(xs[i], last) && leq(xs[i], x);
      } else {
        InsertKeepsSorted(x, init, leq);
        var r := Insert(x, init, leq);
        forall i | 0 <= i < |r| ensures leq(r[i], last) {
          assert r[i] in multiset(r);
          assert r[i] == x || r[i] in multiset(init);
        }
      }
    }
  }

  lemma {:induction false} SortSorts<T(!new)>(xs: seq<T>, leq: (T, T) -> bool)
    requires TotalPreorder(leq)
    ensures SortedBy(Sort(xs, leq), leq)
  {
    if xs != [] {
      SortSorts(xs[..|xs| - 1], leq);
      InsertKeepsSorted(xs[|xs| - 1], Sort(xs[..|xs| - 1], leq), leq);
    }
  }

  /** Two sorted lists with the same elements are the same list, whatever order the elements came in. */
  lemma {:induction false} SortedIsUnique<T(!new)>(xs: seq<T>, ys: seq<T>, leq: (T, T) -> bool)
    requires Reflexive(leq) && Antisymmetric(leq)
    requires SortedBy(xs, leq) && SortedBy(ys, leq) && multiset(xs) == multiset(ys)
    ensures xs == ys
  {
    SameElements(xs, ys);
    if xs != [] {
      var n := |xs| - 1;
      assert xs[n] in xs && ys[n] in ys;
      LastIsGreatest(xs, leq, ys[n]);
      LastIsGreatest(ys, leq, xs[n]);
      DropLast(xs, leq);
      DropLast(ys, leq);
      SortedIsUnique(xs[..n], ys[..n], leq);
    }
  }

  lemma LastIsGreatest<T(!new)>(xs: seq<T>, leq: (T, T) -> bool, x: T)
    requires Reflexive(leq) && SortedBy(xs, leq) && x in xs
    ensures leq(x, xs[|xs| - 1])
  {
    var i :| 0 <= i < |xs| && xs[i] == x;
  }

  lemma DropLast<T>(xs: seq<T>, leq: (T, T) -> bool)
    requires xs != [] && SortedBy(xs, leq)
    ensures SortedBy(xs[..|xs| - 1], leq)
    ensures xs == xs[..|xs| - 1] + [xs[|xs| - 1]]
    ensures multiset(xs[..|xs| - 1]) == multiset(xs) - multiset{xs[|xs| - 1]}
  {
    assert xs == xs[..|xs| - 1] + [xs[|xs| - 1]];
  }

  lemma SortDependsOnElementsOnly<T(!new)>(xs: seq<T>, ys: seq<T>, leq: (T, T) -> bool)
    requires TotalPreorder(leq) && Antisymmetric(leq)
    requires multiset(xs) == multiset(ys)
    ensures Sort(xs, leq) == Sort(ys, leq)
  {
    SortSorts(xs, leq);
    SortSorts(ys, leq);
    SortedIsUnique(Sort(xs, leq), Sort(ys, leq), leq);
  }

  /** Lexicographic order on code points: how Python compares two strings. */
  predicate StringLeq(a: string, b: string) {
    a == [] || (b != [] && (a[0] < b[0] || (a[0] == b[0] && StringLeq(a[1..], b[1..]))))
  }

  lemma {:induction false} StringLeqTotal(a: string, b: string)
    ensures StringLeq(a, b) || StringLeq(b, a)
    ensures StringLeq(a, b) && StringLeq(b, a) ==> a == b
  {
    if a != [] && b != [] {
      StringLeqTotal(a[1..], b[1..]);
      assert a == [a[0]] + a[1..] && b == [b[0]] + b[1..];
    }
  }

  lemma {:induction false} StringLeqTransitive(a: string, b: string, c: string)
    requires StringLeq(a, b) && StringLeq(b, c)
    ensures StringLeq(a, c)
  {
    if a != [] && a[0] == b[0] && b[0] == c[0] {
      StringLeqTransitive(a[1..], b[1..], c[1..]);
    }
  }

  /** The first position where two strings differ puts them in order. */
  lemma {:induction false} FirstDifferenceDecides(a: string, b: string, k: nat)
    requires k <= |a| && k < |b| && a[..k] == b[..k] && (k < |a| ==> a[k] < b[k])
    ensures StringLeq(a, b) && !StringLeq(b, a)
  {
    if k > 0 {
      assert a[0] == a[..k][0] && b[0] == b[..k][0];
      assert a[1..][..k - 1] == a[..k][1..] && b[1..][..k - 1] == b[..k][1..];
      FirstDifferenceDecides(a[1..], b[1..], k - 1);
    }
  }
}
