/**
 * The jobs on which handing out the heaviest first meets Graham's bound, for every number of machines:
 * twice each of 2m - 1, ..., m, and one more job of m. The first 2m jobs fill every machine to 3m - 1,
 * and the last one comes on top; another schedule needs 3m.
 */
module Tightness {
  import opened Makespan

  function Size(m: int, i: int): int {
    if i < 2 * m then 2 * m - 1 - i / 2 else m
  }

  function Jobs(m: nat): (w: seq<real>)
    ensures |w| == 2 * m + 1
  {
    seq(2 * m + 1, i => Size(m, i) as real)
  }

  /** Machines of equal load come in pairs, and the first of a pair is filled first. */
  function Swap(m: int, k: int): int {
    if k % 2 == 1 then k - 1 else if k + 1 < m then k + 1 else k
  }

  lemma SwapTwice(m: int, k: int)
    requires 0 <= k < m
    ensures 0 <= Swap(m, k) < m && Swap(m, k) / 2 == k / 2 && Swap(m, Swap(m, k)) == k
  {
  }

  /** The load of machine `j` when the first `n` jobs are placed. */
  function LoadAt(m: int, n: int, j: int): int {
    if n <= m then if j < n then Size(m, j) else 0
    else if n <= 2 * m then if 2 * m - 1 - Swap(m, j) < n then 3 * m - 1 else Size(m, j)
    else if j == 0 then 4 * m - 1 else 3 * m - 1
  }

  /** The machine of job `n`. */
  function Place(m: int, n: int): int {
    if n < m then n else if n < 2 * m then Swap(m, 2 * m - 1 - n) else 0
  }

  lemma PlaceIsMachine(m: nat, n: nat)
    requires 1 <= m && n <= 2 * m
    ensures 0 <= Place(m, n) < m
  {
    if m <= n < 2 * m {
      SwapTwice(m, 2 * m - 1 - n);
    }
  }

  lemma PlaceIsLightest(m: nat, n: nat, j: nat)
    requires m >= 1 && n <= 2 * m && j < m
    ensures LoadAt(m, n, Place(m, n)) <= LoadAt(m, n, j)
    ensures j < Place(m, n) ==> LoadAt(m, n, Place(m, n)) < LoadAt(m, n, j)
  {
    if m <= n < 2 * m {
      SwapTwice(m, 2 * m - 1 - n);
      SwapTwice(m, j);
    }
  }

  lemma PairFills(m: nat, n: nat)
    requires m >= 1 && m <= n < 2 * m
    ensures Size(m, Swap(m, 2 * m - 1 - n)) + Size(m, n) == 3 * m - 1
  {
    var k := 2 * m - 1 - n;
    SwapTwice(m, k);
    assert n / 2 + k / 2 == m - 1;
  }

  lemma LoadAfter(m: nat, n: nat, j: nat)
    requires m >= 1 && n <= 2 * m && j < m
    ensures LoadAt(m, n + 1, j) == LoadAt(m, n, j) + if j == Place(m, n) then Size(m, n) else 0
  {
    if m <= n < 2 * m {
      SwapTwice(m, 2 * m - 1 - n);
      SwapTwice(m, j);
      PairFills(m, n);
    }
  }

  lemma LightestIs(loads: seq<real>, t: nat)
    requires t < |loads| && (forall i | 0 <= i < |loads| :: loads[t] <= loads[i])
    requires forall i | 0 <= i < t :: loads[t] < loads[i]
    ensures Lightest(loads) == t
  {
  }

  ghost predicate LoadIs(m: int, n: int, w: seq<real>, a: seq<nat>, j: nat) {
    |w| == |a| && Load(w, a, j) == LoadAt(m, n, j) as real
  }

  /** The first `k` machines carry what `LoadAt` says. */
  ghost predicate LoadsAre(m: int, n: int, w: seq<real>, a: seq<nat>, k: nat) {
    k == 0 || (LoadsAre(m, n, w, a, k - 1) && LoadIs(m, n, w, a, k - 1))
  }

  lemma {:induction false} OneOfLoads(m: nat, n: nat, w: seq<real>, a: seq<nat>, k: nat, j: nat)
    requires j < k && LoadsAre(m, n, w, a, k)
    ensures LoadIs(m, n, w, a, j)
  {
    if j < k - 1 {
      OneOfLoads(m, n, w, a, k - 1, j);
    }
  }

  lemma NextGoesTo(m: nat, n: nat, w: seq<real>, a: seq<nat>)
    requires m >= 1 && n <= 2 * m && |w| == |a| && LoadsAre(m, n, w, a, m)
    ensures Lightest(Loads(w, a, m)) == Place(m, n)
  {
    var loads := Loads(w, a, m);
    PlaceIsMachine(m, n);
    var t: nat := Place(m, n);
    forall j | 0 <= j < m ensures loads[t] <= loads[j] && (j < t ==> loads[t] < loads[j]) {
      OneOfLoads(m, n, w, a, m, j);
      OneOfLoads(m, n, w, a, m, t);
      PlaceIsLightest(m, n, j);
    }
    LightestIs(loads, t);
  }

  lemma LoadAppends(w: seq<real>, a: seq<nat>, x: real, t: nat, w': seq<real>, a': seq<nat>, j: nat)
    requires |w| == |a| && w' == w + [x] && a' == a + [t]
    ensures Load(w', a', j) == Load(w, a, j) + if j == t then x else 0.0
  {
    assert w'[..|w|] == w && a'[..|w|] == a;
  }

  lemma NextLoad(m: nat, n: nat, w: seq<real>, a: seq<nat>, w': seq<real>, a': seq<nat>, n': nat, t: nat, j: nat)
    requires 1 <= m && n <= 2 * m && j < m && LoadIs(m, n, w, a, j) && t == Place(m, n)
    requires w' == w + [Size(m, n) as real] && a' == a + [t] && n' == n + 1
    ensures LoadIs(m, n', w', a', j)
  {
    LoadAppends(w, a, Size(m, n) as real, t, w', a', j);
    LoadAfter(m, n, j);
  }

  lemma {:induction false} NextLoads(m: nat, n: nat, w: seq<real>, a: seq<nat>, w': seq<real>, a': seq<nat>, n': nat,
                                     t: nat, k: nat)
    requires 1 <= m && n <= 2 * m && LoadsAre(m, n, w, a, m) && k <= m && t == Place(m, n)
    requires w' == w + [Size(m, n) as real] && a' == a + [t] && n' == n + 1
    ensures LoadsAre(m, n', w', a', k)
  {
    if k > 0 {
      NextLoads(m, n, w, a, w', a', n', t, k - 1);
      OneOfLoads(m, n, w, a, m, k - 1);
      NextLoad(m, n, w, a, w', a', n', t, k - 1);
    }
  }

  lemma GreedyAppends(w: seq<real>, x: real, m: nat, w': seq<real>)
    requires m >= 1 && w' == w + [x]
    ensures Greedy(w', m) == Greedy(w, m) + [Lightest(Loads(w, Greedy(w, m), m))]
  {
    assert w'[..|w|] == w;
  }

  lemma NextStep(m: nat, n: nat, jobs: seq<real>, n': nat)
    requires m >= 1 && n <= 2 * m && jobs == Jobs(m) && n' == n + 1
    requires LoadsAre(m, n, jobs[..n], Greedy(jobs[..n], m), m)
    ensures n' <= |jobs| && LoadsAre(m, n', jobs[..n'], Greedy(jobs[..n'], m), m)
  {
    var w, w' := jobs[..n], jobs[..n'];
    var a := Greedy(w, m);
    assert w' == w + [Size(m, n) as real];
    NextGoesTo(m, n, w, a);
    GreedyAppends(w, Size(m, n) as real, m, w');
    PlaceIsMachine(m, n);
    NextLoads(m, n, w, a, w', Greedy(w', m), n', Place(m, n), m);
  }

  lemma {:induction false} NoLoads(m: nat, k: nat)
    requires k <= m
    ensures LoadsAre(m, 0, [], [], k)
  {
    if k > 0 {
      NoLoads(m, k - 1);
    }
  }

  lemma {:induction false} GreedyLoads(m: nat, n: nat, jobs: seq<real>)
    requires m >= 1 && jobs == Jobs(m) && n <= |jobs|
    ensures LoadsAre(m, n, jobs[..n], Greedy(jobs[..n], m), m)
  {
    if n == 0 {
      NoLoads(m, m);
    } else {
      GreedyLoads(m, n - 1, jobs);
      NextStep(m, n - 1, jobs, n);
    }
  }

  // ----- a schedule of length 3m

  /** Job `i` is paired with job `2m - 3 - i`; the three smallest share machine 0. */
  function OtherPlace(m: nat, i: nat): (t: nat)
    requires m >= 1 && i <= 2 * m
    ensures t < m
  {
    if i >= 2 * m - 2 then 0 else if i < m - 1 then 1 + i else 2 * m - 2 - i
  }

  function Other(m: nat): (b: seq<nat>)
    requires m >= 1
    ensures |b| == 2 * m + 1
  {
    seq(2 * m + 1, i requires 0 <= i <= 2 * m => OtherPlace(m, i))
  }

  function OtherLoad(m: nat, n: nat, j: nat): nat
    requires m >= 1 && n <= 2 * m + 1 && j < m
  {
    if j == 0 then if n <= 2 * m - 2 then 0 else if n == 2 * m - 1 then m else if n == 2 * m then 2 * m else 3 * m
    else (if j - 1 < n then Size(m, j - 1) else 0) + if 2 * m - 2 - j < n then Size(m, 2 * m - 2 - j) else 0
  }

  lemma OtherLoadAfter(m: nat, n: nat, j: nat)
    requires m >= 1 && n <= 2 * m && j < m
    ensures OtherLoad(m, n + 1, j) == OtherLoad(m, n, j) + if j == OtherPlace(m, n) then Size(m, n) else 0
  {
  }

  lemma OtherLoadBound(m: nat, j: nat)
    requires m >= 1 && j < m
    ensures OtherLoad(m, 2 * m + 1, j) == 3 * m
  {
    if j > 0 {
      assert (j - 1) / 2 + (2 * m - 2 - j) / 2 == m - 2;
    }
  }

  lemma {:induction false} OtherLoads(m: nat, n: nat, w: seq<real>, b: seq<nat>, j: nat)
    requires m >= 1 && n <= 2 * m + 1 && j < m && w == Jobs(m)[..n] && b == Other(m)[..n]
    ensures Load(w, b, j) == OtherLoad(m, n, j) as real
  {
    if n > 0 {
      assert w[..n - 1] == Jobs(m)[..n - 1] && b[..n - 1] == Other(m)[..n - 1];
      OtherLoads(m, n - 1, w[..n - 1], b[..n - 1], j);
      OtherLoadAfter(m, n - 1, j);
    }
  }

  lemma OtherIsWithin(m: nat)
    requires m >= 1
    ensures Within(Jobs(m), Other(m), m, (3 * m) as real)
  {
    var w, b := Jobs(m), Other(m);
    assert w[..2 * m + 1] == w && b[..2 * m + 1] == b;
    forall j | 0 <= j < m ensures Load(w, b, j) <= (3 * m) as real {
      OtherLoads(m, 2 * m + 1, w, b, j);
      OtherLoadBound(m, j);
    }
  }

  lemma RatioOfThree(m: nat)
    requires m >= 1
    ensures LptRatio(m) * (3 * m) as real == (4 * m - 1) as real
  {
  }

  lemma SizesFall(m: nat)
    requires m >= 1
    ensures NonNegative(Jobs(m)) && HeaviestFirst(Jobs(m))
  {
  }

  /** On every number of machines the bound is met exactly: no smaller ratio would do. */
  lemma HeaviestFirstBoundIsMet(m: nat)
    requires m >= 1
    ensures NonNegative(Jobs(m)) && HeaviestFirst(Jobs(m)) && Within(Jobs(m), Other(m), m, (3 * m) as real)
    ensures Load(Jobs(m), Greedy(Jobs(m), m), 0) == LptRatio(m) * (3 * m) as real
  {
    SizesFall(m);
    OtherIsWithin(m);
    assert Jobs(m)[..2 * m + 1] == Jobs(m);
    GreedyLoads(m, 2 * m + 1, Jobs(m));
    OneOfLoads(m, 2 * m + 1, Jobs(m), Greedy(Jobs(m), m), m, 0);
    RatioOfThree(m);
  }
}
