/** Greedy scheduling of weighted jobs on identical machines, and Graham's bounds for it. */
module Makespan {

  /** `a[j]` is the machine of job `j`; the load of machine `i` is the weight it was given. */
  function Load(w: seq<real>, a: seq<nat>, i: nat): real
    requires |w| == |a|
  {
    if w == [] then 0.0
    else
      var n := |w| - 1;
      Load(w[..n], a[..n], i) + (if a[n] == i then w[n] else 0.0)
  }

  function Loads(w: seq<real>, a: seq<nat>, m: nat): (r: seq<real>)
    requires |w| == |a|
    ensures |r| == m && forall i | 0 <= i < m :: r[i] == Load(w, a, i)
  {
    seq(m, i requires 0 <= i < m => Load(w, a, i))
  }

  /** `min(range(len(loads)), key=lambda index: (loads[index], index))`. */
  function Lightest(loads: seq<real>): (t: nat)
    requires loads != []
    ensures t < |loads|
    ensures forall i | 0 <= i < |loads| :: loads[t] <= loads[i]
    ensures forall i | 0 <= i < t :: loads[t] < loads[i]
  {
    if |loads| == 1 then 0
    else
      var n := |loads| - 1;
      var t := Lightest(loads[..n]);
      if loads[n] < loads[t] then n else t
  }

  predicate OnMachines(a: seq<nat>, m: nat) {
    forall j | 0 <= j < |a| :: a[j] < m
  }

  /** Each job goes to the machine that is lightest when its turn comes. */
  function Greedy(w: seq<real>, m: nat): (a: seq<nat>)
    requires m >= 1
    ensures |a| == |w| && OnMachines(a, m)
  {
    if w == [] then []
    else
      var n := |w| - 1;
      var a := Greedy(w[..n], m);
      a + [Lightest(Loads(w[..n], a, m))]
  }

  predicate NonNegative(w: seq<real>) {
    forall j | 0 <= j < |w| :: w[j] >= 0.0
  }

  predicate HeaviestFirst(w: seq<real>) {
    forall i, j | 0 <= i < j < |w| :: w[i] >= w[j]
  }

  function Sum(s: seq<real>): real {
    if s == [] then 0.0 else Sum(s[..|s| - 1]) + s[|s| - 1]
  }

  lemma {:induction false} SumUpdate(s: seq<real>, t: nat, d: real)
    requires t < |s|
    ensures Sum(s[t := s[t] + d]) == Sum(s) + d
  {
    var n := |s| - 1;
    var u := s[t := s[t] + d];
    if t == n {
      assert u[..n] == s[..n];
    } else {
      assert u[..n] == s[..n][t := s[t] + d];
      SumUpdate(s[..n], t, d);
    }
  }

  /** `n * x` as repeated addition, which keeps products out of the combinatorial proofs. */
  function Times(n: nat, x: real): real {
    if n == 0 then 0.0 else Times(n - 1, x) + x
  }

  lemma {:induction false} TimesIsProduct(n: nat, x: real)
    ensures Times(n, x) == n as real * x
  {
    if n > 0 {
      TimesIsProduct(n - 1, x);
    }
  }

  lemma {:induction false} TimesMonotone(n: nat, x: real, y: real)
    requires x <= y
    ensures Times(n, x) <= Times(n, y)
  {
    if n > 0 {
      TimesMonotone(n - 1, x, y);
    }
  }

  lemma {:induction false} SumLower(s: seq<real>, low: real)
    requires forall i | 0 <= i < |s| :: low <= s[i]
    ensures Times(|s|, low) <= Sum(s)
  {
    if s != [] {
      SumLower(s[..|s| - 1], low);
    }
  }

  lemma {:induction false} SumUpper(s: seq<real>, high: real)
    requires forall i | 0 <= i < |s| :: s[i] <= high
    ensures Sum(s) <= Times(|s|, high)
  {
    if s != [] {
      SumUpper(s[..|s| - 1], high);
    }
  }

  /** Conservation: the machines together carry exactly the jobs' total weight. */
  lemma {:induction false} LoadsAddUp(w: seq<real>, a: seq<nat>, m: nat)
    requires |w| == |a| && OnMachines(a, m)
    ensures Sum(Loads(w, a, m)) == Sum(w)
  {
    if w == [] {
      SumLower(Loads(w, a, m), 0.0);
      SumUpper(Loads(w, a, m), 0.0);
      TimesIsProduct(m, 0.0);
    } else {
      var n := |w| - 1;
      var before := Loads(w[..n], a[..n], m);
      LoadsAddUp(w[..n], a[..n], m);
      SumUpdate(before, a[n], w[n]);
      assert Loads(w, a, m) == before[a[n] := before[a[n]] + w[n]];
    }
  }

  lemma {:induction false} LoadNonNegative(w: seq<real>, a: seq<nat>, i: nat)
    requires |w| == |a| && NonNegative(w)
    ensures Load(w, a, i) >= 0.0
  {
    if w != [] {
      LoadNonNegative(w[..|w| - 1], a[..|a| - 1], i);
    }
  }

  lemma GreedyPrefix(w: seq<real>, m: nat)
    requires m >= 1 && w != []
    ensures Greedy(w, m)[..|w| - 1] == Greedy(w[..|w| - 1], m)
  {
  }

  /** Heaviest minus lightest machine never exceeds the last job placed on the heavier of the two. */
  lemma {:induction false} GapAtMostLastJob(w: seq<real>, m: nat, i: nat, k: nat, j: nat)
    requires m >= 1 && NonNegative(w) && i < m && j < m
    requires k < |w| && Greedy(w, m)[k] == i && forall l | k < l < |w| :: Greedy(w, m)[l] != i
    ensures Load(w, Greedy(w, m), i) - Load(w, Greedy(w, m), j) <= w[k]
  {
    var n := |w| - 1;
    GreedyPrefix(w, m);
    if k < n {
      assert forall l | 0 <= l < n :: Greedy(w[..n], m)[l] == Greedy(w, m)[l];
      GapAtMostLastJob(w[..n], m, i, k, j);
    }
  }

  /** The score of a job is 2 when it cannot share a machine with the smallest job `p` below `bound`. */
  function Scores(w: seq<real>, p: real, bound: real): (r: seq<real>)
    ensures |r| == |w|
    ensures forall j | 0 <= j < |w| :: r[j] == if w[j] + p > bound then 2.0 else 1.0
  {
    seq(|w|, j requires 0 <= j < |w| => if w[j] + p > bound then 2.0 else 1.0)
  }

  /** What a machine's total score says about its load, when no job is smaller than `p > bound / 3`. */
  lemma {:induction false} ScoreOfMachine(w: seq<real>, a: seq<nat>, i: nat, p: real, bound: real)
    requires |w| == |a| && 3.0 * p > bound >= p
    requires forall j | 0 <= j < |w| :: w[j] >= p
    ensures var (load, score) := (Load(w, a, i), Load(Scores(w, p, bound), a, i));
            || (score == 0.0 && load == 0.0)
            || (score == 1.0 && p <= load <= bound - p)
            || (score == 2.0 && load + p > bound)
            || (score >= 3.0 && load > bound)
  {
    if w != [] {
      var n := |w| - 1;
      assert Scores(w, p, bound)[..n] == Scores(w[..n], p, bound);
      ScoreOfMachine(w[..n], a[..n], i, p, bound);
    }
  }

  /** No machine carries more than `high`. */
  ghost predicate Within(w: seq<real>, a: seq<nat>, m: nat, high: real) {
    |w| == |a| && OnMachines(a, m) && forall i | 0 <= i < m :: Load(w, a, i) <= high
  }

  /** Every machine carries at least `low`. */
  ghost predicate AtLeast(w: seq<real>, a: seq<nat>, m: nat, low: real) {
    |w| == |a| && OnMachines(a, m) && forall i | 0 <= i < m :: low <= Load(w, a, i)
  }

  lemma TotalAtMost(w: seq<real>, a: seq<nat>, m: nat, high: real)
    requires Within(w, a, m, high)
    ensures Sum(w) <= Times(m, high)
  {
    LoadsAddUp(w, a, m);
    SumUpper(Loads(w, a, m), high);
  }

  lemma TotalAtLeast(w: seq<real>, a: seq<nat>, m: nat, low: real)
    requires AtLeast(w, a, m, low)
    ensures Times(m, low) <= Sum(w)
  {
    LoadsAddUp(w, a, m);
    SumLower(Loads(w, a, m), low);
  }

  /** Dropping the last job keeps a schedule within its bound, and that job alone fits below it. */
  lemma DropLastJob(w: seq<real>, b: seq<nat>, m: nat, bound: real)
    requires w != [] && NonNegative(w) && Within(w, b, m, bound)
    ensures Within(w[..|w| - 1], b[..|w| - 1], m, bound)
    ensures 0.0 <= w[|w| - 1] <= bound
  {
    var n := |w| - 1;
    var w', b' := w[..n], b[..n];
    forall i | 0 <= i < m ensures Load(w', b', i) <= bound {
      assert Load(w, b, i) <= bound;
    }
    LoadNonNegative(w', b', b[n]);
    assert Load(w, b, b[n]) <= bound;
  }

  /** Where the last job goes: on top of a machine that was lightest. */
  lemma GreedyStep(w: seq<real>, m: nat, i: nat)
    requires m >= 1 && w != [] && i < m
    ensures var n := |w| - 1;
            var (before, after) := (Load(w[..n], Greedy(w[..n], m), i), Load(w, Greedy(w, m), i));
            after == before ||
            (after == before + w[n] && AtLeast(w[..n], Greedy(w[..n], m), m, before))
  {
    GreedyPrefix(w, m);
    var n := |w| - 1;
    var a := Greedy(w[..n], m);
    assert forall l | 0 <= l < m :: Loads(w[..n], a, m)[l] == Load(w[..n], a, l);
  }

  /**
   * The heart of Graham's 4/3 bound. All jobs are larger than a third of `bound`, and some schedule
   * `b` stays within `bound`. Then the greedy one does too: otherwise every greedy machine already
   * had score 2 or more before the last job came, while `b` can give every machine at most 2.
   */
  lemma LargeJobsFit(w: seq<real>, m: nat, b: seq<nat>, bound: real, light: real)
    requires m >= 1 && w != [] && HeaviestFirst(w) && Within(w, b, m, bound)
    requires 3.0 * w[|w| - 1] > bound >= w[|w| - 1]
    requires AtLeast(w[..|w| - 1], Greedy(w[..|w| - 1], m), m, light)
    ensures light + w[|w| - 1] <= bound
  {
    var n := |w| - 1;
    var p, a := w[n], Greedy(w[..n], m);
    var all, before := Scores(w, p, bound), Scores(w[..n], p, bound);
    assert all[..n] == before;
    if light + p > bound {
      assert AtLeast(before, a, m, 2.0) by {
        forall i | 0 <= i < m ensures 2.0 <= Load(before, a, i) {
          ScoreOfMachine(w[..n], a, i, p, bound);
        }
      }
      assert Within(all, b, m, 2.0) by {
        forall i | 0 <= i < m ensures Load(all, b, i) <= 2.0 {
          ScoreOfMachine(w, b, i, p, bound);
        }
      }
      TotalAtLeast(before, a, m, 2.0);
      TotalAtMost(all, b, m, 2.0);
      assert false;
    }
  }

  /** Graham's ratio for any order of the jobs. */
  function ListRatio(m: nat): real
    requires m >= 1
  {
    2.0 - 1.0 / m as real
  }

  /** Graham's ratio for heaviest job first. */
  function LptRatio(m: nat): real
    requires m >= 1
  {
    4.0 / 3.0 - 1.0 / (3.0 * m as real)
  }

  lemma {:induction false} TimesAddsUp(n: nat, k: nat, x: real, y: real)
    ensures Times(n, x + y) == Times(n, x) + Times(n, y)
    ensures Times(n + k, x) == Times(n, x) + Times(k, x)
  {
    if n > 0 {
      TimesAddsUp(n - 1, k, x, y);
    }
  }

  lemma ListArithmetic(m: nat, x: real, light: real, p: real, bound: real)
    requires m >= 1 && x == light + p && p <= bound && Times(m, light) + p <= Times(m, bound)
    ensures Times(m, x) <= Times(2 * m - 1, bound)
  {
    TimesAddsUp(m, 0, light, p);
    TimesMonotone(m - 1, p, bound);
    TimesAddsUp(m, m - 1, bound, 0.0);
  }

  lemma LptArithmetic(m: nat, x: real, light: real, p: real, bound: real)
    requires m >= 1 && x == light + p && bound >= 0.0 && Times(m, light) + p <= Times(m, bound)
    requires 3.0 * p <= bound || x <= bound
    ensures Times(3 * m, x) <= Times(4 * m - 1, bound)
  {
    TimesAddsUp(2 * m, m, x, 0.0);
    TimesAddsUp(m, m, x, 0.0);
    TimesAddsUp(3 * m, m - 1, bound, 0.0);
    TimesAddsUp(2 * m, m, bound, 0.0);
    TimesAddsUp(m, m, bound, 0.0);
    if 3.0 * p <= bound {
      TimesAddsUp(m, 0, light, p);
      TimesMonotone(m - 1, p + p + p, bound);
      TimesAddsUp(m - 1, 0, p, p);
      TimesAddsUp(m - 1, 0, p + p, p);
    } else {
      TimesMonotone(m, x, bound);
      TimesMonotone(m - 1, 0.0, bound);
      TimesIsProduct(m - 1, 0.0);
    }
  }

  lemma ListQuotient(m: nat, x: real, bound: real)
    requires m >= 1 && Times(m, x) <= Times(2 * m - 1, bound)
    ensures x <= ListRatio(m) * bound
  {
    TimesIsProduct(m, x);
    TimesIsProduct(2 * m - 1, bound);
    Divide(m as real, 2.0, x, bound);
  }

  lemma LptQuotient(m: nat, x: real, bound: real)
    requires m >= 1 && Times(3 * m, x) <= Times(4 * m - 1, bound)
    ensures x <= LptRatio(m) * bound
  {
    TimesIsProduct(3 * m, x);
    TimesIsProduct(4 * m - 1, bound);
    Divide((3 * m) as real, 4.0 / 3.0, x, bound);
  }

  lemma Divide(d: real, c: real, x: real, bound: real)
    requires d > 0.0 && d * x <= (c * d - 1.0) * bound
    ensures x <= (c - 1.0 / d) * bound
  {
    var q := 1.0 / d;
    assert q * d == 1.0;
    assert (c - q) * d == c * d - 1.0;
    Cancel(d, x, (c - q) * bound);
  }

  lemma Cancel(d: real, x: real, y: real)
    requires d > 0.0 && d * x <= d * y
    ensures x <= y
  {
  }

  /** The lightest machine, and the job about to be placed, measured against the other schedule. */
  lemma AverageStep(w: seq<real>, m: nat, b: seq<nat>, bound: real, light: real)
    requires m >= 1 && w != [] && Within(w, b, m, bound)
    requires AtLeast(w[..|w| - 1], Greedy(w[..|w| - 1], m), m, light)
    ensures Times(m, light) + w[|w| - 1] <= Times(m, bound)
  {
    TotalAtLeast(w[..|w| - 1], Greedy(w[..|w| - 1], m), m, light);
    TotalAtMost(w, b, m, bound);
  }

  /** Job `k - 1` brought machine `i` to the load, and the machine was lightest when it did. */
  ghost predicate BroughtTo(w: seq<real>, m: nat, i: nat, k: nat, load: real)
    requires m >= 1 && i < m
  {
    0 < k <= |w| &&
    var before := Load(w[..k - 1], Greedy(w[..k - 1], m), i);
    load == before + w[k - 1] && AtLeast(w[..k - 1], Greedy(w[..k - 1], m), m, before)
  }

  lemma BroughtInPrefix(w: seq<real>, n: nat, m: nat, i: nat, k: nat, load: real)
    requires m >= 1 && i < m && n <= |w| && BroughtTo(w[..n], m, i, k, load)
    ensures BroughtTo(w, m, i, k, load)
  {
    assert w[..n][..k - 1] == w[..k - 1];
  }

  /** The last job a machine received, if any: it was placed while the machine was lightest. */
  lemma {:induction false} LastPlacement(w: seq<real>, m: nat, i: nat) returns (k: nat)
    requires m >= 1 && i < m
    ensures if k == 0 then Load(w, Greedy(w, m), i) == 0.0 else BroughtTo(w, m, i, k, Load(w, Greedy(w, m), i))
  {
    if w == [] {
      k := 0;
    } else {
      var n := |w| - 1;
      GreedyStep(w, m, i);
      if Load(w, Greedy(w, m), i) == Load(w[..n], Greedy(w[..n], m), i) {
        k := LastPlacement(w[..n], m, i);
        if k > 0 {
          BroughtInPrefix(w, n, m, i, k, Load(w[..n], Greedy(w[..n], m), i));
        }
      } else {
        k := |w|;
      }
    }
  }

  lemma {:induction false} PrefixWithin(w: seq<real>, b: seq<nat>, m: nat, bound: real, k: nat)
    requires NonNegative(w) && Within(w, b, m, bound) && k <= |w|
    ensures Within(w[..k], b[..k], m, bound)
  {
    if k < |w| {
      DropLastJob(w, b, m, bound);
      PrefixWithin(w[..|w| - 1], b[..|w| - 1], m, bound, k);
      assert w[..|w| - 1][..k] == w[..k] && b[..|w| - 1][..k] == b[..k];
    } else {
      assert w[..k] == w && b[..k] == b;
    }
  }

  /** What is known about the final load of machine `i` and the job that completed it. */
  lemma CriticalJob(w: seq<real>, m: nat, b: seq<nat>, bound: real, i: nat) returns (light: real, p: real)
    requires m >= 1 && NonNegative(w) && i < m && Within(w, b, m, bound)
    ensures bound >= 0.0 && Load(w, Greedy(w, m), i) == light + p && p <= bound
    ensures Times(m, light) + p <= Times(m, bound)
    ensures HeaviestFirst(w) ==> 3.0 * p <= bound || light + p <= bound
  {
    LoadNonNegative(w, b, 0);
    assert Load(w, b, 0) <= bound;
    var k := LastPlacement(w, m, i);
    if k == 0 {
      light, p := 0.0, 0.0;
      TimesMonotone(m, 0.0, bound);
    } else {
      light, p := Load(w[..k - 1], Greedy(w[..k - 1], m), i), w[k - 1];
      var w', b' := w[..k], b[..k];
      PrefixWithin(w, b, m, bound, k);
      assert w'[..k - 1] == w[..k - 1];
      DropLastJob(w', b', m, bound);
      AverageStep(w', m, b', bound, light);
      if HeaviestFirst(w) && 3.0 * p > bound {
        LargeJobsFit(w', m, b', bound, light);
      }
    }
  }

  /** List scheduling, jobs in any order: at most (2 - 1/m) times any other schedule. */
  lemma ListBound(w: seq<real>, m: nat, b: seq<nat>, bound: real, i: nat)
    requires m >= 1 && NonNegative(w) && i < m && Within(w, b, m, bound)
    ensures Load(w, Greedy(w, m), i) <= ListRatio(m) * bound
  {
    var light, p := CriticalJob(w, m, b, bound, i);
    ListArithmetic(m, Load(w, Greedy(w, m), i), light, p, bound);
    ListQuotient(m, Load(w, Greedy(w, m), i), bound);
  }

  /** Heaviest job first: at most (4/3 - 1/(3m)) times any other schedule. */
  lemma HeaviestFirstBound(w: seq<real>, m: nat, b: seq<nat>, bound: real, i: nat)
    requires m >= 1 && NonNegative(w) && HeaviestFirst(w) && i < m && Within(w, b, m, bound)
    ensures Load(w, Greedy(w, m), i) <= LptRatio(m) * bound
  {
    var light, p := CriticalJob(w, m, b, bound, i);
    LptArithmetic(m, Load(w, Greedy(w, m), i), light, p, bound);
    LptQuotient(m, Load(w, Greedy(w, m), i), bound);
  }
}
