/** `scripts/dedup_usage_windows.py`: one closed window, or none, for each cluster. */
module WindowDedup {
  // Rows of one (provider, account, window type) group are clustered by the proximity of their ends,
  // and each cluster is reduced to one closed window or to nothing.

  import opened Sorting

  /** A row with the columns the plan looks at; times are naive UTC, in seconds. */
  datatype Window = Window(id: int, start: real, end: real, model: string, sidecar: string, msgs: int)
  {
    /** The `(window_start, window_end)` tuple that grains of one snapshot share. */
    function Snapshot(): (real, real) { (start, end) }

    predicate IsRollup() { model == "" && sidecar == "" }
  }

  predicate EndsNoLater(a: Window, b: Window) { a.end <= b.end }

  type Cluster = c: seq<Window> | c != [] witness [Window(0, 0.0, 0.0, "", "", 0)]

  function Last(c: Cluster): Window { c[|c| - 1] }

  /** What one more row, in order of its end, does to the clusters so far. */
  function Place(clusters: seq<Cluster>, r: Window, tol: real): seq<Cluster> {
    var n := |clusters|;
    if n > 0 && r.end - Last(clusters[n - 1]).end <= tol
    then clusters[..n - 1] + [clusters[n - 1] + [r]]
    else clusters + [[r]]
  }

  function Clusters(ordered: seq<Window>, tol: real): seq<Cluster> {
    if ordered == [] then []
    else Place(Clusters(ordered[..|ordered| - 1], tol), ordered[|ordered| - 1], tol)
  }

  function ClustersOf(rows: seq<Window>, tol: real): seq<Cluster> {
    Clusters(Sort(rows, EndsNoLater), tol)
  }

  lemma ClustersStep(ordered: seq<Window>, i: nat, tol: real)
    requires i < |ordered|
    ensures Clusters(ordered[..i + 1], tol) == Place(Clusters(ordered[..i], tol), ordered[i], tol)
  {
    assert ordered[..i + 1][..i] == ordered[..i];
  }

  method ClusterByProximity(rows: seq<Window>, tol: real) returns (clusters: seq<Cluster>)
    ensures clusters == ClustersOf(rows, tol)
  {
    var ordered := Sort(rows, EndsNoLater);
    clusters := [];
    for i := 0 to |ordered|
      invariant clusters == Clusters(ordered[..i], tol)
    {
      ClustersStep(ordered, i, tol);
      var r := ordered[i];
      var n := |clusters|;
      if n > 0 && r.end - Last(clusters[n - 1]).end <= tol {
        var grown: Cluster := clusters[n - 1] + [r];
        clusters := clusters[..n - 1] + [grown];
      } else {
        clusters := clusters + [[r]];
      }
    }
    assert ordered[..|ordered|] == ordered;
  }

  /** `max(pool, key=lambda r: r.msgs)`: the first row with the most messages. */
  function MostMessages(pool: Cluster): Window {
    if |pool| == 1 then pool[0]
    else
      var best := MostMessages(pool[..|pool| - 1]);
      if Last(pool).msgs > best.msgs then Last(pool) else best
  }

  lemma {:induction false} MostMessagesIsGreatest(pool: Cluster)
    ensures MostMessages(pool) in pool
    ensures forall x | x in pool :: x.msgs <= MostMessages(pool).msgs
  {
    if |pool| > 1 {
      MostMessagesIsGreatest(pool[..|pool| - 1]);
      assert pool == pool[..|pool| - 1] + [Last(pool)];
    }
  }

  function Rollups(c: seq<Window>): seq<Window> {
    if c == [] then [] else Rollups(c[..|c| - 1]) + if c[|c| - 1].IsRollup() then [c[|c| - 1]] else []
  }

  lemma {:induction false} InRollups(c: seq<Window>, r: Window)
    ensures r in Rollups(c) <==> r in c && r.IsRollup()
  {
    if c != [] {
      InRollups(c[..|c| - 1], r);
      assert c == c[..|c| - 1] + [c[|c| - 1]];
    }
  }

  function Canonical(c: Cluster): Window {
    MostMessages(if Rollups(c) != [] then Rollups(c) else c)
  }

  function LatestEnd(c: Cluster): real {
    if |c| == 1 then c[0].end
    else
      var t := LatestEnd(c[..|c| - 1]);
      if Last(c).end > t then Last(c).end else t
  }

  lemma {:induction false} LatestEndIsReached(c: Cluster) returns (last: Window)
    ensures last in c && last.end == LatestEnd(c)
  {
    if |c| == 1 {
      last := c[0];
    } else {
      last := LatestEndIsReached(c[..|c| - 1]);
      if Last(c).end > last.end {
        last := Last(c);
      }
    }
  }

  lemma {:induction false} LatestEndIsLatest(c: Cluster, r: Window)
    requires r in c
    ensures r.end <= LatestEnd(c)
  {
    if |c| > 1 && r in c[..|c| - 1] {
      LatestEndIsLatest(c[..|c| - 1], r);
    }
  }

  /** The rows of `c` that are not part of the canonical snapshot. */
  function Others(c: seq<Window>, keep: (real, real)): seq<Window> {
    if c == [] then [] else Others(c[..|c| - 1], keep) + if c[|c| - 1].Snapshot() != keep then [c[|c| - 1]] else []
  }

  lemma {:induction false} InOthers(c: seq<Window>, keep: (real, real), r: Window)
    ensures r in Others(c, keep) <==> r in c && r.Snapshot() != keep
  {
    if c != [] {
      InOthers(c[..|c| - 1], keep, r);
      assert c == c[..|c| - 1] + [c[|c| - 1]];
    }
  }

  function DoomedOf(c: Cluster, now: real): seq<Window> {
    if LatestEnd(c) > now then c else Others(c, Canonical(c).Snapshot())
  }

  function Concat(clusters: seq<Cluster>, now: real): seq<Window> {
    if clusters == [] then []
    else Concat(clusters[..|clusters| - 1], now) + DoomedOf(clusters[|clusters| - 1], now)
  }

  /** Half the duration of a window. */
  function Tolerance(duration: real): real { duration / 2.0 }

  /** The rows to delete from one group. */
  function Plan(rows: seq<Window>, duration: real, now: real): seq<Window> {
    Concat(ClustersOf(rows, Tolerance(duration)), now)
  }

  lemma ConcatStep(clusters: seq<Cluster>, i: nat, now: real)
    requires i < |clusters|
    ensures Concat(clusters[..i + 1], now) == Concat(clusters[..i], now) + DoomedOf(clusters[i], now)
  {
    assert clusters[..i + 1][..i] == clusters[..i];
  }

  lemma OthersStep(c: seq<Window>, k: nat, keep: (real, real))
    requires k < |c|
    ensures Others(c[..k + 1], keep) == Others(c[..k], keep) + if c[k].Snapshot() != keep then [c[k]] else []
  {
    assert c[..k + 1][..k] == c[..k];
  }

  method PlanGroupDeletions(rows: seq<Window>, duration: real, now: real) returns (doomed: seq<Window>)
    ensures doomed == Plan(rows, duration, now)
  {
    var clusters := ClusterByProximity(rows, Tolerance(duration));
    doomed := [];
    for i := 0 to |clusters|
      invariant doomed == Concat(clusters[..i], now)
    {
      ConcatStep(clusters, i, now);
      doomed := DeleteFrom(doomed, clusters[i], now);
    }
    assert clusters[..|clusters|] == clusters;
  }

  /** The body of the loop over clusters. */
  method DeleteFrom(before: seq<Window>, c: Cluster, now: real) returns (doomed: seq<Window>)
    ensures doomed == before + DoomedOf(c, now)
  {
    doomed := before;
    if |c| == 1 {
      LoneRow(c, now);
      if c[0].end > now {
        doomed := doomed + [c[0]];
      }
      return;
    }
    if LatestEnd(c) > now {
      doomed := doomed + c;
      return;
    }
    var keep := Canonical(c).Snapshot();
    for k := 0 to |c|
      invariant doomed == before + Others(c[..k], keep)
    {
      OthersStep(c, k, keep);
      if c[k].Snapshot() != keep {
        doomed := doomed + [c[k]];
      }
    }
    assert c[..|c|] == c;
  }

  lemma LoneRow(c: Cluster, now: real)
    requires |c| == 1
    ensures DoomedOf(c, now) == if c[0].end > now then [c[0]] else []
  {
    var r := c[0];
    assert c == [r];
    assert LatestEnd(c) == r.end;
    assert c[..0] == [];
    assert Rollups(c[..0]) == [];
    assert Canonical(c) == r;
    assert Others(c, r.Snapshot()) == Others(c[..0], r.Snapshot());
  }

  // ----- what the clusters are

  ghost predicate Near(a: Window, b: Window, tol: real) {
    -tol <= a.end - b.end <= tol
  }

  /** A chain of rows of `rows`, each within the tolerance of the next. */
  ghost predicate Chain(path: seq<Window>, rows: seq<Window>, tol: real) {
    && (forall i | 0 <= i < |path| :: path[i] in rows)
    && (forall i | 0 <= i < |path| - 1 :: Near(path[i], path[i + 1], tol))
  }

  ghost predicate Connected(a: Window, b: Window, rows: seq<Window>, tol: real) {
    exists path: seq<Window> :: path != [] && path[0] == a && path[|path| - 1] == b && Chain(path, rows, tol)
  }

  ghost predicate Linked(c: Cluster, tol: real) {
    forall i | 0 <= i < |c| - 1 :: 0.0 <= c[i + 1].end - c[i].end <= tol
  }

  ghost predicate AllLinked(clusters: seq<Cluster>, tol: real) {
    forall k | 0 <= k < |clusters| :: Linked(clusters[k], tol)
  }

  /** Each cluster starts more than the tolerance after the one before it ended. */
  ghost predicate Gapped(clusters: seq<Cluster>, tol: real) {
    forall k | 0 < k < |clusters| :: clusters[k][0].end - Last(clusters[k - 1]).end > tol
  }

  function Flatten(clusters: seq<Cluster>): seq<Window> {
    if clusters == [] then [] else Flatten(clusters[..|clusters| - 1]) + clusters[|clusters| - 1]
  }

  ghost predicate GoodClusters(clusters: seq<Cluster>, ordered: seq<Window>, tol: real) {
    Flatten(clusters) == ordered && AllLinked(clusters, tol) && Gapped(clusters, tol)
  }

  lemma FlattenJoined(clusters: seq<Cluster>, r: Window, placed: seq<Cluster>)
    requires clusters != [] && placed == clusters[..|clusters| - 1] + [clusters[|clusters| - 1] + [r]]
    ensures Flatten(placed) == Flatten(clusters) + [r]
  {
    assert placed[..|clusters| - 1] == clusters[..|clusters| - 1];
  }

  lemma LinkedJoined(c: Cluster, r: Window, tol: real)
    requires Linked(c, tol) && Last(c).end <= r.end <= Last(c).end + tol
    ensures Linked(c + [r], tol)
  {
  }

  lemma GapsJoined(clusters: seq<Cluster>, r: Window, tol: real, placed: seq<Cluster>)
    requires clusters != [] && Gapped(clusters, tol)
    requires placed == clusters[..|clusters| - 1] + [clusters[|clusters| - 1] + [r]]
    ensures Gapped(placed, tol)
  {
    forall k | 0 < k < |placed| ensures placed[k][0].end - Last(placed[k - 1]).end > tol {
      assert placed[k][0] == clusters[k][0] && placed[k - 1] == clusters[k - 1];
    }
  }

  lemma JoinLast(clusters: seq<Cluster>, r: Window, tol: real, placed: seq<Cluster>)
    requires clusters != [] && AllLinked(clusters, tol) && Gapped(clusters, tol)
    requires var last := Last(clusters[|clusters| - 1]).end; last <= r.end <= last + tol
    requires placed == clusters[..|clusters| - 1] + [clusters[|clusters| - 1] + [r]]
    ensures Flatten(placed) == Flatten(clusters) + [r] && AllLinked(placed, tol) && Gapped(placed, tol)
  {
    FlattenJoined(clusters, r, placed);
    LinkedJoined(clusters[|clusters| - 1], r, tol);
    GapsJoined(clusters, r, tol, placed);
    forall k | 0 <= k < |placed| ensures Linked(placed[k], tol) {
      assert k < |clusters| - 1 ==> placed[k] == clusters[k];
    }
  }

  lemma OpenNew(clusters: seq<Cluster>, r: Window, tol: real, placed: seq<Cluster>)
    requires AllLinked(clusters, tol) && Gapped(clusters, tol)
    requires clusters != [] ==> r.end - Last(clusters[|clusters| - 1]).end > tol
    requires placed == clusters + [[r]]
    ensures Flatten(placed) == Flatten(clusters) + [r] && AllLinked(placed, tol) && Gapped(placed, tol)
  {
    var n := |clusters|;
    assert placed[..n] == clusters;
    forall k | 0 < k < |placed| ensures placed[k][0].end - Last(placed[k - 1]).end > tol {
      assert placed[k - 1] == clusters[k - 1];
      assert k < n ==> placed[k] == clusters[k];
    }
  }

  lemma LastOfAll(clusters: seq<Cluster>)
    requires clusters != []
    ensures Flatten(clusters) != [] && Flatten(clusters)[|Flatten(clusters)| - 1] == Last(clusters[|clusters| - 1])
  {
  }

  lemma {:induction false} ClustersAreGood(ordered: seq<Window>, tol: real)
    requires SortedBy(ordered, EndsNoLater)
    ensures GoodClusters(Clusters(ordered, tol), ordered, tol)
  {
    if ordered != [] {
      var n := |ordered| - 1;
      var init, r := ordered[..n], ordered[n];
      ClustersAreGood(init, tol);
      assert ordered == init + [r];
      var before := Clusters(init, tol);
      if before != [] {
        LastOfAll(before);
        assert EndsNoLater(ordered[n - 1], ordered[n]);
      }
      if before != [] && r.end - Last(before[|before| - 1]).end <= tol {
        JoinLast(before, r, tol, Clusters(ordered, tol));
      } else {
        OpenNew(before, r, tol, Clusters(ordered, tol));
      }
    }
  }

  lemma ClustersOfAreGood(rows: seq<Window>, tol: real, clusters: seq<Cluster>) returns (ordered: seq<Window>)
    requires clusters == ClustersOf(rows, tol)
    ensures GoodClusters(clusters, ordered, tol)
    ensures forall r :: r in rows <==> r in ordered
  {
    ordered := Sort(rows, EndsNoLater);
    SortSorts(rows, EndsNoLater);
    ClustersAreGood(ordered, tol);
    SameElements(ordered, rows);
  }

  lemma {:induction false} FindCluster(clusters: seq<Cluster>, r: Window) returns (k: nat)
    requires r in Flatten(clusters)
    ensures k < |clusters| && r in clusters[k]
  {
    var n := |clusters| - 1;
    if r in clusters[n] {
      k := n;
    } else {
      k := FindCluster(clusters[..n], r);
    }
  }

  lemma {:induction false} InFlatten(clusters: seq<Cluster>, k: nat, r: Window)
    requires k < |clusters| && r in clusters[k]
    ensures r in Flatten(clusters)
  {
    var n := |clusters| - 1;
    if k < n {
      InFlatten(clusters[..n], k, r);
    }
  }

  lemma {:induction false} EndsRise(c: Cluster, tol: real, i: nat, j: nat)
    requires Linked(c, tol) && i <= j < |c|
    ensures c[i].end <= c[j].end
  {
    if i < j {
      EndsRise(c, tol, i, j - 1);
      var m := j - 1;
      assert 0.0 <= c[m + 1].end - c[m].end;
    }
  }

  lemma {:induction false} GapsAddUp(clusters: seq<Cluster>, tol: real, k: nat, l: nat)
    requires AllLinked(clusters, tol) && Gapped(clusters, tol) && tol >= 0.0 && k < l < |clusters|
    ensures clusters[l][0].end - Last(clusters[k]).end > tol
  {
    if k + 1 < l {
      GapsAddUp(clusters, tol, k, l - 1);
      var c := clusters[l - 1];
      EndsRise(c, tol, 0, |c| - 1);
    }
  }

  /** Rows of different clusters are further apart than the tolerance. */
  lemma ClustersApart(clusters: seq<Cluster>, tol: real, k: nat, l: nat, a: Window, b: Window)
    requires AllLinked(clusters, tol) && Gapped(clusters, tol) && tol >= 0.0
    requires k < l < |clusters| && a in clusters[k] && b in clusters[l]
    ensures b.end - a.end > tol
  {
    var i :| 0 <= i < |clusters[k]| && clusters[k][i] == a;
    var j :| 0 <= j < |clusters[l]| && clusters[l][j] == b;
    EndsRise(clusters[k], tol, i, |clusters[k]| - 1);
    EndsRise(clusters[l], tol, 0, j);
    GapsAddUp(clusters, tol, k, l);
  }

  lemma NearSharesCluster(clusters: seq<Cluster>, tol: real, k: nat, l: nat, a: Window, b: Window)
    requires AllLinked(clusters, tol) && Gapped(clusters, tol) && tol >= 0.0
    requires k < |clusters| && l < |clusters| && a in clusters[k] && b in clusters[l] && Near(a, b, tol)
    ensures k == l
  {
    if k < l {
      ClustersApart(clusters, tol, k, l, a, b);
    } else if l < k {
      ClustersApart(clusters, tol, l, k, b, a);
    }
  }

  ghost predicate BothIn(clusters: seq<Cluster>, k: int, a: Window, b: Window) {
    0 <= k < |clusters| && a in clusters[k] && b in clusters[k]
  }

  ghost predicate Together(clusters: seq<Cluster>, a: Window, b: Window) {
    exists k :: BothIn(clusters, k, a, b)
  }

  lemma Walk(c: Cluster, rows: seq<Window>, tol: real, i: nat, j: nat) returns (path: seq<Window>)
    requires Linked(c, tol) && tol >= 0.0 && i <= j < |c| && forall r | r in c :: r in rows
    ensures path != [] && path[0] == c[i] && path[|path| - 1] == c[j] && Chain(path, rows, tol)
  {
    path := c[i..j + 1];
  }

  function Reversed(path: seq<Window>): seq<Window> {
    seq(|path|, k requires 0 <= k < |path| => path[|path| - 1 - k])
  }

  lemma ReversedChain(path: seq<Window>, rows: seq<Window>, tol: real)
    requires Chain(path, rows, tol)
    ensures Chain(Reversed(path), rows, tol)
  {
    var back := Reversed(path);
    forall k | 0 <= k < |back| - 1 ensures Near(back[k], back[k + 1], tol) {
      var m := |path| - 2 - k;
      assert Near(path[m], path[m + 1], tol);
    }
  }

  lemma LinkedIsChain(c: Cluster, rows: seq<Window>, tol: real, i: nat, j: nat)
    requires Linked(c, tol) && tol >= 0.0 && i < |c| && j < |c| && forall r | r in c :: r in rows
    ensures Connected(c[i], c[j], rows, tol)
  {
    if i <= j {
      var path := Walk(c, rows, tol, i, j);
    } else {
      var path := Walk(c, rows, tol, j, i);
      ReversedChain(path, rows, tol);
      assert Reversed(path)[0] == c[i];
    }
  }

  lemma ChainTail(path: seq<Window>, rows: seq<Window>, tol: real)
    requires Chain(path, rows, tol) && path != []
    ensures Chain(path[1..], rows, tol)
  {
    var rest := path[1..];
    forall i | 0 <= i < |rest| - 1 ensures Near(rest[i], rest[i + 1], tol) {
      var i' := i + 1;
      assert rest[i] == path[i'] && rest[i + 1] == path[i' + 1];
    }
  }

  lemma {:induction false} ChainStaysInside(clusters: seq<Cluster>, ordered: seq<Window>, tol: real,
                                            path: seq<Window>, k: nat)
    requires GoodClusters(clusters, ordered, tol) && tol >= 0.0 && Chain(path, ordered, tol) && path != []
    requires k < |clusters| && path[0] in clusters[k]
    ensures path[|path| - 1] in clusters[k]
  {
    if |path| > 1 {
      var l := FindCluster(clusters, path[1]);
      assert Near(path[0], path[0 + 1], tol);
      NearSharesCluster(clusters, tol, k, l, path[0], path[1]);
      ChainTail(path, ordered, tol);
      ChainStaysInside(clusters, ordered, tol, path[1..], k);
    }
  }

  lemma TogetherIsConnected(clusters: seq<Cluster>, ordered: seq<Window>, tol: real, a: Window, b: Window)
    requires GoodClusters(clusters, ordered, tol) && tol >= 0.0 && Together(clusters, a, b)
    ensures Connected(a, b, ordered, tol)
  {
    var k :| BothIn(clusters, k, a, b);
    var i :| 0 <= i < |clusters[k]| && clusters[k][i] == a;
    var j :| 0 <= j < |clusters[k]| && clusters[k][j] == b;
    forall r | r in clusters[k] ensures r in ordered {
      InFlatten(clusters, k, r);
    }
    LinkedIsChain(clusters[k], ordered, tol, i, j);
  }

  lemma ConnectedIsTogether(clusters: seq<Cluster>, ordered: seq<Window>, tol: real, a: Window, b: Window)
    requires GoodClusters(clusters, ordered, tol) && tol >= 0.0 && Connected(a, b, ordered, tol)
    ensures Together(clusters, a, b)
  {
    var path: seq<Window> :| path != [] && path[0] == a && path[|path| - 1] == b && Chain(path, ordered, tol);
    var k := FindCluster(clusters, a);
    ChainStaysInside(clusters, ordered, tol, path, k);
    assert BothIn(clusters, k, a, b);
  }

  lemma ConnectedInMore(a: Window, b: Window, fewer: seq<Window>, rows: seq<Window>, tol: real)
    requires Connected(a, b, fewer, tol) && forall r | r in fewer :: r in rows
    ensures Connected(a, b, rows, tol)
  {
    var path: seq<Window> :| path != [] && path[0] == a && path[|path| - 1] == b && Chain(path, fewer, tol);
    assert Chain(path, rows, tol);
  }

  /** The clusters are exactly the connected components of "ends within the tolerance". */
  lemma ClustersAreComponents(rows: seq<Window>, tol: real, clusters: seq<Cluster>, a: Window, b: Window)
    requires tol >= 0.0 && clusters == ClustersOf(rows, tol)
    ensures Together(clusters, a, b) <==> Connected(a, b, rows, tol)
  {
    var ordered := ClustersOfAreGood(rows, tol, clusters);
    if Together(clusters, a, b) {
      TogetherIsConnected(clusters, ordered, tol, a, b);
      ConnectedInMore(a, b, ordered, rows, tol);
    }
    if Connected(a, b, rows, tol) {
      ConnectedInMore(a, b, rows, ordered, tol);
      ConnectedIsTogether(clusters, ordered, tol, a, b);
    }
  }

  // ----- recovering the real windows

  /** Each row's end jitters around the end of the window it belongs to; real ends are `duration` apart. */
  ghost predicate Jittered(rows: seq<Window>, belongs: Window -> int, ends: int -> real, duration: real, jitter: real) {
    && (forall r | r in rows :: -jitter <= r.end - ends(belongs(r)) <= jitter)
    && (forall r, s | r in rows && s in rows && belongs(r) != belongs(s) ::
          ends(belongs(r)) - ends(belongs(s)) >= duration || ends(belongs(s)) - ends(belongs(r)) >= duration)
  }

  lemma NearIffMates(rows: seq<Window>, belongs: Window -> int, ends: int -> real, tol: real, jitter: real,
                     a: Window, b: Window)
    requires Jittered(rows, belongs, ends, 2.0 * tol, jitter) && 2.0 * jitter < tol && a in rows && b in rows
    ensures tol >= 0.0
    ensures Near(a, b, tol) <==> belongs(a) == belongs(b)
  {
    assert -jitter <= a.end - ends(belongs(a)) <= jitter;
    assert -jitter <= b.end - ends(belongs(b)) <= jitter;
  }

  lemma {:induction false} ChainKeepsWindow(rows: seq<Window>, belongs: Window -> int, ends: int -> real,
                                            tol: real, jitter: real, path: seq<Window>)
    requires Jittered(rows, belongs, ends, 2.0 * tol, jitter) && 2.0 * jitter < tol
    requires Chain(path, rows, tol) && path != []
    ensures belongs(path[0]) == belongs(path[|path| - 1])
  {
    if |path| > 1 {
      assert Near(path[0], path[0 + 1], tol);
      NearIffMates(rows, belongs, ends, tol, jitter, path[0], path[1]);
      ChainTail(path, rows, tol);
      ChainKeepsWindow(rows, belongs, ends, tol, jitter, path[1..]);
    }
  }

  lemma NearIsConnected(rows: seq<Window>, tol: real, a: Window, b: Window)
    requires a in rows && b in rows && Near(a, b, tol)
    ensures Connected(a, b, rows, tol)
  {
    var path := [a, b];
    assert path[0] == a && path[|path| - 1] == b && Chain(path, rows, tol);
  }

  lemma ConnectedIffMates(rows: seq<Window>, belongs: Window -> int, ends: int -> real, tol: real, jitter: real,
                          a: Window, b: Window)
    requires Jittered(rows, belongs, ends, 2.0 * tol, jitter) && 2.0 * jitter < tol && a in rows && b in rows
    ensures tol >= 0.0
    ensures Connected(a, b, rows, tol) <==> belongs(a) == belongs(b)
  {
    NearIffMates(rows, belongs, ends, tol, jitter, a, b);
    if Connected(a, b, rows, tol) {
      var path: seq<Window> :| path != [] && path[0] == a && path[|path| - 1] == b && Chain(path, rows, tol);
      ChainKeepsWindow(rows, belongs, ends, tol, jitter, path);
    }
    if belongs(a) == belongs(b) {
      NearIsConnected(rows, tol, a, b);
    }
  }

  /** With jitter below a quarter of the duration, the clusters are the logical windows. */
  lemma RecoversWindows(rows: seq<Window>, belongs: Window -> int, ends: int -> real, duration: real, jitter: real,
                        clusters: seq<Cluster>, a: Window, b: Window)
    requires Jittered(rows, belongs, ends, duration, jitter) && 4.0 * jitter < duration && a in rows && b in rows
    requires clusters == ClustersOf(rows, Tolerance(duration))
    ensures Together(clusters, a, b) <==> belongs(a) == belongs(b)
  {
    var tol := Tolerance(duration);
    ConnectedIffMates(rows, belongs, ends, tol, jitter, a, b);
    ClustersAreComponents(rows, tol, clusters, a, b);
  }

  /** The clusters of the rows are the real windows. */
  ghost predicate Recovered(rows: seq<Window>, belongs: Window -> int, duration: real) {
    forall a, b | a in rows && b in rows ::
      Together(ClustersOf(rows, Tolerance(duration)), a, b) <==> belongs(a) == belongs(b)
  }

  lemma AlwaysRecovered(rows: seq<Window>, belongs: Window -> int, ends: int -> real, duration: real, jitter: real)
    requires Jittered(rows, belongs, ends, duration, jitter) && 4.0 * jitter < duration
    ensures Recovered(rows, belongs, duration)
  {
    var clusters := ClustersOf(rows, Tolerance(duration));
    forall a, b | a in rows && b in rows ensures Together(clusters, a, b) <==> belongs(a) == belongs(b) {
      RecoversWindows(rows, belongs, ends, duration, jitter, clusters, a, b);
    }
  }

  lemma PairIsJittered(a: Window, b: Window, belongs: Window -> int, ends: int -> real, duration: real, jitter: real)
    requires -jitter <= a.end - ends(belongs(a)) <= jitter && -jitter <= b.end - ends(belongs(b)) <= jitter
    requires ends(belongs(b)) - ends(belongs(a)) >= duration
    ensures Jittered([a, b], belongs, ends, duration, jitter)
  {
    forall r | r in [a, b] ensures r == a || r == b {
    }
  }

  /** From a quarter of the duration on, two real windows can run into one cluster. */
  lemma QuarterIsTooMuch(a: Window, b: Window, belongs: Window -> int, ends: int -> real, duration: real, jitter: real,
                         quarter: real)
    requires duration == 4.0 * quarter && 0.0 < quarter <= jitter && a.end == quarter && b.end == 3.0 * quarter
    requires belongs(a) == 0 && belongs(b) == 1 && ends(0) == 0.0 && ends(1) == duration
    ensures Jittered([a, b], belongs, ends, duration, jitter) && !Recovered([a, b], belongs, duration)
  {
    PairIsJittered(a, b, belongs, ends, duration, jitter);
    PairRunsTogether(a, b, Tolerance(duration));
    assert a in [a, b] && b in [a, b];
  }

  lemma PairRunsTogether(a: Window, b: Window, tol: real)
    requires tol >= 0.0 && Near(a, b, tol)
    ensures Together(ClustersOf([a, b], tol), a, b)
  {
    NearIsConnected([a, b], tol, a, b);
    ClustersAreComponents([a, b], tol, ClustersOf([a, b], tol), a, b);
  }

  /** The clusters are the real windows, in every jittered table, exactly when the jitter is below a quarter. */
  lemma RecoversExactlyWhen(duration: real, jitter: real)
    requires duration > 0.0 && jitter >= 0.0
    ensures (forall rows: seq<Window>, belongs: Window -> int, ends: int -> real
               | Jittered(rows, belongs, ends, duration, jitter) :: Recovered(rows, belongs, duration))
            <==> 4.0 * jitter < duration
  {
    if 4.0 * jitter < duration {
      forall rows: seq<Window>, belongs: Window -> int, ends: int -> real
        | Jittered(rows, belongs, ends, duration, jitter)
        ensures Recovered(rows, belongs, duration)
      {
        AlwaysRecovered(rows, belongs, ends, duration, jitter);
      }
    } else {
      var quarter := duration / 4.0;
      var belongs: Window -> int := (r: Window) => r.id;
      var ends: int -> real := (w: int) => if w == 0 then 0.0 else duration;
      QuarterIsTooMuch(Window(0, 0.0, quarter, "", "", 0), Window(1, 0.0, 3.0 * quarter, "", "", 0),
                       belongs, ends, duration, jitter, quarter);
    }
  }

  // ----- what the plan deletes

  lemma {:induction false} FindDoomed(clusters: seq<Cluster>, now: real, r: Window) returns (k: nat)
    requires r in Concat(clusters, now)
    ensures k < |clusters| && r in DoomedOf(clusters[k], now)
  {
    var n := |clusters| - 1;
    if r in DoomedOf(clusters[n], now) {
      k := n;
    } else {
      k := FindDoomed(clusters[..n], now, r);
    }
  }

  lemma {:induction false} InConcat(clusters: seq<Cluster>, now: real, k: nat, r: Window)
    requires k < |clusters| && r in DoomedOf(clusters[k], now)
    ensures r in Concat(clusters, now)
  {
    var n := |clusters| - 1;
    var before := clusters[..n];
    assert Concat(clusters, now) == Concat(before, now) + DoomedOf(clusters[n], now);
    if k < n {
      assert before[k] == clusters[k];
      InConcat(before, now, k, r);
    }
  }

  lemma DoomedInCluster(c: Cluster, now: real, r: Window)
    ensures r in DoomedOf(c, now) <==> r in c && (LatestEnd(c) > now || r.Snapshot() != Canonical(c).Snapshot())
  {
    InOthers(c, Canonical(c).Snapshot(), r);
  }

  lemma DoomedExactlyWhen(clusters: seq<Cluster>, tol: real, now: real, k: nat, r: Window)
    requires AllLinked(clusters, tol) && Gapped(clusters, tol) && tol >= 0.0
    requires k < |clusters| && r in clusters[k]
    ensures r in Concat(clusters, now) <==>
              LatestEnd(clusters[k]) > now || r.Snapshot() != Canonical(clusters[k]).Snapshot()
  {
    DoomedInCluster(clusters[k], now, r);
    if r in Concat(clusters, now) {
      var l := FindDoomed(clusters, now, r);
      DoomedInCluster(clusters[l], now, r);
      NearSharesCluster(clusters, tol, k, l, r, r);
    }
    if r in DoomedOf(clusters[k], now) {
      InConcat(clusters, now, k, r);
    }
  }

  /**
   * Cluster by cluster: one that ends in the future is emptied, and of a closed one exactly the rows
   * stay that share the start and end of its canonical row.
   */
  lemma DeletedExactlyWhen(rows: seq<Window>, duration: real, now: real, clusters: seq<Cluster>, k: nat, r: Window)
    requires duration >= 0.0 && clusters == ClustersOf(rows, Tolerance(duration))
    requires k < |clusters| && r in clusters[k]
    ensures r in Plan(rows, duration, now) <==>
              LatestEnd(clusters[k]) > now || r.Snapshot() != Canonical(clusters[k]).Snapshot()
  {
    var ordered := ClustersOfAreGood(rows, Tolerance(duration), clusters);
    DoomedExactlyWhen(clusters, Tolerance(duration), now, k, r);
  }

  /** The canonical row is the rollup with the most messages, or the row with the most if there is no rollup. */
  lemma CanonicalRow(c: Cluster)
    ensures Canonical(c) in c
    ensures (exists r :: r in c && r.IsRollup()) ==>
              Canonical(c).IsRollup() && forall r | r in c && r.IsRollup() :: r.msgs <= Canonical(c).msgs
    ensures !(exists r :: r in c && r.IsRollup()) ==> forall r | r in c :: r.msgs <= Canonical(c).msgs
  {
    forall r ensures r in Rollups(c) <==> r in c && r.IsRollup() {
      InRollups(c, r);
    }
    if Rollups(c) == [] {
      MostMessagesIsGreatest(c);
    } else {
      assert Rollups(c)[0] in Rollups(c);
      MostMessagesIsGreatest(Rollups(c));
    }
  }

  /** Names neither a model nor a sidecar: the row sums up its snapshot. */
  predicate SumsUp(r: Window) { r.model == "" && r.sidecar == "" }

  /** Row `b` comes before row `x` when the snapshot to keep is chosen: rollups first, then by messages. */
  predicate Beats(b: Window, x: Window) {
    if SumsUp(b) == SumsUp(x) then b.msgs > x.msgs else SumsUp(b)
  }

  /** The first of the rows that no other beats. */
  ghost predicate FirstBest(c: seq<Window>, b: nat) {
    && b < |c|
    && (forall i | 0 <= i < b :: Beats(c[b], c[i]))
    && (forall i | b <= i < |c| :: !Beats(c[i], c[b]))
  }

  /** `b` is the first row with the most messages. */
  ghost predicate FirstMost(c: seq<Window>, b: nat) {
    && b < |c|
    && (forall i | 0 <= i < b :: c[b].msgs > c[i].msgs)
    && (forall i | b <= i < |c| :: c[i].msgs <= c[b].msgs)
  }

  lemma {:induction false} MostMessagesIsFirst(pool: Cluster, b: nat)
    requires FirstMost(pool, b)
    ensures MostMessages(pool) == pool[b]
  {
    if b < |pool| - 1 {
      MostMessagesIsFirst(pool[..|pool| - 1], b);
    } else if b > 0 {
      MostMessagesIsGreatest(pool[..b]);
    }
  }

  lemma {:induction false} FirstBestOfRollups(c: seq<Window>, b: nat) returns (k: nat)
    requires FirstBest(c, b) && SumsUp(c[b])
    ensures FirstMost(Rollups(c), k) && Rollups(c)[k] == c[b]
  {
    var n := |c| - 1;
    var before := Rollups(c[..n]);
    if b < n {
      k := FirstBestOfRollups(c[..n], b);
    } else {
      k := |before|;
      forall i | 0 <= i < k ensures c[b].msgs > before[i].msgs {
        InRollups(c[..n], before[i]);
        assert before[i] in before;
      }
    }
  }

  lemma {:induction false} NoRollups(c: seq<Window>)
    requires forall i | 0 <= i < |c| :: !SumsUp(c[i])
    ensures Rollups(c) == []
  {
    if c != [] {
      NoRollups(c[..|c| - 1]);
    }
  }

  lemma CanonicalIsFirstBest(c: Cluster, b: nat)
    requires FirstBest(c, b)
    ensures Canonical(c) == c[b]
  {
    if SumsUp(c[b]) {
      var k := FirstBestOfRollups(c, b);
      MostMessagesIsFirst(Rollups(c), k);
    } else {
      NoRollups(c);
      MostMessagesIsFirst(c, b);
    }
  }

  /**
   * Which rows of a cluster are deleted, read off the rows: all of them if one ends in the future, and
   * otherwise those that do not share start and end with the first of the best rows.
   */
  lemma DeletedReadOff(rows: seq<Window>, duration: real, now: real, clusters: seq<Cluster>, k: nat, r: Window, b: nat)
    requires duration >= 0.0 && clusters == ClustersOf(rows, Tolerance(duration))
    requires k < |clusters| && r in clusters[k] && FirstBest(clusters[k], b)
    ensures r in Plan(rows, duration, now) <==>
              || (exists x :: x in clusters[k] && x.end > now)
              || r.start != clusters[k][b].start || r.end != clusters[k][b].end
  {
    var c := clusters[k];
    DeletedExactlyWhen(rows, duration, now, clusters, k, r);
    CanonicalIsFirstBest(c, b);
    var last := LatestEndIsReached(c);
    forall x | x in c ensures x.end <= LatestEnd(c) {
      LatestEndIsLatest(c, x);
    }
  }

  lemma {:induction false} OthersAreSome(c: seq<Window>, keep: (real, real))
    ensures multiset(Others(c, keep)) <= multiset(c)
  {
    if c != [] {
      var n := |c| - 1;
      OthersAreSome(c[..n], keep);
      assert c == c[..n] + [c[n]];
    }
  }

  lemma {:induction false} DoomedAreSome(clusters: seq<Cluster>, now: real)
    ensures multiset(Concat(clusters, now)) <= multiset(Flatten(clusters))
  {
    if clusters != [] {
      var n := |clusters| - 1;
      DoomedAreSome(clusters[..n], now);
      OthersAreSome(clusters[n], Canonical(clusters[n]).Snapshot());
    }
  }

  /** No row is listed for deletion more often than it is there. */
  lemma PlanListsOnce(rows: seq<Window>, duration: real, now: real)
    ensures multiset(Plan(rows, duration, now)) <= multiset(rows)
  {
    var clusters := ClustersOf(rows, Tolerance(duration));
    SortSorts(rows, EndsNoLater);
    ClustersAreGood(Sort(rows, EndsNoLater), Tolerance(duration));
    DoomedAreSome(clusters, now);
  }

  /** There always is such a row. */
  lemma {:induction false} SomeRowIsFirstBest(c: Cluster) returns (b: nat)
    ensures FirstBest(c, b)
  {
    if |c| == 1 {
      b := 0;
    } else {
      var n := |c| - 1;
      b := SomeRowIsFirstBest(c[..n]);
      if Beats(c[n], c[b]) {
        b := n;
      }
    }
  }

  /** Two survivors of one cluster: the cluster is closed, and both belong to its canonical snapshot. */
  lemma SurvivorsAgree(clusters: seq<Cluster>, tol: real, now: real, a: Window, b: Window)
    requires AllLinked(clusters, tol) && Gapped(clusters, tol) && tol >= 0.0
    requires a !in Concat(clusters, now) && b !in Concat(clusters, now) && Together(clusters, a, b)
    ensures a.Snapshot() == b.Snapshot() && a.end <= now
  {
    var k :| BothIn(clusters, k, a, b);
    DoomedExactlyWhen(clusters, tol, now, k, a);
    DoomedExactlyWhen(clusters, tol, now, k, b);
    LatestEndIsLatest(clusters[k], a);
  }

  /** The rows of one cluster of the survivors belong to one closed snapshot. */
  lemma OneSnapshotLeft(clusters: seq<Cluster>, ordered: seq<Window>, tol: real, now: real,
                        clusters': seq<Cluster>, ordered': seq<Window>, a: Window, b: Window)
    requires tol >= 0.0 && GoodClusters(clusters, ordered, tol) && GoodClusters(clusters', ordered', tol)
    requires forall r | r in ordered' :: r in ordered
    requires a !in Concat(clusters, now) && b !in Concat(clusters, now) && Together(clusters', a, b)
    ensures a.Snapshot() == b.Snapshot() && a.end <= now
  {
    TogetherIsConnected(clusters', ordered', tol, a, b);
    ConnectedInMore(a, b, ordered', ordered, tol);
    ConnectedIsTogether(clusters, ordered, tol, a, b);
    SurvivorsAgree(clusters, tol, now, a, b);
  }

  lemma {:induction false} NoOthers(c: seq<Window>, keep: (real, real))
    requires forall i | 0 <= i < |c| :: c[i].Snapshot() == keep
    ensures Others(c, keep) == []
  {
    if c != [] {
      NoOthers(c[..|c| - 1], keep);
    }
  }

  lemma NothingDoomedIn(c: Cluster, now: real)
    requires forall a, b | a in c && b in c :: a.Snapshot() == b.Snapshot() && a.end <= now
    ensures DoomedOf(c, now) == []
  {
    CanonicalRow(c);
    var last := LatestEndIsReached(c);
    var keep := Canonical(c);
    assert last.end <= now && last.Snapshot() == keep.Snapshot();
    forall i | 0 <= i < |c| ensures c[i].Snapshot() == keep.Snapshot() {
      assert c[i] in c;
    }
    NoOthers(c, keep.Snapshot());
  }

  lemma {:induction false} NothingDoomed(clusters: seq<Cluster>, now: real)
    requires forall k | 0 <= k < |clusters| :: DoomedOf(clusters[k], now) == []
    ensures Concat(clusters, now) == []
  {
    if clusters != [] {
      NothingDoomed(clusters[..|clusters| - 1], now);
    }
  }

  lemma StableClusters(clusters: seq<Cluster>, ordered: seq<Window>, tol: real, now: real, later: real,
                       clusters': seq<Cluster>, ordered': seq<Window>, doomed: seq<Window>)
    requires tol >= 0.0 && GoodClusters(clusters, ordered, tol) && GoodClusters(clusters', ordered', tol)
    requires now <= later && doomed == Concat(clusters, now)
    requires forall r | r in ordered' :: r in ordered && r !in doomed
    ensures Concat(clusters', later) == []
  {
    forall k | 0 <= k < |clusters'| ensures DoomedOf(clusters'[k], later) == [] {
      var c := clusters'[k];
      forall a: Window, b: Window | a in c && b in c ensures a.Snapshot() == b.Snapshot() && a.end <= later {
        InFlatten(clusters', k, a);
        InFlatten(clusters', k, b);
        assert BothIn(clusters', k, a, b);
        OneSnapshotLeft(clusters, ordered, tol, now, clusters', ordered', a, b);
      }
      NothingDoomedIn(c, later);
    }
    NothingDoomed(clusters', later);
  }

  lemma StablePlan(rows: seq<Window>, left: seq<Window>, tol: real, now: real, later: real,
                   clusters: seq<Cluster>, clusters': seq<Cluster>, doomed: seq<Window>)
    requires tol >= 0.0 && now <= later && doomed == Concat(clusters, now)
    requires clusters == ClustersOf(rows, tol) && clusters' == ClustersOf(left, tol)
    requires forall r | r in left :: r in rows && r !in doomed
    ensures Concat(clusters', later) == []
  {
    var ordered := ClustersOfAreGood(rows, tol, clusters);
    var ordered' := ClustersOfAreGood(left, tol, clusters');
    StableClusters(clusters, ordered, tol, now, later, clusters', ordered', doomed);
  }

  /**
   * Planned once is planned for good: on what is left, in any order and at the same or any later
   * time, the plan deletes nothing more.
   */
  lemma PlanIsStable(rows: seq<Window>, left: seq<Window>, duration: real, now: real, later: real,
                     doomed: seq<Window>, again: seq<Window>)
    requires duration >= 0.0 && now <= later && doomed == Plan(rows, duration, now)
    requires forall r | r in left :: r in rows && r !in doomed
    requires again == Plan(left, duration, later)
    ensures again == []
  {
    var tol := Tolerance(duration);
    var clusters, clusters' := ClustersOf(rows, tol), ClustersOf(left, tol);
    assert doomed == Concat(clusters, now) && again == Concat(clusters', later);
    StablePlan(rows, left, tol, now, later, clusters, clusters', doomed);
  }
}
