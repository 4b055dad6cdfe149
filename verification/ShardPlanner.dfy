/** `scripts/pytest_shard.py`: whole test modules are dealt out to parallel CI shards. */
module ShardPlanner {
  import opened Sorting
  import opened Makespan

  datatype Result<T> = Ok(value: T) | ValueError

  /** One row of the duration table, a Python dict in insertion order. */
  datatype Measured = Measured(name: string, seconds: real)

  type Table = seq<Measured>

  predicate DistinctNames(table: Table) {
    forall i, j | 0 <= i < j < |table| :: table[i].name != table[j].name
  }

  function Get(table: Table, name: string, fallback: real): real {
    if table == [] then fallback
    else if table[0].name == name then table[0].seconds
    else Get(table[1..], name, fallback)
  }

  predicate RealLeq(a: real, b: real) { a <= b }

  function Seconds(table: Table): (r: seq<real>)
    ensures |r| == |table| && forall i | 0 <= i < |r| :: r[i] == table[i].seconds
  {
    seq(|table|, i requires 0 <= i < |table| => table[i].seconds)
  }

  /** `statistics.median` of an ascending list. */
  function Median(s: seq<real>): real
    requires s != []
  {
    if |s| % 2 == 1 then s[|s| / 2] else (s[|s| / 2 - 1] + s[|s| / 2]) / 2.0
  }

  function UnknownModuleWeight(table: Table): real {
    if table == [] then 1.0 else Median(Sort(Seconds(table), RealLeq))
  }

  function Weight(table: Table, name: string): real {
    Get(table, name, UnknownModuleWeight(table))
  }

  /** A module with the weight it is planned by. */
  datatype Job = Job(name: string, seconds: real)

  /** The sort key `(-weight, name)`. */
  predicate HeavierFirst(a: Job, b: Job) {
    a.seconds > b.seconds || (a.seconds == b.seconds && StringLeq(a.name, b.name))
  }

  function Jobs(files: seq<string>, table: Table): (r: seq<Job>)
    ensures |r| == |files|
    ensures forall i | 0 <= i < |r| :: r[i] == Job(files[i], Weight(table, files[i]))
  {
    seq(|files|, i requires 0 <= i < |files| => Job(files[i], Weight(table, files[i])))
  }

  function Order(files: seq<string>, table: Table): seq<Job> {
    Sort(Jobs(files, table), HeavierFirst)
  }

  function Weights(jobs: seq<Job>): (r: seq<real>)
    ensures |r| == |jobs| && forall i | 0 <= i < |r| :: r[i] == jobs[i].seconds
  {
    seq(|jobs|, i requires 0 <= i < |jobs| => jobs[i].seconds)
  }

  /** The names of the jobs that `a` gives to machine `i`, in the order they were placed. */
  function Bucket(jobs: seq<Job>, a: seq<nat>, i: nat): seq<string>
    requires |jobs| == |a|
  {
    if jobs == [] then []
    else
      var n := |jobs| - 1;
      Bucket(jobs[..n], a[..n], i) + (if a[n] == i then [jobs[n].name] else [])
  }

  function Buckets(jobs: seq<Job>, a: seq<nat>, shards: nat): (r: seq<seq<string>>)
    requires |jobs| == |a|
    ensures |r| == shards && forall i | 0 <= i < shards :: r[i] == Bucket(jobs, a, i)
  {
    seq(shards, i requires 0 <= i < shards => Bucket(jobs, a, i))
  }

  /** The plan, stated without a loop: the greedy schedule of the ordered modules. */
  function Plan(files: seq<string>, table: Table, shards: nat): (r: seq<seq<string>>)
    requires shards >= 1
    ensures |r| == shards
  {
    var jobs := Order(files, table);
    Buckets(jobs, Greedy(Weights(jobs), shards), shards)
  }

  /** The shards after the first `n` modules are placed. */
  function PlannedSoFar(order: seq<Job>, n: nat, shards: nat): (r: seq<seq<string>>)
    requires n <= |order| && shards >= 1
    ensures |r| == shards
  {
    Buckets(order[..n], Greedy(Weights(order)[..n], shards), shards)
  }

  function LoadsSoFar(order: seq<Job>, n: nat, shards: nat): (r: seq<real>)
    requires n <= |order| && shards >= 1
    ensures |r| == shards
  {
    Loads(Weights(order)[..n], Greedy(Weights(order)[..n], shards), shards)
  }

  /** One round of the loop: the next module goes to the lightest shard, the others stay. */
  lemma PlacementStep(order: seq<Job>, n: nat, shards: nat, plan: seq<seq<string>>, loads: seq<real>, t: nat)
    requires n < |order| && shards >= 1
    requires plan == PlannedSoFar(order, n, shards) && loads == LoadsSoFar(order, n, shards)
    requires t == Lightest(loads)
    ensures LoadsSoFar(order, n + 1, shards) == loads[t := loads[t] + order[n].seconds]
    ensures PlannedSoFar(order, n + 1, shards) == plan[t := plan[t] + [order[n].name]]
  {
    var w := Weights(order);
    assert w[..n + 1][..n] == w[..n] && order[..n + 1][..n] == order[..n];
    var (a, a') := (Greedy(w[..n], shards), Greedy(w[..n + 1], shards));
    assert a'[..n] == a;
    var (plan', loads') := (plan[t := plan[t] + [order[n].name]], loads[t := loads[t] + order[n].seconds]);
    forall i | 0 <= i < shards
      ensures Load(w[..n + 1], a', i) == loads'[i] && Bucket(order[..n + 1], a', i) == plan'[i]
    {
      assert Bucket(order[..n + 1], a', i) == Bucket(order[..n], a, i) + if i == t then [order[n].name] else [];
    }
  }

  lemma FirstAndLastRound(order: seq<Job>, shards: nat)
    requires shards >= 1
    ensures forall i | 0 <= i < shards ::
              PlannedSoFar(order, 0, shards)[i] == [] && LoadsSoFar(order, 0, shards)[i] == 0.0
    ensures PlannedSoFar(order, |order|, shards) == Buckets(order, Greedy(Weights(order), shards), shards)
  {
    assert order[..|order|] == order && Weights(order)[..|order|] == Weights(order);
  }

  method PlanShards(files: seq<string>, table: Table, shards: int) returns (r: Result<seq<seq<string>>>)
    ensures shards < 1 ==> r == ValueError
    ensures shards >= 1 ==> r == Ok(Plan(files, table, shards))
  {
    if shards < 1 {
      return ValueError;
    }
    var order := Order(files, table);
    var plan: seq<seq<string>> := seq(shards, _ => []);
    var loads := seq(shards, _ => 0.0);
    FirstAndLastRound(order, shards);
    for n := 0 to |order|
      invariant plan == PlannedSoFar(order, n, shards)
      invariant loads == LoadsSoFar(order, n, shards)
    {
      var target := Lightest(loads);
      PlacementStep(order, n, shards, plan, loads, target);
      plan := plan[target := plan[target] + [order[n].name]];
      loads := loads[target := loads[target] + order[n].seconds];
    }
    r := Ok(plan);
  }

  /** The modules of one CI job; shard ids are 1-based. */
  function ShardFiles(shardId: int, shards: int, modules: seq<string>, table: Table): Result<seq<string>> {
    if !(1 <= shardId <= shards) then ValueError else Ok(Plan(modules, table, shards)[shardId - 1])
  }

  function EstimateShardSeconds(modules: seq<string>, table: Table): real {
    if modules == [] then 0.0
    else EstimateShardSeconds(modules[..|modules| - 1], table) + Weight(table, modules[|modules| - 1])
  }

  // ----- the order of the modules

  lemma HeavierFirstIsTotal()
    ensures TotalPreorder(HeavierFirst) && Antisymmetric(HeavierFirst)
  {
    forall a: Job, b: Job
      ensures HeavierFirst(a, b) || HeavierFirst(b, a)
      ensures HeavierFirst(a, b) && HeavierFirst(b, a) ==> a == b
    {
      StringLeqTotal(a.name, b.name);
    }
    forall a: Job, b: Job, c: Job | HeavierFirst(a, b) && HeavierFirst(b, c) ensures HeavierFirst(a, c) {
      if a.seconds == b.seconds == c.seconds {
        StringLeqTransitive(a.name, b.name, c.name);
      }
    }
  }

  lemma RealLeqIsTotal()
    ensures TotalPreorder(RealLeq) && Antisymmetric(RealLeq)
  {
  }

  lemma {:induction false} GetFinds(table: Table, i: nat, fallback: real)
    requires DistinctNames(table) && i < |table|
    ensures Get(table, table[i].name, fallback) == table[i].seconds
  {
    if i > 0 {
      GetFinds(table[1..], i - 1, fallback);
    }
  }

  lemma {:induction false} GetMisses(table: Table, name: string, fallback: real)
    requires forall i | 0 <= i < |table| :: table[i].name != name
    ensures Get(table, name, fallback) == fallback
  {
    if table != [] {
      GetMisses(table[1..], name, fallback);
    }
  }

  /** A measured module weighs what was measured. */
  lemma MeasuredWeight(table: Table, i: nat)
    requires DistinctNames(table) && i < |table|
    ensures Weight(table, table[i].name) == table[i].seconds
  {
    GetFinds(table, i, UnknownModuleWeight(table));
  }

  /**
   * A module in no row weighs as much as the middle one of the measured durations in ascending order,
   * or half as much as the middle two; with nothing measured it weighs one second.
   */
  lemma UnmeasuredWeight(table: Table, name: string, ascending: seq<real>)
    requires forall i | 0 <= i < |table| :: table[i].name != name
    requires multiset(ascending) == multiset(Seconds(table))
    requires forall i, j | 0 <= i < j < |ascending| :: ascending[i] <= ascending[j]
    ensures table == [] ==> Weight(table, name) == 1.0
    ensures |table| % 2 == 1 ==> |ascending| == |table| && Weight(table, name) == ascending[|table| / 2]
    ensures |table| % 2 == 0 && table != [] ==>
              && |ascending| == |table|
              && Weight(table, name) + Weight(table, name) == ascending[|table| / 2 - 1] + ascending[|table| / 2]
  {
    GetMisses(table, name, UnknownModuleWeight(table));
    RealLeqIsTotal();
    SortSorts(Seconds(table), RealLeq);
    SameElements(ascending, Seconds(table));
    SortedIsUnique(ascending, Sort(Seconds(table), RealLeq), RealLeq);
  }

  /** The estimate of measured modules is the sum of their measured durations. */
  lemma {:induction false} EstimateOfMeasured(modules: seq<string>, table: Table, rows: seq<nat>)
    requires DistinctNames(table) && |rows| == |modules|
    requires forall k | 0 <= k < |rows| :: rows[k] < |table| && table[rows[k]].name == modules[k]
    ensures EstimateShardSeconds(modules, table)
         == Sum(seq(|rows|, k requires 0 <= k < |rows| => table[rows[k]].seconds))
  {
    if modules != [] {
      var n := |modules| - 1;
      var s := seq(|rows|, k requires 0 <= k < |rows| => table[rows[k]].seconds);
      EstimateOfMeasured(modules[..n], table, rows[..n]);
      assert s[..n] == seq(|rows[..n]|, k requires 0 <= k < |rows[..n]| => table[rows[..n][k]].seconds);
      MeasuredWeight(table, rows[n]);
    }
  }

  /** The weight of a module depends on the duration table as a mapping, not on its row order. */
  lemma WeightIgnoresRowOrder(t1: Table, t2: Table, name: string)
    requires DistinctNames(t1) && DistinctNames(t2) && multiset(t1) == multiset(t2)
    ensures Weight(t1, name) == Weight(t2, name)
  {
    SameElements(t1, t2);
    MapKeepsElements((m: Measured) => m.seconds, t1, t2);
    assert Seconds(t1) == Map((m: Measured) => m.seconds, t1);
    assert Seconds(t2) == Map((m: Measured) => m.seconds, t2);
    RealLeqIsTotal();
    SortDependsOnElementsOnly(Seconds(t1), Seconds(t2), RealLeq);
    var fallback := UnknownModuleWeight(t1);
    assert fallback == UnknownModuleWeight(t2);
    if i :| 0 <= i < |t1| && t1[i].name == name {
      assert t1[i] in t2;
      var k :| 0 <= k < |t2| && t2[k] == t1[i];
      GetFinds(t1, i, fallback);
      GetFinds(t2, k, fallback);
    } else {
      forall k | 0 <= k < |t2| ensures t2[k].name != name {
        assert t2[k] in t1;
      }
      GetMisses(t1, name, fallback);
      GetMisses(t2, name, fallback);
    }
  }

  lemma JobsOfSameFiles(f1: seq<string>, f2: seq<string>, table: Table)
    requires multiset(f1) == multiset(f2)
    ensures multiset(Jobs(f1, table)) == multiset(Jobs(f2, table))
  {
    var f := (name: string) => Job(name, Weight(table, name));
    MapKeepsElements(f, f1, f2);
    assert Jobs(f1, table) == Map(f, f1) && Jobs(f2, table) == Map(f, f2);
  }

  /** Every CI job derives the same split: only the modules and the table as a mapping matter. */
  lemma PlanIgnoresOrder(f1: seq<string>, f2: seq<string>, t1: Table, t2: Table, shards: nat)
    requires shards >= 1 && multiset(f1) == multiset(f2)
    requires DistinctNames(t1) && DistinctNames(t2) && multiset(t1) == multiset(t2)
    ensures Plan(f1, t1, shards) == Plan(f2, t2, shards)
  {
    JobsOfSameFiles(f1, f2, t1);
    forall i | 0 <= i < |f2| ensures Weight(t1, f2[i]) == Weight(t2, f2[i]) {
      WeightIgnoresRowOrder(t1, t2, f2[i]);
    }
    assert Jobs(f2, t1) == Jobs(f2, t2);
    HeavierFirstIsTotal();
    SortDependsOnElementsOnly(Jobs(f1, t1), Jobs(f2, t2), HeavierFirst);
  }

  // ----- the plan is a partition of the suite

  function Flatten(plan: seq<seq<string>>): seq<string> {
    if plan == [] then [] else Flatten(plan[..|plan| - 1]) + plan[|plan| - 1]
  }

  /** Every module, with its multiplicity, sits in some shard. */
  ghost predicate Partition(plan: seq<seq<string>>, files: seq<string>) {
    multiset(Flatten(plan)) == multiset(files)
  }

  lemma {:induction false} FlattenUpdate(plan: seq<seq<string>>, i: nat, s: seq<string>)
    requires i < |plan|
    ensures multiset(Flatten(plan[i := s])) + multiset(plan[i]) == multiset(Flatten(plan)) + multiset(s)
  {
    var n := |plan| - 1;
    var u := plan[i := s];
    assert multiset(Flatten(u)) == multiset(Flatten(u[..n])) + multiset(u[n]);
    assert multiset(Flatten(plan)) == multiset(Flatten(plan[..n])) + multiset(plan[n]);
    if i == n {
      assert u[..n] == plan[..n];
    } else {
      assert u[..n] == plan[..n][i := s];
      FlattenUpdate(plan[..n], i, s);
      AddToBoth(multiset(Flatten(u[..n])), multiset(plan[i]), multiset(Flatten(plan[..n])), multiset(s),
                multiset(plan[n]));
    }
  }

  lemma {:induction false} FlattenEmpty(plan: seq<seq<string>>)
    requires forall i | 0 <= i < |plan| :: plan[i] == []
    ensures Flatten(plan) == []
  {
    if plan != [] {
      FlattenEmpty(plan[..|plan| - 1]);
    }
  }

  function Names(jobs: seq<Job>): (r: seq<string>)
    ensures |r| == |jobs| && forall i | 0 <= i < |r| :: r[i] == jobs[i].name
  {
    seq(|jobs|, i requires 0 <= i < |jobs| => jobs[i].name)
  }

  lemma AddToPartition(plan: seq<seq<string>>, files: seq<string>, i: nat, x: string)
    requires i < |plan| && Partition(plan, files)
    ensures Partition(plan[i := plan[i] + [x]], files + [x])
  {
    FlattenUpdate(plan, i, plan[i] + [x]);
    assert multiset(files + [x]) == multiset(files) + multiset{x};
    assert multiset(plan[i] + [x]) == multiset(plan[i]) + multiset{x};
    CancelMultiset(multiset(Flatten(plan[i := plan[i] + [x]])), multiset(files + [x]), multiset(plan[i]));
  }

  lemma RemoveFromPartition(plan: seq<seq<string>>, files: seq<string>, i: nat, k: nat)
    requires files != [] && Partition(plan, files)
    requires i < |plan| && k < |plan[i]| && plan[i][k] == files[|files| - 1]
    ensures Partition(plan[i := Without(plan[i], k)], files[..|files| - 1])
  {
    assert files == files[..|files| - 1] + [files[|files| - 1]];
    WithoutElement(plan[i], k);
    var rest := Without(plan[i], k);
    FlattenUpdate(plan, i, rest);
    CancelMultiset(multiset(Flatten(plan[i := rest])), multiset(files[..|files| - 1]), multiset(plan[i]));
  }

  lemma BucketsGrow(jobs: seq<Job>, a: seq<nat>, shards: nat, before: seq<seq<string>>, after: seq<seq<string>>)
    requires |jobs| == |a| && jobs != [] && a[|a| - 1] < shards
    requires before == Buckets(jobs[..|jobs| - 1], a[..|jobs| - 1], shards)
    requires var t := a[|a| - 1]; after == before[t := before[t] + [jobs[|jobs| - 1].name]]
    ensures Buckets(jobs, a, shards) == after
  {
    var n := |jobs| - 1;
    forall i | 0 <= i < shards ensures Bucket(jobs, a, i) == after[i] {
      assert Bucket(jobs, a, i) == Bucket(jobs[..n], a[..n], i) + (if a[n] == i then [jobs[n].name] else []);
    }
  }

  lemma NamesGrow(jobs: seq<Job>)
    requires jobs != []
    ensures Names(jobs) == Names(jobs[..|jobs| - 1]) + [jobs[|jobs| - 1].name]
  {
  }

  lemma {:induction false} BucketsPartition(jobs: seq<Job>, a: seq<nat>, shards: nat)
    requires |jobs| == |a| && OnMachines(a, shards)
    ensures Partition(Buckets(jobs, a, shards), Names(jobs))
  {
    if jobs == [] {
      FlattenEmpty(Buckets(jobs, a, shards));
    } else {
      var n := |jobs| - 1;
      var before, x := Buckets(jobs[..n], a[..n], shards), jobs[n].name;
      BucketsPartition(jobs[..n], a[..n], shards);
      BucketsGrow(jobs, a, shards, before, before[a[n] := before[a[n]] + [x]]);
      AddToPartition(before, Names(jobs[..n]), a[n], x);
      NamesGrow(jobs);
    }
  }

  lemma NamesOfSameJobs(j1: seq<Job>, j2: seq<Job>)
    requires multiset(j1) == multiset(j2)
    ensures multiset(Names(j1)) == multiset(Names(j2))
  {
    MapKeepsElements((j: Job) => j.name, j1, j2);
    assert Names(j1) == Map((j: Job) => j.name, j1) && Names(j2) == Map((j: Job) => j.name, j2);
  }

  /** What the sort delivers: the suite's modules, each with its weight, heaviest first. */
  lemma OrderOfSuite(files: seq<string>, table: Table)
    ensures var jobs := Order(files, table);
            && multiset(Names(jobs)) == multiset(files)
            && HeaviestFirst(Weights(jobs))
            && forall i | 0 <= i < |jobs| :: jobs[i].seconds == Weight(table, jobs[i].name)
  {
    var jobs := Order(files, table);
    NamesOfSameJobs(jobs, Jobs(files, table));
    assert Names(Jobs(files, table)) == files;
    HeavierFirstIsTotal();
    SortSorts(Jobs(files, table), HeavierFirst);
    assert HeaviestFirst(Weights(jobs)) by {
      forall i, j | 0 <= i < j < |jobs| ensures jobs[i].seconds >= jobs[j].seconds {
        assert HeavierFirst(jobs[i], jobs[j]);
      }
    }
    SameElements(jobs, Jobs(files, table));
    forall i | 0 <= i < |jobs| ensures jobs[i].seconds == Weight(table, jobs[i].name) {
      assert jobs[i] in Jobs(files, table);
    }
  }

  lemma SortedJobs(jobs: seq<Job>, i: nat, j: nat, k: nat)
    requires i < |jobs| && j < |jobs| && SortedBy(jobs, HeavierFirst)
    requires var (a, b) := (jobs[i], jobs[j]);
             || a.seconds > b.seconds
             || (a.seconds == b.seconds && k <= |a.name| && k < |b.name| && a.name[..k] == b.name[..k]
                 && (k < |a.name| ==> a.name[k] < b.name[k]))
    ensures i < j
  {
    var (a, b) := (jobs[i], jobs[j]);
    if a.seconds == b.seconds {
      FirstDifferenceDecides(a.name, b.name, k);
    }
    assert !HeavierFirst(b, a);
  }

  /**
   * Where two modules stand in the planning order: the heavier one is first, and of two equally heavy
   * ones that whose name is a proper prefix of the other's or has the smaller character at the first
   * position `k` where they differ.
   */
  lemma HeavierThenByName(files: seq<string>, table: Table, i: nat, j: nat, k: nat)
    requires i < |files| && j < |files| && |Order(files, table)| == |files|
    requires var (a, b) := (Order(files, table)[i].name, Order(files, table)[j].name);
             || Weight(table, a) > Weight(table, b)
             || (Weight(table, a) == Weight(table, b) && k <= |a| && k < |b| && a[..k] == b[..k]
                 && (k < |a| ==> a[k] < b[k]))
    ensures i < j
  {
    OrderOfSuite(files, table);
    HeavierFirstIsTotal();
    SortSorts(Jobs(files, table), HeavierFirst);
    SortedJobs(Order(files, table), i, j, k);
  }

  /** No module is lost and none runs twice. */
  lemma PlanPartitions(files: seq<string>, table: Table, shards: nat)
    requires shards >= 1
    ensures Partition(Plan(files, table, shards), files)
  {
    var jobs := Order(files, table);
    OrderOfSuite(files, table);
    BucketsPartition(jobs, Greedy(Weights(jobs), shards), shards);
  }

  // ----- estimates

  lemma {:induction false} EstimateSplit(s: seq<string>, t: seq<string>, table: Table)
    ensures EstimateShardSeconds(s + t, table) == EstimateShardSeconds(s, table) + EstimateShardSeconds(t, table)
  {
    if t == [] {
      assert s + t == s;
    } else {
      var n := |t| - 1;
      assert (s + t)[..|s + t| - 1] == s + t[..n];
      EstimateSplit(s, t[..n], table);
    }
  }

  lemma {:induction false} BucketEstimate(jobs: seq<Job>, a: seq<nat>, i: nat, table: Table)
    requires |jobs| == |a| && forall j | 0 <= j < |jobs| :: jobs[j].seconds == Weight(table, jobs[j].name)
    ensures EstimateShardSeconds(Bucket(jobs, a, i), table) == Load(Weights(jobs), a, i)
  {
    if jobs != [] {
      var n := |jobs| - 1;
      BucketEstimate(jobs[..n], a[..n], i, table);
      assert Weights(jobs)[..n] == Weights(jobs[..n]);
      EstimateSplit(Bucket(jobs[..n], a[..n], i), if a[n] == i then [jobs[n].name] else [], table);
      assert [jobs[n].name][..0] == [];
    }
  }

  lemma {:induction false} EstimateOfSameNames(s: seq<string>, t: seq<string>, table: Table)
    requires multiset(s) == multiset(t)
    ensures EstimateShardSeconds(s, table) == EstimateShardSeconds(t, table)
  {
    SameElements(s, t);
    if s != [] {
      var k := TakeOut(s, t);
      EstimateOfSameNames(s[..|s| - 1], Without(t, k), table);
      RemoveFromEstimate(t, k, table);
    }
  }

  lemma RemoveFromEstimate(t: seq<string>, k: nat, table: Table)
    requires k < |t|
    ensures EstimateShardSeconds(Without(t, k), table) == EstimateShardSeconds(t, table) - Weight(table, t[k])
  {
    assert t == t[..k] + ([t[k]] + t[k + 1..]);
    EstimateSplit(t[..k], [t[k]] + t[k + 1..], table);
    EstimateSplit([t[k]], t[k + 1..], table);
    EstimateSplit(t[..k], t[k + 1..], table);
    assert [t[k]][..0] == [];
  }

  function TotalEstimate(plan: seq<seq<string>>, table: Table): real {
    if plan == [] then 0.0
    else TotalEstimate(plan[..|plan| - 1], table) + EstimateShardSeconds(plan[|plan| - 1], table)
  }

  lemma {:induction false} TotalIsEstimateOfAll(plan: seq<seq<string>>, table: Table)
    ensures TotalEstimate(plan, table) == EstimateShardSeconds(Flatten(plan), table)
  {
    if plan != [] {
      TotalIsEstimateOfAll(plan[..|plan| - 1], table);
      EstimateSplit(Flatten(plan[..|plan| - 1]), plan[|plan| - 1], table);
    }
  }

  /** The shard estimates of the summary add up to the estimate of the whole suite. */
  lemma EstimatesAddUp(files: seq<string>, table: Table, shards: nat)
    requires shards >= 1
    ensures TotalEstimate(Plan(files, table, shards), table) == EstimateShardSeconds(files, table)
  {
    PlanPartitions(files, table, shards);
    TotalIsEstimateOfAll(Plan(files, table, shards), table);
    EstimateOfSameNames(Flatten(Plan(files, table, shards)), files, table);
  }

  // ----- how balanced the plan is

  ghost predicate NonNegativeTable(table: Table) {
    forall i | 0 <= i < |table| :: table[i].seconds >= 0.0
  }

  lemma {:induction false} GetNonNegative(table: Table, name: string, fallback: real)
    requires NonNegativeTable(table) && fallback >= 0.0
    ensures Get(table, name, fallback) >= 0.0
  {
    if table != [] {
      GetNonNegative(table[1..], name, fallback);
    }
  }

  lemma WeightNonNegative(table: Table, name: string)
    requires NonNegativeTable(table)
    ensures Weight(table, name) >= 0.0
  {
    var s := Sort(Seconds(table), RealLeq);
    SameElements(s, Seconds(table));
    forall i | 0 <= i < |s| ensures s[i] >= 0.0 {
      assert s[i] in Seconds(table);
    }
    GetNonNegative(table, name, UnknownModuleWeight(table));
  }

  lemma MedianOfSorted(s: seq<real>)
    requires s != [] && SortedBy(s, RealLeq)
    ensures forall i | 0 <= i <= (|s| - 1) / 2 :: s[i] <= Median(s)
    ensures forall i | |s| / 2 <= i < |s| :: Median(s) <= s[i]
  {
    var h := |s| / 2;
    forall i, j | 0 <= i <= j < |s| ensures s[i] <= s[j] {
      assert i == j || RealLeq(s[i], s[j]);
    }
    if |s| % 2 == 0 {
      assert s[h - 1] <= Median(s) <= s[h];
    }
  }

  /** The fallback weight is a median: half of the measured modules are no heavier, half no lighter. */
  lemma FallbackIsMedian(table: Table)
    requires table != []
    ensures var (s, f) := (Sort(Seconds(table), RealLeq), UnknownModuleWeight(table));
            && multiset(s) == multiset(Seconds(table))
            && (forall i | 0 <= i <= (|s| - 1) / 2 :: s[i] <= f)
            && (forall i | |s| / 2 <= i < |s| :: f <= s[i])
  {
    RealLeqIsTotal();
    SortSorts(Seconds(table), RealLeq);
    MedianOfSorted(Sort(Seconds(table), RealLeq));
  }

  lemma NothingPlanned(plan: seq<seq<string>>)
    requires Partition(plan, [])
    ensures forall i | 0 <= i < |plan| :: plan[i] == []
  {
    forall i | 0 <= i < |plan| ensures plan[i] == [] {
      FlattenUpdate(plan, i, []);
      SameElements(Flatten(plan), []);
    }
  }

  /** The last module sits in some shard, and the plan without it is one of the others. */
  lemma TakeLastModule(jobs: seq<Job>, other: seq<seq<string>>) returns (i: nat, k: nat)
    requires jobs != [] && Partition(other, Names(jobs))
    ensures i < |other| && k < |other[i]| && other[i][k] == jobs[|jobs| - 1].name
    ensures Partition(other[i := Without(other[i], k)], Names(jobs[..|jobs| - 1]))
  {
    var n := |jobs| - 1;
    var names := Names(jobs);
    NamesGrow(jobs);
    assert names[..n] == Names(jobs[..n]) && names[n] in names;
    SameElements(Flatten(other), names);
    i, k := Locate(other, names[n]);
    RemoveFromPartition(other, names, i, k);
  }

  /** Putting the module back adds its weight to its shard, in the schedule as in the estimate. */
  lemma AppendToSchedule(jobs: seq<Job>, b: seq<nat>, other: seq<seq<string>>, i: nat, k: nat, table: Table, l: nat)
    requires jobs != [] && |b| == |jobs| && i < |other| && k < |other[i]| && l < |other| && b[|b| - 1] == i
    requires jobs[|jobs| - 1].seconds == Weight(table, other[i][k])
    requires var (n, rest) := (|jobs| - 1, other[i := Without(other[i], k)]);
             Load(Weights(jobs[..n]), b[..n], l) == EstimateShardSeconds(rest[l], table)
    ensures Load(Weights(jobs), b, l) == EstimateShardSeconds(other[l], table)
  {
    assert Weights(jobs)[..|jobs| - 1] == Weights(jobs[..|jobs| - 1]);
    RemoveFromEstimate(other[i], k, table);
  }

  /** Any plan at all is a schedule of the ordered modules with the same loads. */
  lemma {:induction false} PlanAsSchedule(jobs: seq<Job>, other: seq<seq<string>>, table: Table) returns (b: seq<nat>)
    requires Partition(other, Names(jobs))
    requires forall j | 0 <= j < |jobs| :: jobs[j].seconds == Weight(table, jobs[j].name)
    ensures |b| == |jobs| && OnMachines(b, |other|)
    ensures forall i | 0 <= i < |other| :: Load(Weights(jobs), b, i) == EstimateShardSeconds(other[i], table)
  {
    if jobs == [] {
      b := [];
      NothingPlanned(other);
    } else {
      var n := |jobs| - 1;
      var i, k := TakeLastModule(jobs, other);
      var b' := PlanAsSchedule(jobs[..n], other[i := Without(other[i], k)], table);
      b := b' + [i];
      assert b[..n] == b';
      forall l | 0 <= l < |other| ensures Load(Weights(jobs), b, l) == EstimateShardSeconds(other[l], table) {
        AppendToSchedule(jobs, b, other, i, k, table, l);
      }
    }
  }

  lemma {:induction false} Locate(plan: seq<seq<string>>, x: string) returns (i: nat, k: nat)
    requires x in Flatten(plan)
    ensures i < |plan| && k < |plan[i]| && plan[i][k] == x
  {
    var n := |plan| - 1;
    if x in plan[n] {
      i := n;
      k :| 0 <= k < |plan[n]| && plan[n][k] == x;
    } else {
      i, k := Locate(plan[..n], x);
    }
  }

  lemma PlanLoads(files: seq<string>, table: Table, shards: nat, i: nat)
    requires shards >= 1 && i < shards
    ensures var w := Weights(Order(files, table));
            EstimateShardSeconds(Plan(files, table, shards)[i], table) == Load(w, Greedy(w, shards), i)
  {
    var jobs := Order(files, table);
    OrderOfSuite(files, table);
    BucketEstimate(jobs, Greedy(Weights(jobs), shards), i, table);
  }

  lemma OrderNonNegative(files: seq<string>, table: Table)
    requires NonNegativeTable(table)
    ensures NonNegative(Weights(Order(files, table)))
  {
    OrderOfSuite(files, table);
    var jobs := Order(files, table);
    forall j | 0 <= j < |jobs| ensures jobs[j].seconds >= 0.0 {
      WeightNonNegative(table, jobs[j].name);
    }
  }

  /**
   * Graham's bound for the planner: whatever other way there is to deal the same modules out to the
   * same number of shards, no shard of the plan runs longer than 4/3 - 1/(3 * shards) times the
   * longest shard of that other way.
   */
  lemma PlanWithinFourThirds(files: seq<string>, table: Table, shards: nat, other: seq<seq<string>>,
                             longest: real, i: nat)
    requires shards >= 1 && NonNegativeTable(table) && i < shards
    requires |other| == shards && Partition(other, files)
    requires forall k | 0 <= k < shards :: EstimateShardSeconds(other[k], table) <= longest
    ensures EstimateShardSeconds(Plan(files, table, shards)[i], table) <= LptRatio(shards) * longest
  {
    var jobs := Order(files, table);
    OrderOfSuite(files, table);
    OrderNonNegative(files, table);
    var b := PlanAsSchedule(jobs, other, table);
    HeaviestFirstBound(Weights(jobs), shards, b, longest, i);
    PlanLoads(files, table, shards, i);
  }

  lemma {:induction false} LastOfBucket(jobs: seq<Job>, a: seq<nat>, i: nat) returns (k: nat)
    requires |jobs| == |a| && Bucket(jobs, a, i) != []
    ensures k < |jobs| && a[k] == i && forall l | k < l < |jobs| :: a[l] != i
    ensures jobs[k].name == Bucket(jobs, a, i)[|Bucket(jobs, a, i)| - 1]
  {
    var n := |jobs| - 1;
    if a[n] == i {
      k := n;
    } else {
      k := LastOfBucket(jobs[..n], a[..n], i);
    }
  }

  /** No shard is ahead of another by more than the last module it was given. */
  lemma ShardsApartByOneModule(files: seq<string>, table: Table, shards: nat, i: nat, j: nat)
    requires shards >= 1 && NonNegativeTable(table) && i < shards && j < shards
    requires Plan(files, table, shards)[i] != []
    ensures var plan := Plan(files, table, shards);
            EstimateShardSeconds(plan[i], table) - EstimateShardSeconds(plan[j], table)
            <= Weight(table, plan[i][|plan[i]| - 1])
  {
    var jobs := Order(files, table);
    var w := Weights(jobs);
    OrderOfSuite(files, table);
    OrderNonNegative(files, table);
    PlanLoads(files, table, shards, i);
    PlanLoads(files, table, shards, j);
    var k := LastOfBucket(jobs, Greedy(w, shards), i);
    GapAtMostLastJob(w, shards, i, k, j);
  }

  lemma {:induction false} EstimateCounts(modules: seq<string>)
    ensures EstimateShardSeconds(modules, []) == |modules| as real
  {
    if modules != [] {
      EstimateCounts(modules[..|modules| - 1]);
    }
  }

  /** With nothing measured the split is flat: no shard has two modules more than another. */
  lemma FlatWithoutDurations(files: seq<string>, shards: nat, i: nat, j: nat)
    requires shards >= 1 && i < shards && j < shards
    ensures |Plan(files, [], shards)[i]| <= |Plan(files, [], shards)[j]| + 1
  {
    var plan := Plan(files, [], shards);
    if plan[i] != [] {
      EstimateCounts(plan[i]);
      EstimateCounts(plan[j]);
      ShardsApartByOneModule(files, [], shards, i, j);
    }
  }

  // ----- what a shard job actually runs

  /** The `--deselect` values that keep a shard to its own modules. */
  function Deselected(modules: seq<string>, shard: seq<string>): (r: seq<string>)
    ensures forall d :: d in r <==> d in modules && d !in shard
  {
    if modules == [] then []
    else (if modules[0] in shard then [] else [modules[0]]) + Deselected(modules[1..], shard)
  }

  /** pytest drops a test when a deselected path is a prefix of its node id. */
  predicate Kept(testId: string, deselected: seq<string>) {
    forall d | d in deselected :: !(d <= testId)
  }

  predicate KeptBy(testId: string, files: seq<string>, plan: seq<seq<string>>, i: nat)
    requires i < |plan|
  {
    Kept(testId, Deselected(files, plan[i]))
  }

  ghost predicate Distinct(s: seq<string>) {
    forall i, j | 0 <= i < j < |s| :: s[i] != s[j]
  }

  ghost predicate NoPathPrefixesAnother(files: seq<string>) {
    forall f, g | f in files && g in files && f <= g :: f == g
  }

  lemma {:induction false} DistinctCountsOnce(s: seq<string>, x: string)
    requires Distinct(s)
    ensures multiset(s)[x] <= 1
  {
    if s != [] {
      var n := |s| - 1;
      assert s == s[..n] + [s[n]];
      DistinctCountsOnce(s[..n], x);
    }
  }

  lemma {:induction false} CountInFlatten(plan: seq<seq<string>>, i: nat, x: string)
    requires i < |plan|
    ensures multiset(plan[i])[x] <= multiset(Flatten(plan))[x]
    ensures forall j | 0 <= j < i :: multiset(plan[i])[x] + multiset(plan[j])[x] <= multiset(Flatten(plan))[x]
  {
    var n := |plan| - 1;
    if i == n {
      forall j | 0 <= j < i ensures multiset(plan[j])[x] <= multiset(Flatten(plan[..n]))[x] {
        CountInFlatten(plan[..n], j, x);
        assert plan[..n][j] == plan[j];
      }
    } else {
      CountInFlatten(plan[..n], i, x);
      assert forall j | 0 <= j <= i :: plan[..n][j] == plan[j];
    }
  }

  /** In a plan for distinct modules, every module has exactly one shard. */
  lemma OneShardEach(plan: seq<seq<string>>, files: seq<string>, f: string) returns (home: nat)
    requires Partition(plan, files) && Distinct(files) && f in files
    ensures home < |plan| && f in plan[home]
    ensures forall i | 0 <= i < |plan| && f in plan[i] :: i == home
  {
    SameElements(Flatten(plan), files);
    var k: nat;
    home, k := Locate(plan, f);
    forall i | 0 <= i < |plan| && f in plan[i] ensures i == home {
      DistinctCountsOnce(files, f);
      CountInFlatten(plan, i, f);
      CountInFlatten(plan, home, f);
    }
  }

  /**
   * When a test runs. No test is kept by two shards; it is kept at all exactly when every module
   * whose path is a prefix of its id sits in the same shard as the module it belongs to.
   */
  lemma KeptExactlyWhen(files: seq<string>, plan: seq<seq<string>>, f: string, testId: string, home: nat, i: nat)
    requires Partition(plan, files) && Distinct(files)
    requires f in files && f <= testId && home < |plan| && f in plan[home] && i < |plan|
    ensures KeptBy(testId, files, plan, i) <==> i == home && forall g | g in files && g <= testId :: g in plan[home]
  {
    var h := OneShardEach(plan, files, f);
    if i != home {
      assert f in Deselected(files, plan[i]);
    }
    if i == home && KeptBy(testId, files, plan, i) {
      forall g | g in files && g <= testId ensures g in plan[home] {
        assert g !in Deselected(files, plan[i]);
      }
    }
  }

  lemma PrefixesOfOneId(f: string, g: string, t: string)
    requires f <= t && g <= t && |f| <= |g|
    ensures f <= g
  {
    assert f == t[..|f|] && g == t[..|g|];
    assert g[..|f|] == t[..|f|];
  }

  /** Every test of the planned suite runs in exactly one shard, its module's. */
  lemma EveryTestRunsOnce(files: seq<string>, table: Table, shards: nat, f: string, testId: string)
    returns (home: nat)
    requires shards >= 1 && Distinct(files) && NoPathPrefixesAnother(files)
    requires f in files && f <= testId
    ensures home < shards && f in Plan(files, table, shards)[home]
    ensures forall i | 0 <= i < shards :: KeptBy(testId, files, Plan(files, table, shards), i) <==> i == home
  {
    var plan := Plan(files, table, shards);
    PlanPartitions(files, table, shards);
    home := OneShardEach(plan, files, f);
    forall g | g in files && g <= testId ensures g == f {
      if |f| <= |g| {
        PrefixesOfOneId(f, g, testId);
      } else {
        PrefixesOfOneId(g, f, testId);
      }
    }
    forall i | 0 <= i < shards ensures KeptBy(testId, files, plan, i) <==> i == home {
      KeptExactlyWhen(files, plan, f, testId, home, i);
    }
  }

  /** The job with this shard id runs the test. */
  ghost predicate RunsIn(testId: string, files: seq<string>, table: Table, shards: int, shardId: int) {
    var own := ShardFiles(shardId, shards, files, table);
    own.Ok? && Kept(testId, Deselected(files, own.value))
  }

  /** No job but that of the home shard runs the test. */
  lemma RunsAtHome(testId: string, files: seq<string>, table: Table, shards: int, shardId: int, home: nat)
    requires home < shards
    requires 1 <= shardId <= shards ==>
               (KeptBy(testId, files, Plan(files, table, shards), shardId - 1) <==> shardId - 1 == home)
    ensures RunsIn(testId, files, table, shards, shardId) <==> shardId == home + 1
  {
  }

  lemma OwnsAtHome(files: seq<string>, table: Table, shards: int, f: string, home: nat, job: int)
    requires home < shards && job == home + 1 && f in Plan(files, table, shards)[home]
    ensures ShardFiles(job, shards, files, table).Ok? && f in ShardFiles(job, shards, files, table).value
  {
  }

  /** Of all shard ids exactly one has a job that runs the test, and that job owns the test's module. */
  lemma OneJobRunsEachTest(files: seq<string>, table: Table, shards: int, f: string, testId: string)
    returns (job: int)
    requires shards >= 1 && Distinct(files) && NoPathPrefixesAnother(files)
    requires f in files && f <= testId
    ensures ShardFiles(job, shards, files, table).Ok? && f in ShardFiles(job, shards, files, table).value
    ensures forall shardId :: RunsIn(testId, files, table, shards, shardId) <==> shardId == job
  {
    var home := EveryTestRunsOnce(files, table, shards, f, testId);
    job := home + 1;
    OwnsAtHome(files, table, shards, f, home, job);
    forall shardId ensures RunsIn(testId, files, table, shards, shardId) <==> shardId == job {
      RunsAtHome(testId, files, table, shards, shardId, home);
    }
  }
}
