/** `_merge_windows` in `scripts/normalize_sidecar_ids.py`, on row objects. */
module SidecarMerge {
  import SidecarIds

  // Closed-window rows of one host under several names are folded into one row per grain. The loop
  // mutates row objects that it reaches through an index.

  datatype Option<+T> = None | Some(value: T)

  /** The additive columns of a closed-window row. */
  datatype Totals = Totals(msgs: int, input: int, output: int, cacheRead: int, cacheCreate: int, reasoning: int,
                           cost: real)
  {
    function Plus(t: Totals): Totals {
      Totals(msgs + t.msgs, input + t.input, output + t.output, cacheRead + t.cacheRead,
             cacheCreate + t.cacheCreate, reasoning + t.reasoning, cost + t.cost)
    }
  }

  const ZERO := Totals(0, 0, 0, 0, 0, 0, 0.0)

  datatype Grain = Grain(provider: string, account: string, windowType: string, windowEnd: int, model: string)

  /** The columns that tell two quota series of one grain apart. */
  datatype Series = Series(model: string, variant: string)

  /** The six-part key of `_window_key`. */
  datatype Key = Key(grain: Grain, sidecar: string)

  datatype Row = Row(grain: Grain, series: Series, sidecar: string, totals: Totals, limit: Option<real>,
                     used: Option<real>)
  {
    function Slot(): Key { Key(grain, sidecar) }
  }

  /** The row `existing` after `w` was folded into it. */
  function Fold(existing: Row, w: Row): Row {
    var card := if w.totals.msgs > existing.totals.msgs then w else existing;
    existing.(totals := existing.totals.Plus(w.totals), limit := card.limit, used := card.used)
  }

  /** `src -> normalized target`, only where they differ. */
  function BuildMapping(ids: set<string>, norm: string -> string): map<string, string> {
    map id | id in ids && norm(id) != id :: norm(id)
  }

  /** Rows by position, which of them are not deleted, and the index from keys to positions. */
  datatype State = State(rows: seq<Row>, live: seq<bool>, index: map<Key, nat>, folded: nat) {
    ghost predicate Valid() {
      |live| == |rows| && forall k | k in index :: index[k] < |rows|
    }
  }

  /** The index of the first `n` rows; the last row of a key wins. */
  function IndexTo(rows: seq<Row>, n: nat): (m: map<Key, nat>)
    requires n <= |rows|
    ensures forall k | k in m :: m[k] < n
  {
    if n == 0 then map[] else IndexTo(rows, n - 1)[rows[n - 1].Slot() := n - 1]
  }

  /** `{key(w): w for w in windows}`. */
  function InitialIndex(rows: seq<Row>): (m: map<Key, nat>)
    ensures forall k | k in m :: m[k] < |rows|
  {
    IndexTo(rows, |rows|)
  }

  function Start(rows: seq<Row>): (s: State)
    ensures s.Valid()
  {
    State(rows, seq(|rows|, _ => true), InitialIndex(rows), 0)
  }

  /** No row of the target key yet: the row takes the key. */
  function Retag(s: State, i: nat, target: string): (s': State)
    requires s.Valid() && i < |s.rows|
    ensures s'.Valid() && |s'.rows| == |s.rows|
  {
    var moved := s.rows[i].(sidecar := target);
    s.(rows := s.rows[i := moved], index := s.index[moved.Slot() := i])
  }

  /** Row `j` has the target key: row `i` is folded into it and deleted. */
  function FoldInto(s: State, i: nat, j: nat): (s': State)
    requires s.Valid() && i < |s.rows| && j < |s.rows|
    ensures s'.Valid() && |s'.rows| == |s.rows|
  {
    State(s.rows[j := Fold(s.rows[j], s.rows[i])], s.live[i := false], s.index, s.folded + 1)
  }

  function Target(r: Row, mapping: map<string, string>): Key
    requires r.sidecar in mapping
  {
    Key(r.grain, mapping[r.sidecar])
  }

  function Step(s: State, i: nat, mapping: map<string, string>): (s': State)
    requires s.Valid() && i < |s.rows|
    ensures s'.Valid() && |s'.rows| == |s.rows|
  {
    var w := s.rows[i];
    if w.sidecar !in mapping then s
    else if Target(w, mapping) !in s.index then Retag(s, i, mapping[w.sidecar])
    else FoldInto(s, i, s.index[Target(w, mapping)])
  }

  /** The first `n` rounds of the loop, from the state `s0` it starts in. */
  function Rounds(s0: State, n: nat, mapping: map<string, string>): (s: State)
    requires s0.Valid() && n <= |s0.rows|
    ensures s.Valid() && |s.rows| == |s0.rows|
  {
    if n == 0 then s0 else Step(Rounds(s0, n - 1, mapping), n - 1, mapping)
  }

  /** The state the loop ends in. */
  function Merged(rows: seq<Row>, mapping: map<string, string>): (s: State)
    ensures s.Valid() && |s.rows| == |rows|
  {
    Rounds(Start(rows), |rows|, mapping)
  }

  // ----- the loop over row objects

  class UsageWindow {
    const grain: Grain
    const series: Series
    var sidecar: string
    var totals: Totals
    var limit: Option<real>
    var used: Option<real>

    ghost function Snapshot(): Row reads this { Row(grain, series, sidecar, totals, limit, used) }

    constructor (r: Row)
      ensures Snapshot() == r
    {
      grain, series, sidecar, totals, limit, used := r.grain, r.series, r.sidecar, r.totals, r.limit, r.used;
    }

    /** The folding half of the loop body; `w` may be this very object. */
    method Absorb(w: UsageWindow)
      modifies this
      ensures Snapshot() == Fold(old(Snapshot()), old(w.Snapshot()))
    {
      if w.totals.msgs > totals.msgs {
        limit := w.limit;
        used := w.used;
      }
      totals := totals.Plus(w.totals);
    }
  }

  ghost function Snapshots(windows: seq<UsageWindow>): (r: seq<Row>)
    reads windows
    ensures |r| == |windows| && forall i | 0 <= i < |r| :: r[i] == windows[i].Snapshot()
  {
    seq(|windows|, i requires 0 <= i < |windows| reads windows => windows[i].Snapshot())
  }

  ghost predicate Distinct(windows: seq<UsageWindow>) {
    forall i, j | 0 <= i < j < |windows| :: windows[i] != windows[j]
  }

  /** `index` holds the row objects at the positions `m` gives. */
  ghost predicate Points(windows: seq<UsageWindow>, index: map<Key, UsageWindow>, m: map<Key, nat>) {
    index.Keys == m.Keys && forall k | k in m :: m[k] < |windows| && index[k] == windows[m[k]]
  }

  ghost predicate IndexAgrees(windows: seq<UsageWindow>, index: map<Key, UsageWindow>, s: State) {
    |s.rows| == |windows| && Points(windows, index, s.index)
  }

  /** Deleted objects are those at positions that are no longer live. */
  ghost predicate DeletedAgrees(windows: seq<UsageWindow>, deleted: set<UsageWindow>, live: seq<bool>) {
    |live| == |windows| && forall i | 0 <= i < |windows| :: windows[i] in deleted <==> !live[i]
  }

  lemma DeleteOne(windows: seq<UsageWindow>, deleted: set<UsageWindow>, live: seq<bool>, n: nat, live': seq<bool>)
    requires Distinct(windows) && n < |windows| && DeletedAgrees(windows, deleted, live) && live' == live[n := false]
    ensures DeletedAgrees(windows, deleted + {windows[n]}, live')
  {
  }

  /** The row objects, the index and the set of deleted objects stand for the state `s`. */
  ghost predicate Represents(windows: seq<UsageWindow>, index: map<Key, UsageWindow>, deleted: set<UsageWindow>,
                             s: State)
    reads windows
  {
    Snapshots(windows) == s.rows && IndexAgrees(windows, index, s) && DeletedAgrees(windows, deleted, s.live)
  }

  method BuildIndex(windows: seq<UsageWindow>) returns (index: map<Key, UsageWindow>)
    ensures Points(windows, index, InitialIndex(Snapshots(windows)))
  {
    ghost var rows := Snapshots(windows);
    ghost var m: map<Key, nat> := map[];
    index := map[];
    for n := 0 to |windows|
      invariant m == IndexTo(rows, n) && Points(windows, index, m)
    {
      var w := windows[n];
      index := index[Key(w.grain, w.sidecar) := w];
      m := m[rows[n].Slot() := n];
    }
  }

  /** The row object takes the target id. */
  method TakeName(windows: seq<UsageWindow>, n: nat, target: string)
    requires n < |windows| && Distinct(windows)
    modifies windows
    ensures Snapshots(windows) == old(Snapshots(windows))[n := old(windows[n].Snapshot()).(sidecar := target)]
  {
    windows[n].sidecar := target;
  }

  /** The row object is folded into the one at position `j`. */
  method FoldRow(windows: seq<UsageWindow>, w: UsageWindow, existing: UsageWindow, ghost j: nat)
    requires j < |windows| && Distinct(windows) && existing == windows[j]
    modifies windows
    ensures Snapshots(windows) == old(Snapshots(windows))[j := Fold(old(existing.Snapshot()), old(w.Snapshot()))]
  {
    existing.Absorb(w);
  }

  /** One round: the row object is retagged, or folded into the object the index holds and deleted. */
  method MergeOne(windows: seq<UsageWindow>, n: nat, mapping: map<string, string>, index: map<Key, UsageWindow>,
                  deleted: set<UsageWindow>, ghost s: State, ghost s': State)
    returns (updated: map<Key, UsageWindow>, gone: set<UsageWindow>, fold: nat)
    requires n < |windows| && Distinct(windows) && s.Valid() && Represents(windows, index, deleted, s)
    requires s' == Step(s, n, mapping)
    modifies windows
    ensures Represents(windows, updated, gone, s') && s'.folded == s.folded + fold
  {
    updated, gone, fold := index, deleted, 0;
    var w := windows[n];
    assert w.Snapshot() == s.rows[n];
    if w.sidecar in mapping {
      var target := mapping[w.sidecar];
      var key := Key(w.grain, target);
      if key !in index {
        TakeName(windows, n, target);
        updated := index[key := w];
      } else {
        FoldRow(windows, w, index[key], s.index[key]);
        gone, fold := deleted + {w}, 1;
        DeleteOne(windows, deleted, s.live, n, s'.live);
      }
    }
  }

  lemma NextRound(s0: State, n: nat, mapping: map<string, string>, s: State, s': State)
    requires s0.Valid() && n < |s0.rows| && s == Rounds(s0, n, mapping) && s' == Step(s, n, mapping)
    ensures s'.Valid() && s' == Rounds(s0, n + 1, mapping)
  {
  }

  method MergeRounds(windows: seq<UsageWindow>, mapping: map<string, string>, index0: map<Key, UsageWindow>,
                     ghost s0: State)
    returns (deleted: set<UsageWindow>, folded: nat)
    requires Distinct(windows) && s0.Valid() && Represents(windows, index0, {}, s0) && s0.folded == 0
    modifies windows
    ensures var s := Rounds(s0, |windows|, mapping);
            Snapshots(windows) == s.rows && folded == s.folded && DeletedAgrees(windows, deleted, s.live)
  {
    var index := index0;
    ghost var s := s0;
    deleted, folded := {}, 0;
    for n := 0 to |windows|
      invariant s.Valid() && s == Rounds(s0, n, mapping)
      invariant Represents(windows, index, deleted, s)
      invariant folded == s.folded
    {
      ghost var s' := Step(s, n, mapping);
      NextRound(s0, n, mapping, s, s');
      var fold;
      index, deleted, fold := MergeOne(windows, n, mapping, index, deleted, s, s');
      folded := folded + fold;
      s := s';
    }
  }

  method MergeWindows(windows: seq<UsageWindow>, mapping: map<string, string>)
    returns (deleted: set<UsageWindow>, folded: nat)
    requires Distinct(windows)
    modifies windows
    ensures var s := Merged(old(Snapshots(windows)), mapping);
            Snapshots(windows) == s.rows && folded == s.folded && DeletedAgrees(windows, deleted, s.live)
  {
    ghost var s0 := Start(Snapshots(windows));
    var index := BuildIndex(windows);
    deleted, folded := MergeRounds(windows, mapping, index, s0);
  }

  // ----- what a run does, read off the table it starts from

  /** The id a row has afterwards, if it is left. */
  function Renamed(id: string, mapping: map<string, string>): string {
    if id in mapping then mapping[id] else id
  }

  function Dest(r: Row, mapping: map<string, string>): Key {
    Key(r.grain, Renamed(r.sidecar, mapping))
  }

  /** The first of the first `n` rows that the mapping sends to the key. */
  function FirstTo(rows: seq<Row>, mapping: map<string, string>, k: Key, n: nat): (o: Option<nat>)
    requires n <= |rows|
    ensures o.Some? ==> o.value < n && rows[o.value].sidecar in mapping && Dest(rows[o.value], mapping) == k
    ensures forall i | 0 <= i < (if o.Some? then o.value else n) ::
              !(rows[i].sidecar in mapping && Dest(rows[i], mapping) == k)
  {
    if n == 0 then None
    else
      var o := FirstTo(rows, mapping, k, n - 1);
      if o.Some? then o
      else if rows[n - 1].sidecar in mapping && Dest(rows[n - 1], mapping) == k then Some(n - 1)
      else None
  }

  /** The last of the first `n` rows that have the key. */
  function LastUnder(rows: seq<Row>, k: Key, n: nat): (o: Option<nat>)
    requires n <= |rows|
    ensures o.Some? ==> o.value < n && rows[o.value].Slot() == k
    ensures forall i | (if o.Some? then o.value + 1 else 0) <= i < n :: rows[i].Slot() != k
  {
    if n == 0 then None else if rows[n - 1].Slot() == k then Some(n - 1) else LastUnder(rows, k, n - 1)
  }

  /** The row the index holds under the key when the first `n` rows were treated. */
  function Holder(rows: seq<Row>, mapping: map<string, string>, k: Key, n: nat): (o: Option<nat>)
    requires n <= |rows|
    ensures o.Some? ==> o.value < |rows|
  {
    if LastUnder(rows, k, |rows|).Some? then LastUnder(rows, k, |rows|) else FirstTo(rows, mapping, k, n)
  }

  /** Row `i` is folded into another one. */
  predicate Folds(rows: seq<Row>, mapping: map<string, string>, i: nat)
    requires i < |rows|
  {
    rows[i].sidecar in mapping && Holder(rows, mapping, Dest(rows[i], mapping), i).Some?
  }

  /** The row that gets the totals of row `i`: itself, unless it is folded. */
  function Owner(rows: seq<Row>, mapping: map<string, string>, i: nat): (o: nat)
    requires i < |rows|
    ensures o < |rows|
  {
    if Folds(rows, mapping, i) then Holder(rows, mapping, Dest(rows[i], mapping), i).value else i
  }

  ghost predicate LastOfKey(rows: seq<Row>, k: Key, o: nat) {
    o < |rows| && rows[o].Slot() == k && forall i | o < i < |rows| :: rows[i].Slot() != k
  }

  ghost predicate FirstSentTo(rows: seq<Row>, mapping: map<string, string>, k: Key, o: nat) {
    && o < |rows| && rows[o].sidecar in mapping && Dest(rows[o], mapping) == k
    && forall i | 0 <= i < o :: rows[i].sidecar in mapping ==> Dest(rows[i], mapping) != k
  }

  /**
   * The owner of a row under another name is the last row that has its target key, or, if there is
   * none, the first row in order that is sent there.
   */
  lemma OwnerMeans(rows: seq<Row>, mapping: map<string, string>, i: nat)
    requires i < |rows| && rows[i].sidecar in mapping
    ensures var (k, o) := (Dest(rows[i], mapping), Owner(rows, mapping, i));
            if exists j | 0 <= j < |rows| :: rows[j].Slot() == k then LastOfKey(rows, k, o)
            else FirstSentTo(rows, mapping, k, o)
  {
  }

  // ----- the invariant of the loop

  function Lookup(index: map<Key, nat>, k: Key): Option<nat> {
    if k in index then Some(index[k]) else None
  }

  /** What the first `n` rounds did to row `i`. */
  ghost predicate Tracked(rows: seq<Row>, s: State, n: nat, mapping: map<string, string>, i: nat)
    requires |rows| == |s.rows| == |s.live| && i < |rows|
  {
    var (r, r0) := (s.rows[i], rows[i]);
    && r.grain == r0.grain && r.series == r0.series
    && r.sidecar == (if i < n && !Folds(rows, mapping, i) then Renamed(r0.sidecar, mapping) else r0.sidecar)
    && s.live[i] == !(i < n && Folds(rows, mapping, i))
  }

  ghost predicate Inv(rows: seq<Row>, s: State, n: nat, mapping: map<string, string>)
    requires s.Valid() && |rows| == |s.rows| && n <= |rows|
  {
    && (forall i | 0 <= i < |rows| :: Tracked(rows, s, n, mapping, i))
    && (forall k :: Lookup(s.index, k) == Holder(rows, mapping, k, n))
  }

  lemma {:induction false} IndexIsLast(rows: seq<Row>, n: nat, k: Key)
    requires n <= |rows|
    ensures Lookup(IndexTo(rows, n), k) == LastUnder(rows, k, n)
  {
    if n > 0 {
      IndexIsLast(rows, n - 1, k);
    }
  }

  lemma StartInv(rows: seq<Row>, mapping: map<string, string>)
    ensures Inv(rows, Start(rows), 0, mapping)
  {
    forall k ensures Lookup(Start(rows).index, k) == Holder(rows, mapping, k, 0) {
      IndexIsLast(rows, |rows|, k);
    }
  }

  lemma StepIndex(rows: seq<Row>, s: State, n: nat, mapping: map<string, string>, s': State, k: Key)
    requires s.Valid() && |rows| == |s.rows| && n < |rows| && Inv(rows, s, n, mapping) && s' == Step(s, n, mapping)
    ensures Lookup(s'.index, k) == Holder(rows, mapping, k, n + 1)
  {
    assert Tracked(rows, s, n, mapping, n);
    var w := Dest(rows[n], mapping);
    assert Lookup(s.index, k) == Holder(rows, mapping, k, n);
    assert Lookup(s.index, w) == Holder(rows, mapping, w, n);
  }

  lemma StepRow(rows: seq<Row>, s: State, n: nat, mapping: map<string, string>, s': State, i: nat)
    requires s.Valid() && |rows| == |s.rows| && n < |rows| && Inv(rows, s, n, mapping) && s' == Step(s, n, mapping)
    requires i < |rows|
    ensures var n' := n + 1; Tracked(rows, s', n', mapping, i)
  {
    assert Tracked(rows, s, n, mapping, n) && Tracked(rows, s, n, mapping, i);
    var w := Dest(rows[n], mapping);
    assert Lookup(s.index, w) == Holder(rows, mapping, w, n);
  }

  lemma StepInv(rows: seq<Row>, s: State, n: nat, mapping: map<string, string>, s': State, n': nat)
    requires s.Valid() && |rows| == |s.rows| && n < |rows| && Inv(rows, s, n, mapping)
    requires s' == Step(s, n, mapping) && n' == n + 1
    ensures Inv(rows, s', n', mapping)
  {
    forall i | 0 <= i < |rows| ensures Tracked(rows, s', n', mapping, i) {
      StepRow(rows, s, n, mapping, s', i);
    }
    forall k ensures Lookup(s'.index, k) == Holder(rows, mapping, k, n') {
      StepIndex(rows, s, n, mapping, s', k);
    }
  }

  lemma {:induction false} RoundsInv(rows: seq<Row>, s0: State, n: nat, mapping: map<string, string>, s: State)
    requires s0.Valid() && |s0.rows| == |rows| && n <= |rows| && Inv(rows, s0, 0, mapping)
    requires s == Rounds(s0, n, mapping)
    ensures Inv(rows, s, n, mapping)
  {
    if n > 0 {
      var before := Rounds(s0, n - 1, mapping);
      RoundsInv(rows, s0, n - 1, mapping, before);
      StepInv(rows, before, n - 1, mapping, s, n);
    }
  }

  lemma RunInv(rows: seq<Row>, n: nat, mapping: map<string, string>)
    requires n <= |rows|
    ensures Inv(rows, Rounds(Start(rows), n, mapping), n, mapping)
  {
    StartInv(rows, mapping);
    RoundsInv(rows, Start(rows), n, mapping, Rounds(Start(rows), n, mapping));
  }

  /** No row goes away before its own round. */
  lemma StillLive(rows: seq<Row>, n: nat, mapping: map<string, string>)
    requires n < |rows|
    ensures Rounds(Start(rows), n, mapping).live[n]
  {
    RunInv(rows, n, mapping);
    assert Tracked(rows, Rounds(Start(rows), n, mapping), n, mapping, n);
  }

  /** Every row that is left carries the id the mapping gives it, and the rows that are gone are those folded. */
  lemma AllRenamed(rows: seq<Row>, mapping: map<string, string>, i: nat)
    requires i < |rows|
    ensures var s := Merged(rows, mapping);
            && (s.live[i] <==> !Folds(rows, mapping, i))
            && (s.live[i] ==> s.rows[i].Slot() == Dest(rows[i], mapping) && s.rows[i].series == rows[i].series)
  {
    RunInv(rows, |rows|, mapping);
    var s := Merged(rows, mapping);
    assert Tracked(rows, s, |rows|, mapping, i);
  }

  // ----- deletions

  function CountDead(live: seq<bool>): nat {
    if live == [] then 0 else CountDead(live[..|live| - 1]) + if live[|live| - 1] then 0 else 1
  }

  lemma {:induction false} KillOne(live: seq<bool>, i: nat)
    requires i < |live| && live[i]
    ensures CountDead(live[i := false]) == CountDead(live) + 1
  {
    var n := |live| - 1;
    if i == n {
      assert live[i := false][..n] == live[..n];
    } else {
      assert live[i := false][..n] == live[..n][i := false];
      KillOne(live[..n], i);
    }
  }

  lemma {:induction false} NoneDead(live: seq<bool>)
    requires forall i | 0 <= i < |live| :: live[i]
    ensures CountDead(live) == 0
  {
    if live != [] {
      NoneDead(live[..|live| - 1]);
    }
  }

  lemma StepCounts(s: State, n: nat, mapping: map<string, string>, s': State)
    requires s.Valid() && n < |s.rows| && s.live[n] && s' == Step(s, n, mapping)
    ensures s'.folded - s.folded == CountDead(s'.live) - CountDead(s.live)
  {
    KillOne(s.live, n);
  }

  lemma {:induction false} RoundsCount(s0: State, n: nat, mapping: map<string, string>)
    requires s0.Valid() && n <= |s0.rows| && forall k | 0 <= k < n :: Rounds(s0, k, mapping).live[k]
    ensures Rounds(s0, n, mapping).folded - s0.folded == CountDead(Rounds(s0, n, mapping).live) - CountDead(s0.live)
  {
    if n > 0 {
      RoundsCount(s0, n - 1, mapping);
      StepCounts(Rounds(s0, n - 1, mapping), n - 1, mapping, Rounds(s0, n, mapping));
    }
  }

  /** The number reported is the number of rows that went away, whatever the mapping. */
  lemma FoldedCountsDeleted(rows: seq<Row>, mapping: map<string, string>)
    ensures Merged(rows, mapping).folded == CountDead(Merged(rows, mapping).live)
  {
    forall k | 0 <= k < |rows| ensures Rounds(Start(rows), k, mapping).live[k] {
      StillLive(rows, k, mapping);
    }
    RoundsCount(Start(rows), |rows|, mapping);
    NoneDead(Start(rows).live);
  }

  // ----- sums over the live rows

  datatype Column = Msgs | Input | Output | CacheRead | CacheCreate | Reasoning | Cost

  function Amount(t: Totals, c: Column): real {
    match c
    case Msgs => t.msgs as real
    case Input => t.input as real
    case Output => t.output as real
    case CacheRead => t.cacheRead as real
    case CacheCreate => t.cacheCreate as real
    case Reasoning => t.reasoning as real
    case Cost => t.cost
  }

  /** Which rows a sum is taken over: all of them, or those of a grain of renamed ids, or of one series of it. */
  datatype Scope = Everything | OneGrain(key: Key) | OneSeries(key: Key, series: Series)

  predicate Within(r: Row, scope: Scope, mapping: map<string, string>) {
    match scope
    case Everything => true
    case OneGrain(k) => Dest(r, mapping) == k
    case OneSeries(k, x) => Dest(r, mapping) == k && r.series == x
  }

  ghost function Share(r: Row, live: bool, mapping: map<string, string>, scope: Scope, c: Column): real {
    if live && Within(r, scope, mapping) then Amount(r.totals, c) else 0.0
  }

  /** The sum over the first `n` rows. */
  ghost function Sum(rows: seq<Row>, live: seq<bool>, n: nat, mapping: map<string, string>, scope: Scope,
                     c: Column): real
    requires n <= |rows| == |live|
  {
    if n == 0 then 0.0
    else Sum(rows, live, n - 1, mapping, scope, c) + Share(rows[n - 1], live[n - 1], mapping, scope, c)
  }

  ghost function StateSum(s: State, mapping: map<string, string>, scope: Scope, c: Column): real
    requires s.Valid()
  {
    Sum(s.rows, s.live, |s.rows|, mapping, scope, c)
  }

  lemma {:induction false} ReplaceRow(rows: seq<Row>, live: seq<bool>, n: nat, mapping: map<string, string>,
                                      scope: Scope, c: Column, i: nat, r: Row)
    requires n <= |rows| == |live| && i < |rows|
    ensures Sum(rows[i := r], live, n, mapping, scope, c)
            == Sum(rows, live, n, mapping, scope, c)
               + if i < n then Share(r, live[i], mapping, scope, c) - Share(rows[i], live[i], mapping, scope, c)
                 else 0.0
  {
    if n > 0 {
      ReplaceRow(rows, live, n - 1, mapping, scope, c, i, r);
    }
  }

  lemma {:induction false} DeleteRow(rows: seq<Row>, live: seq<bool>, n: nat, mapping: map<string, string>,
                                     scope: Scope, c: Column, i: nat)
    requires n <= |rows| == |live| && i < |rows|
    ensures Sum(rows, live[i := false], n, mapping, scope, c)
            == Sum(rows, live, n, mapping, scope, c)
               - if i < n then Share(rows[i], live[i], mapping, scope, c) else 0.0
  {
    if n > 0 {
      DeleteRow(rows, live, n - 1, mapping, scope, c, i);
    }
  }

  lemma FoldShare(existing: Row, w: Row, live: bool, mapping: map<string, string>, scope: Scope, c: Column)
    ensures Share(Fold(existing, w), live, mapping, scope, c)
            == Share(existing, live, mapping, scope, c)
               + if live && Within(existing, scope, mapping) then Amount(w.totals, c) else 0.0
  {
  }

  /** Row `n` is folded into row `j` and goes away: the sum loses its part if `j` is gone already. */
  lemma FoldSum(s: State, n: nat, j: nat, mapping: map<string, string>, scope: Scope, c: Column)
    requires s.Valid() && n < |s.rows| && j < |s.rows| && j != n && s.live[n]
    requires Within(s.rows[j], scope, mapping) == Within(s.rows[n], scope, mapping)
    ensures StateSum(FoldInto(s, n, j), mapping, scope, c)
            == StateSum(s, mapping, scope, c)
               - if s.live[j] || !Within(s.rows[n], scope, mapping) then 0.0 else Amount(s.rows[n].totals, c)
  {
    var folded := Fold(s.rows[j], s.rows[n]);
    ReplaceRow(s.rows, s.live, |s.rows|, mapping, scope, c, j, folded);
    DeleteRow(s.rows[j := folded], s.live, |s.rows|, mapping, scope, c, n);
    FoldShare(s.rows[j], s.rows[n], s.live[j], mapping, scope, c);
  }

  lemma RetagSum(s: State, n: nat, target: string, mapping: map<string, string>, scope: Scope, c: Column)
    requires s.Valid() && n < |s.rows|
    requires Within(s.rows[n].(sidecar := target), scope, mapping) == Within(s.rows[n], scope, mapping)
    ensures StateSum(Retag(s, n, target), mapping, scope, c) == StateSum(s, mapping, scope, c)
  {
    ReplaceRow(s.rows, s.live, |s.rows|, mapping, scope, c, n, s.rows[n].(sidecar := target));
  }

  // ----- when totals are conserved

  /** No target is itself a name to be replaced. */
  ghost predicate Settled(mapping: map<string, string>) {
    forall id | id in mapping :: mapping[id] !in mapping
  }

  /** Row `i` is folded into a row that is not there any more. */
  ghost predicate Lost(rows: seq<Row>, mapping: map<string, string>, i: nat)
    requires i < |rows|
  {
    var o := Owner(rows, mapping, i);
    o < i && Folds(rows, mapping, i) && Folds(rows, mapping, o)
  }

  ghost predicate NoneLost(rows: seq<Row>, mapping: map<string, string>) {
    forall i | 0 <= i < |rows| :: !Lost(rows, mapping, i)
  }

  ghost predicate NoLoops(mapping: map<string, string>) {
    forall id | id in mapping :: mapping[id] != id
  }

  /** The row a fold goes to, in the state in which it happens. */
  lemma FoldTarget(rows: seq<Row>, s: State, n: nat, mapping: map<string, string>)
    requires s.Valid() && |rows| == |s.rows| && n < |rows| && Inv(rows, s, n, mapping) && NoLoops(mapping)
    requires Folds(rows, mapping, n)
    ensures var (k, o) := (Dest(rows[n], mapping), Owner(rows, mapping, n));
            && k in s.index && s.index[k] == o && o != n && s.live[n] && Dest(s.rows[n], mapping) == k
            && (s.live[o] <==> !Lost(rows, mapping, n))
  {
    var (k, o) := (Dest(rows[n], mapping), Owner(rows, mapping, n));
    assert Lookup(s.index, k) == Holder(rows, mapping, k, n);
    assert Tracked(rows, s, n, mapping, n) && Tracked(rows, s, n, mapping, o);
  }

  /** One round, for the sum over everything: it loses what is folded into a row that is gone. */
  lemma StepLoses(rows: seq<Row>, s: State, n: nat, mapping: map<string, string>, s': State, c: Column)
    requires s.Valid() && |rows| == |s.rows| && n < |rows| && Inv(rows, s, n, mapping) && NoLoops(mapping)
    requires s' == Step(s, n, mapping)
    ensures StateSum(s', mapping, Everything, c)
            == StateSum(s, mapping, Everything, c) - if Lost(rows, mapping, n) then Amount(s.rows[n].totals, c) else 0.0
  {
    assert Tracked(rows, s, n, mapping, n);
    var k := Dest(rows[n], mapping);
    assert Lookup(s.index, k) == Holder(rows, mapping, k, n);
    if Folds(rows, mapping, n) {
      FoldTarget(rows, s, n, mapping);
      FoldSum(s, n, s.index[k], mapping, Everything, c);
    } else if rows[n].sidecar in mapping {
      RetagSum(s, n, mapping[rows[n].sidecar], mapping, Everything, c);
    }
  }

  /** The sum over all that is left after `n` rounds. */
  ghost function Left(rows: seq<Row>, n: nat, mapping: map<string, string>, c: Column): real
    requires n <= |rows|
  {
    StateSum(Rounds(Start(rows), n, mapping), mapping, Everything, c)
  }

  lemma RoundLoses(rows: seq<Row>, n: nat, mapping: map<string, string>, c: Column, s: State)
    requires n < |rows| && NoLoops(mapping) && s == Rounds(Start(rows), n, mapping)
    ensures Left(rows, n + 1, mapping, c)
            == Left(rows, n, mapping, c) - if Lost(rows, mapping, n) then Amount(s.rows[n].totals, c) else 0.0
  {
    RunInv(rows, n, mapping);
    StepLoses(rows, s, n, mapping, Rounds(Start(rows), n + 1, mapping), c);
  }

  lemma {:induction false} RoundsKeep(rows: seq<Row>, n: nat, mapping: map<string, string>, c: Column)
    requires n <= |rows| && NoLoops(mapping) && NoneLost(rows, mapping)
    ensures Left(rows, n, mapping, c) == Left(rows, 0, mapping, c)
  {
    if n > 0 {
      RoundsKeep(rows, n - 1, mapping, c);
      RoundLoses(rows, n - 1, mapping, c, Rounds(Start(rows), n - 1, mapping));
    }
  }

  ghost predicate Positive(rows: seq<Row>) {
    forall i | 0 <= i < |rows| :: rows[i].totals.msgs > 0
  }

  lemma {:induction false} RoundsPositive(s0: State, n: nat, mapping: map<string, string>)
    requires s0.Valid() && n <= |s0.rows| && Positive(s0.rows)
    ensures Positive(Rounds(s0, n, mapping).rows)
  {
    if n > 0 {
      RoundsPositive(s0, n - 1, mapping);
    }
  }

  lemma RoundDrops(rows: seq<Row>, n: nat, mapping: map<string, string>)
    requires n < |rows| && NoLoops(mapping) && Positive(rows)
    ensures Left(rows, n + 1, mapping, Msgs) <= Left(rows, n, mapping, Msgs)
    ensures Lost(rows, mapping, n) ==> Left(rows, n + 1, mapping, Msgs) < Left(rows, n, mapping, Msgs)
  {
    RoundLoses(rows, n, mapping, Msgs, Rounds(Start(rows), n, mapping));
    RoundsPositive(Start(rows), n, mapping);
  }

  lemma {:induction false} StepsDown(f: seq<real>, n: nat, i: nat)
    requires n < |f| && forall k | 0 < k < |f| :: f[k] <= f[k - 1]
    requires i + 1 < |f| && f[i + 1] < f[i]
    ensures f[n] <= f[0] && (i < n ==> f[n] < f[0])
  {
    if n > 0 {
      StepsDown(f, n - 1, i);
    }
  }

  ghost function Course(rows: seq<Row>, mapping: map<string, string>, c: Column): (f: seq<real>)
    ensures |f| == |rows| + 1 && forall n | 0 <= n <= |rows| :: f[n] == Left(rows, n, mapping, c)
  {
    seq(|rows| + 1, n requires 0 <= n <= |rows| => Left(rows, n, mapping, c))
  }

  lemma RoundsDrop(rows: seq<Row>, mapping: map<string, string>, i: nat, f: seq<real>)
    requires NoLoops(mapping) && Positive(rows) && i < |rows| && Lost(rows, mapping, i)
    requires f == Course(rows, mapping, Msgs)
    ensures f[|rows|] < f[0]
  {
    forall k | 0 < k < |f| ensures f[k] <= f[k - 1] {
      RoundDrops(rows, k - 1, mapping);
    }
    RoundDrops(rows, i, mapping);
    StepsDown(f, |rows|, i);
  }

  ghost predicate Conserved(rows: seq<Row>, mapping: map<string, string>, scope: Scope) {
    forall c: Column :: StateSum(Merged(rows, mapping), mapping, scope, c) == StateSum(Start(rows), mapping, scope, c)
  }

  /**
   * Nothing that is summed up is lost if no row is folded into a row that was folded before, and
   * only then where every row has messages.
   */
  lemma NothingLostExactlyWhen(rows: seq<Row>, mapping: map<string, string>)
    requires NoLoops(mapping)
    ensures NoneLost(rows, mapping) ==> Conserved(rows, mapping, Everything)
    ensures Positive(rows) && Conserved(rows, mapping, Everything) ==> NoneLost(rows, mapping)
  {
    if NoneLost(rows, mapping) {
      forall c: Column
        ensures StateSum(Merged(rows, mapping), mapping, Everything, c) == StateSum(Start(rows), mapping, Everything, c)
      {
        RoundsKeep(rows, |rows|, mapping, c);
      }
    }
    if Positive(rows) && Conserved(rows, mapping, Everything) {
      forall i | 0 <= i < |rows| ensures !Lost(rows, mapping, i) {
        if Lost(rows, mapping, i) {
          RoundsDrop(rows, mapping, i, Course(rows, mapping, Msgs));
        }
      }
    }
  }

  lemma SettledLosesNone(rows: seq<Row>, mapping: map<string, string>)
    requires Settled(mapping)
    ensures NoneLost(rows, mapping)
  {
    forall i | 0 <= i < |rows| && Folds(rows, mapping, i) ensures !Folds(rows, mapping, Owner(rows, mapping, i)) {
      OwnerIsLeft(rows, mapping, i);
    }
  }

  /** With a settled mapping a fold goes into a row that is left and has the target key. */
  lemma OwnerIsLeft(rows: seq<Row>, mapping: map<string, string>, i: nat)
    requires i < |rows| && Settled(mapping) && Folds(rows, mapping, i)
    ensures var o := Owner(rows, mapping, i);
            !Folds(rows, mapping, o) && Dest(rows[o], mapping) == Dest(rows[i], mapping)
  {
    var k := Dest(rows[i], mapping);
    var o := Owner(rows, mapping, i);
    if LastUnder(rows, k, |rows|).None? {
      assert FirstTo(rows, mapping, k, o).None?;
    }
  }

  /** One round, for a grain or for a series of it: nothing leaves it. */
  lemma StepConserves(rows: seq<Row>, s: State, n: nat, mapping: map<string, string>, s': State, scope: Scope,
                      c: Column)
    requires s.Valid() && |rows| == |s.rows| && n < |rows| && Inv(rows, s, n, mapping) && Settled(mapping)
    requires s' == Step(s, n, mapping)
    requires scope.OneSeries? ==> rows[Owner(rows, mapping, n)].series == rows[n].series
    ensures StateSum(s', mapping, scope, c) == StateSum(s, mapping, scope, c)
  {
    assert Tracked(rows, s, n, mapping, n);
    var (k, o) := (Dest(rows[n], mapping), Owner(rows, mapping, n));
    assert Lookup(s.index, k) == Holder(rows, mapping, k, n);
    if Folds(rows, mapping, n) {
      FoldTarget(rows, s, n, mapping);
      OwnerIsLeft(rows, mapping, n);
      assert Tracked(rows, s, n, mapping, o);
      FoldSum(s, n, o, mapping, scope, c);
    } else if rows[n].sidecar in mapping {
      RetagSum(s, n, mapping[rows[n].sidecar], mapping, scope, c);
    }
  }

  lemma RoundConserves(rows: seq<Row>, s: State, n: nat, mapping: map<string, string>, s': State, scope: Scope,
                       c: Column)
    requires n < |rows| && Settled(mapping) && s == Rounds(Start(rows), n, mapping)
    requires s' == Rounds(Start(rows), n + 1, mapping)
    requires scope.OneSeries? ==> rows[Owner(rows, mapping, n)].series == rows[n].series
    ensures StateSum(s', mapping, scope, c) == StateSum(s, mapping, scope, c)
  {
    RunInv(rows, n, mapping);
    StepConserves(rows, s, n, mapping, s', scope, c);
  }

  ghost predicate OwnersAgree(rows: seq<Row>, mapping: map<string, string>) {
    forall i | 0 <= i < |rows| && rows[i].sidecar in mapping :: rows[i].series == rows[Owner(rows, mapping, i)].series
  }

  lemma {:induction false} RoundsConserve(rows: seq<Row>, n: nat, mapping: map<string, string>, s: State, scope: Scope,
                                          c: Column)
    requires n <= |rows| && Settled(mapping) && s == Rounds(Start(rows), n, mapping)
    requires scope.OneSeries? ==> OwnersAgree(rows, mapping)
    ensures StateSum(s, mapping, scope, c) == StateSum(Start(rows), mapping, scope, c)
  {
    if n > 0 {
      var before := Rounds(Start(rows), n - 1, mapping);
      RoundsConserve(rows, n - 1, mapping, before, scope, c);
      RoundConserves(rows, before, n - 1, mapping, s, scope, c);
    }
  }

  /** With a settled mapping all seven additive columns are conserved, for every grain of renamed ids. */
  lemma TotalsConserved(rows: seq<Row>, mapping: map<string, string>, k: Key)
    requires Settled(mapping)
    ensures Conserved(rows, mapping, OneGrain(k))
  {
    forall c: Column
      ensures StateSum(Merged(rows, mapping), mapping, OneGrain(k), c) == StateSum(Start(rows), mapping, OneGrain(k), c)
    {
      RoundsConserve(rows, |rows|, mapping, Merged(rows, mapping), OneGrain(k), c);
    }
  }

  // ----- limit and percentage

  ghost function Owners(rows: seq<Row>, mapping: map<string, string>): (owners: seq<nat>)
    ensures |owners| == |rows| && forall i | 0 <= i < |rows| :: owners[i] == Owner(rows, mapping, i)
  {
    seq(|rows|, i requires 0 <= i < |rows| => Owner(rows, mapping, i))
  }

  /** The messages of those of the first `n` rows that row `o` owns, row `x` left out. */
  ghost function OwnedMsgs(rows: seq<Row>, owners: seq<nat>, o: nat, x: nat, n: nat): int
    requires n <= |rows| == |owners|
  {
    if n == 0 then 0
    else
      OwnedMsgs(rows, owners, o, x, n - 1)
      + if owners[n - 1] == o && n - 1 != x then rows[n - 1].totals.msgs else 0
  }

  /** The messages that row `o` has gathered when the first `n` rows were treated. */
  ghost function Gathered(rows: seq<Row>, owners: seq<nat>, o: nat, n: nat): int
    requires n <= |rows| == |owners| && o < |rows|
  {
    rows[o].totals.msgs + OwnedMsgs(rows, owners, o, o, n)
  }

  /** Row `i` is folded into row `o`, and brings more messages than that row has gathered. */
  ghost predicate Outweighs(rows: seq<Row>, owners: seq<nat>, o: nat, i: nat)
    requires |rows| == |owners| && o < |rows| && i < |rows|
  {
    i != o && owners[i] == o && rows[i].totals.msgs > Gathered(rows, owners, o, i)
  }

  /** The last of the first `n` rows that outweighs what was gathered before it, or else row `o` itself. */
  ghost function Bearer(rows: seq<Row>, owners: seq<nat>, o: nat, n: nat): (b: nat)
    requires n <= |rows| == |owners| && o < |rows|
    ensures b == o || (b < n && Outweighs(rows, owners, o, b))
    ensures forall i | 0 <= i < n && (b == o || i > b) :: !Outweighs(rows, owners, o, i)
  {
    if n == 0 then o
    else if Outweighs(rows, owners, o, n - 1) then n - 1
    else Bearer(rows, owners, o, n - 1)
  }

  /** What `r` is after `n` rounds, if it began as row `i`: as it was when it is to be folded, else what it gathered. */
  ghost predicate Carries(rows: seq<Row>, owners: seq<nat>, r: Row, i: nat, n: nat)
    requires n <= |rows| == |owners| && i < |rows|
  {
    if owners[i] != i then
      r.totals.msgs == rows[i].totals.msgs && r.limit == rows[i].limit && r.used == rows[i].used
    else
      var b := Bearer(rows, owners, i, n);
      r.totals.msgs == Gathered(rows, owners, i, n) && r.limit == rows[b].limit && r.used == rows[b].used
  }

  /** A round with a fold changes the owner alone; without one, limit, percentage and totals stay. */
  lemma RoundChanges(rows: seq<Row>, s: State, n: nat, mapping: map<string, string>, s': State, i: nat)
    requires n < |rows| && Settled(mapping) && s == Rounds(Start(rows), n, mapping)
    requires s' == Step(s, n, mapping) && i < |rows|
    ensures var o := Owner(rows, mapping, n);
            && Owner(rows, mapping, o) == o
            && s'.rows[i] == if o == n then s.rows[i].(sidecar := s'.rows[i].sidecar)
                             else if i == o then Fold(s.rows[o], s.rows[n]) else s.rows[i]
  {
    RunInv(rows, n, mapping);
    assert Tracked(rows, s, n, mapping, n);
    assert Lookup(s.index, Dest(rows[n], mapping)) == Holder(rows, mapping, Dest(rows[n], mapping), n);
    if Folds(rows, mapping, n) {
      FoldTarget(rows, s, n, mapping);
      OwnerIsLeft(rows, mapping, n);
    }
  }

  lemma {:induction false} CarryFold(rows: seq<Row>, owners: seq<nat>, r: Row, w: Row, o: nat, n: nat, n': nat)
    requires n < |rows| == |owners| && o < |rows| && owners[n] == o && owners[o] == o && o != n && n' == n + 1
    requires Carries(rows, owners, r, o, n) && Carries(rows, owners, w, n, n)
    ensures Carries(rows, owners, Fold(r, w), o, n')
  {
  }

  lemma {:induction false} CarryOther(rows: seq<Row>, owners: seq<nat>, r: Row, i: nat, n: nat, n': nat)
    requires n < |rows| == |owners| && i < |rows| && (owners[n] != i || n == i) && n' == n + 1
    requires Carries(rows, owners, r, i, n)
    ensures Carries(rows, owners, r, i, n')
  {
  }

  lemma {:induction false} CarryRow(rows: seq<Row>, owners: seq<nat>, r: Row, w: Row, i: nat, n: nat, r': Row, n': nat)
    requires n < |rows| == |owners| && i < |rows| && n' == n + 1
    requires var o := owners[n];
             && o < |rows| && owners[o] == o
             && r' == if o == n then r.(sidecar := r'.sidecar) else if i == o then Fold(r, w) else r
    requires Carries(rows, owners, r, i, n) && Carries(rows, owners, w, n, n)
    ensures Carries(rows, owners, r', i, n')
  {
    if owners[n] == i != n {
      CarryFold(rows, owners, r, w, i, n, n');
    } else {
      CarryOther(rows, owners, r, i, n, n');
    }
  }

  lemma {:induction false} RoundsCarry(rows: seq<Row>, owners: seq<nat>, n: nat, mapping: map<string, string>, s: State)
    requires n <= |rows| && Settled(mapping) && s == Rounds(Start(rows), n, mapping)
    requires owners == Owners(rows, mapping)
    ensures forall i | 0 <= i < |rows| :: Carries(rows, owners, s.rows[i], i, n)
  {
    if n > 0 {
      var before := Rounds(Start(rows), n - 1, mapping);
      RoundsCarry(rows, owners, n - 1, mapping, before);
      forall i | 0 <= i < |rows| ensures Carries(rows, owners, s.rows[i], i, n) {
        RoundChanges(rows, before, n - 1, mapping, s, i);
        CarryRow(rows, owners, before.rows[i], before.rows[n - 1], i, n - 1, s.rows[i], n);
      }
    }
  }

  /**
   * With a settled mapping, a row that is left carries limit and percentage of one row that it owns,
   * never of two: of the last one folded into it that brought more messages than were gathered before,
   * or its own.
   */
  lemma LimitComesFrom(rows: seq<Row>, mapping: map<string, string>, owners: seq<nat>, o: nat) returns (b: nat)
    requires Settled(mapping) && owners == Owners(rows, mapping) && o < |rows| && Merged(rows, mapping).live[o]
    ensures b < |rows| && owners[b] == o
    ensures b == o || Outweighs(rows, owners, o, b)
    ensures forall i | 0 <= i < |rows| && (b == o || i > b) :: !Outweighs(rows, owners, o, i)
    ensures var r := Merged(rows, mapping).rows[o]; r.limit == rows[b].limit && r.used == rows[b].used
    ensures Merged(rows, mapping).rows[o].totals.msgs == Gathered(rows, owners, o, |rows|)
  {
    AllRenamed(rows, mapping, o);
    b := Bearer(rows, owners, o, |rows|);
    RoundsCarry(rows, owners, |rows|, mapping, Merged(rows, mapping));
  }

  ghost predicate NonNegativeMsgs(rows: seq<Row>) {
    forall i | 0 <= i < |rows| :: rows[i].totals.msgs >= 0
  }

  lemma {:induction false} OwnedGrow(rows: seq<Row>, owners: seq<nat>, o: nat, x: nat, n: nat, m: nat)
    requires NonNegativeMsgs(rows) && n <= m <= |rows| == |owners|
    ensures 0 <= OwnedMsgs(rows, owners, o, x, n) <= OwnedMsgs(rows, owners, o, x, m)
  {
    if n < m {
      OwnedGrow(rows, owners, o, x, n, m - 1);
    } else if n > 0 {
      OwnedGrow(rows, owners, o, x, n - 1, n - 1);
    }
  }

  lemma {:induction false} OwnedCounts(rows: seq<Row>, owners: seq<nat>, o: nat, x: nat, n: nat, i: nat)
    requires NonNegativeMsgs(rows) && i < n <= |rows| == |owners| && owners[i] == o && i != x
    ensures OwnedMsgs(rows, owners, o, x, i) + rows[i].totals.msgs <= OwnedMsgs(rows, owners, o, x, n)
    ensures rows[i].totals.msgs <= OwnedMsgs(rows, owners, o, x, n)
  {
    OwnedGrow(rows, owners, o, x, i, i);
    OwnedGrow(rows, owners, o, x, i + 1, n);
  }

  lemma {:induction false} LeaveOutOther(rows: seq<Row>, owners: seq<nat>, o: nat, x: nat, y: nat, n: nat)
    requires n <= |rows| == |owners| && x < |rows| && y < |rows| && owners[x] == o && owners[y] == o
    ensures OwnedMsgs(rows, owners, o, x, n) + (if x < n then rows[x].totals.msgs else 0)
         == OwnedMsgs(rows, owners, o, y, n) + (if y < n then rows[y].totals.msgs else 0)
  {
    if n > 0 {
      LeaveOutOther(rows, owners, o, x, y, n - 1);
    }
  }

  /**
   * If one of the rows that a row owns has more messages than all its others together, limit and
   * percentage are that row's; if it is the row itself, as many are enough, so a tie of two leaves
   * them alone.
   */
  lemma HeaviestGivesLimit(rows: seq<Row>, mapping: map<string, string>, owners: seq<nat>, o: nat, d: nat)
    requires Settled(mapping) && owners == Owners(rows, mapping) && NonNegativeMsgs(rows)
    requires o < |rows| && Merged(rows, mapping).live[o] && d < |rows| && owners[d] == o
    requires rows[d].totals.msgs >= OwnedMsgs(rows, owners, o, d, |rows|) + if d == o then 0 else 1
    ensures var r := Merged(rows, mapping).rows[o]; r.limit == rows[d].limit && r.used == rows[d].used
  {
    var b := LimitComesFrom(rows, mapping, owners, o);
    AllRenamed(rows, mapping, o);
    HeaviestIsBearer(rows, owners, o, d, b);
  }

  lemma {:induction false} HeaviestIsBearer(rows: seq<Row>, owners: seq<nat>, o: nat, d: nat, b: nat)
    requires NonNegativeMsgs(rows) && |owners| == |rows| && o < |rows| && d < |rows| && b < |rows|
    requires owners[o] == o && owners[d] == o && owners[b] == o
    requires rows[d].totals.msgs >= OwnedMsgs(rows, owners, o, d, |rows|) + if d == o then 0 else 1
    requires b == o || Outweighs(rows, owners, o, b)
    requires forall i | 0 <= i < |rows| && (b == o || i > b) :: !Outweighs(rows, owners, o, i)
    ensures b == d
  {
    if d != o {
      OwnedCounts(rows, owners, o, o, |rows|, d);
      LeaveOutOther(rows, owners, o, d, o, |rows|);
      assert Outweighs(rows, owners, o, d);
    }
    if b != d {
      OwnedCounts(rows, owners, o, d, |rows|, b);
      OwnedGrow(rows, owners, o, o, b, b);
      if d != o {
        OwnedCounts(rows, owners, o, o, b, d);
      }
      assert false;
    }
  }

  // ----- quota series

  /** The round of row `n` folds it into a row of its own series, if it folds it at all. */
  ghost predicate FoldStaysInSeries(rows: seq<Row>, mapping: map<string, string>, n: nat)
    requires n < |rows|
  {
    var (s, s') := (Rounds(Start(rows), n, mapping), Rounds(Start(rows), n + 1, mapping));
    s'.folded > s.folded ==>
      var key := Key(s.rows[n].grain, Renamed(s.rows[n].sidecar, mapping));
      key in s.index && s.rows[s.index[key]].series == s.rows[n].series
  }

  lemma FoldSeries(rows: seq<Row>, mapping: map<string, string>, n: nat, s: State)
    requires n < |rows| && s == Rounds(Start(rows), n, mapping)
    ensures FoldStaysInSeries(rows, mapping, n)
            <==> (rows[n].sidecar in mapping ==> rows[n].series == rows[Owner(rows, mapping, n)].series)
  {
    RunInv(rows, n, mapping);
    var (k, o) := (Dest(rows[n], mapping), Owner(rows, mapping, n));
    assert Tracked(rows, s, n, mapping, n) && Tracked(rows, s, n, mapping, o);
    assert Lookup(s.index, k) == Holder(rows, mapping, k, n);
    assert Rounds(Start(rows), n + 1, mapping) == Step(s, n, mapping);
  }

  /**
   * The six-part key leaves out the quota series. Every fold stays inside one series exactly when
   * every row under another name is of the series of its owner, which the table tells beforehand.
   */
  lemma SeriesKeptExactlyWhen(rows: seq<Row>, mapping: map<string, string>)
    ensures (forall n | 0 <= n < |rows| :: FoldStaysInSeries(rows, mapping, n))
            <==> (forall i | 0 <= i < |rows| && rows[i].sidecar in mapping ::
                    rows[i].series == rows[Owner(rows, mapping, i)].series)
  {
    forall n | 0 <= n < |rows|
      ensures FoldStaysInSeries(rows, mapping, n)
              <==> (rows[n].sidecar in mapping ==> rows[n].series == rows[Owner(rows, mapping, n)].series)
    {
      FoldSeries(rows, mapping, n, Rounds(Start(rows), n, mapping));
    }
  }

  /** Then all seven columns are conserved for every quota series of every grain. */
  lemma SeriesTotalsConserved(rows: seq<Row>, mapping: map<string, string>, k: Key, x: Series)
    requires Settled(mapping)
    requires forall i | 0 <= i < |rows| && rows[i].sidecar in mapping ::
               rows[i].series == rows[Owner(rows, mapping, i)].series
    ensures Conserved(rows, mapping, OneSeries(k, x))
  {
    forall c: Column
      ensures StateSum(Merged(rows, mapping), mapping, OneSeries(k, x), c)
              == StateSum(Start(rows), mapping, OneSeries(k, x), c)
    {
      RoundsConserve(rows, |rows|, mapping, Merged(rows, mapping), OneSeries(k, x), c);
    }
  }

  // ----- the merged table

  ghost predicate UniqueKeys(rows: seq<Row>, live: seq<bool>)
    requires |rows| == |live|
  {
    forall i, j | 0 <= i < j < |rows| && live[i] && live[j] :: rows[i].Slot() != rows[j].Slot()
  }

  ghost predicate KeptKeysUnique(rows: seq<Row>, mapping: map<string, string>) {
    forall i, j | 0 <= i < j < |rows| && rows[i].sidecar !in mapping && rows[j].sidecar !in mapping ::
      rows[i].Slot() != rows[j].Slot()
  }

  /** Rows that are left under one key were under that key from the start. */
  lemma TwinsAreOriginal(rows: seq<Row>, mapping: map<string, string>, i: nat, j: nat)
    requires i < j < |rows| && !Folds(rows, mapping, i) && !Folds(rows, mapping, j)
    requires Dest(rows[i], mapping) == Dest(rows[j], mapping)
    ensures rows[i].sidecar !in mapping && rows[j].sidecar !in mapping
  {
    var k := Dest(rows[j], mapping);
    assert rows[i].sidecar !in mapping ==> rows[i].Slot() == k;
    assert rows[j].sidecar !in mapping ==> rows[j].Slot() == k;
    assert FirstTo(rows, mapping, k, j).None? || rows[j].sidecar !in mapping;
  }

  /**
   * The merged table has one row per six-part key exactly when the rows under names that are kept
   * did; rows under other names may repeat a key as they like, and the mapping may be any.
   */
  lemma UniqueExactlyWhen(rows: seq<Row>, mapping: map<string, string>)
    ensures var s := Merged(rows, mapping); UniqueKeys(s.rows, s.live) <==> KeptKeysUnique(rows, mapping)
  {
    var s := Merged(rows, mapping);
    forall i, j | 0 <= i < j < |rows|
      ensures s.live[i] && s.live[j] && s.rows[i].Slot() == s.rows[j].Slot()
              <==> rows[i].sidecar !in mapping && rows[j].sidecar !in mapping && rows[i].Slot() == rows[j].Slot()
    {
      TwinsExactlyWhen(rows, mapping, s, i, j);
    }
  }

  lemma TwinsExactlyWhen(rows: seq<Row>, mapping: map<string, string>, s: State, i: nat, j: nat)
    requires i < j < |rows| && s == Merged(rows, mapping)
    ensures s.live[i] && s.live[j] && s.rows[i].Slot() == s.rows[j].Slot()
            <==> rows[i].sidecar !in mapping && rows[j].sidecar !in mapping && rows[i].Slot() == rows[j].Slot()
  {
    AllRenamed(rows, mapping, i);
    AllRenamed(rows, mapping, j);
    if s.live[i] && s.live[j] && s.rows[i].Slot() == s.rows[j].Slot() {
      TwinsAreOriginal(rows, mapping, i, j);
    }
  }

  /** The table's own constraint, on the key extended by the quota series. */
  ghost predicate UniqueIdentity(rows: seq<Row>, live: seq<bool>)
    requires |rows| == |live|
  {
    forall i, j | 0 <= i < j < |rows| && live[i] && live[j] ::
      rows[i].Slot() != rows[j].Slot() || rows[i].series != rows[j].series
  }

  /**
   * The key columns of row `i` while the session is flushed: those it was read with, or, once its
   * update is among those `written`, those the loop gave it.
   */
  function KeyWritten(rows: seq<Row>, mapping: map<string, string>, written: set<nat>, i: nat): Key
    requires i < |rows|
  {
    if i in written && !Folds(rows, mapping, i) then Dest(rows[i], mapping) else rows[i].Slot()
  }

  /** The constraint, on the rows that are not `gone`. */
  ghost predicate UniqueWritten(rows: seq<Row>, mapping: map<string, string>, written: set<nat>, gone: set<nat>) {
    forall i, j | 0 <= i < j < |rows| && i !in gone && j !in gone ::
      KeyWritten(rows, mapping, written, i) != KeyWritten(rows, mapping, written, j) || rows[i].series != rows[j].series
  }

  /** A row that takes a key finds no row that ever had it. */
  lemma TakenKeyIsNew(rows: seq<Row>, mapping: map<string, string>, i: nat, j: nat)
    requires i < |rows| && j < |rows| && i != j && rows[i].sidecar in mapping && !Folds(rows, mapping, i)
    ensures rows[j].Slot() != Dest(rows[i], mapping)
    ensures !Folds(rows, mapping, j) ==> Dest(rows[j], mapping) != Dest(rows[i], mapping)
  {
    var k := Dest(rows[i], mapping);
    assert LastUnder(rows, k, |rows|).None? && FirstTo(rows, mapping, k, i).None?;
    if j > i && rows[j].sidecar in mapping && Dest(rows[j], mapping) == k {
      assert FirstTo(rows, mapping, k, j).Some?;
    }
  }

  lemma KeysWrittenDiffer(rows: seq<Row>, mapping: map<string, string>, written: set<nat>, i: nat, j: nat)
    requires i < j < |rows| && (rows[i].Slot() != rows[j].Slot() || rows[i].series != rows[j].series)
    ensures KeyWritten(rows, mapping, written, i) != KeyWritten(rows, mapping, written, j)
            || rows[i].series != rows[j].series
  {
    if i in written && rows[i].sidecar in mapping && !Folds(rows, mapping, i) {
      TakenKeyIsNew(rows, mapping, i, j);
    } else if j in written && rows[j].sidecar in mapping && !Folds(rows, mapping, j) {
      TakenKeyIsNew(rows, mapping, j, i);
    }
  }

  /** The table's own constraint holds whatever has been written and deleted so far, in any order. */
  lemma UniqueThroughout(rows: seq<Row>, mapping: map<string, string>, written: set<nat>, gone: set<nat>)
    requires UniqueIdentity(rows, Start(rows).live)
    ensures UniqueWritten(rows, mapping, written, gone)
  {
    forall i, j | 0 <= i < j < |rows| && i !in gone && j !in gone
      ensures KeyWritten(rows, mapping, written, i) != KeyWritten(rows, mapping, written, j)
              || rows[i].series != rows[j].series
    {
      assert Start(rows).live[i] && Start(rows).live[j];
      KeysWrittenDiffer(rows, mapping, written, i, j);
    }
  }

  /** And so it survives the merge: at the end all updates are written. */
  lemma IdentityStaysUnique(rows: seq<Row>, mapping: map<string, string>)
    requires UniqueIdentity(rows, Start(rows).live)
    ensures UniqueIdentity(Merged(rows, mapping).rows, Merged(rows, mapping).live)
  {
    var s := Merged(rows, mapping);
    forall i, j | 0 <= i < j < |rows| && s.live[i] && s.live[j]
      ensures s.rows[i].Slot() != s.rows[j].Slot() || s.rows[i].series != s.rows[j].series
    {
      UniqueThroughout(rows, mapping, {i, j}, {});
      AllRenamed(rows, mapping, i);
      AllRenamed(rows, mapping, j);
    }
  }

  // ----- the mapping of a run, and what it loses

  /** A table the migration can find: its names are among those collected, and it meets its constraint. */
  ghost predicate IsTable(rows: seq<Row>, ids: set<string>) {
    && (forall i | 0 <= i < |rows| :: rows[i].sidecar in ids)
    && UniqueIdentity(rows, Start(rows).live)
  }

  ghost predicate SettlesOn(ids: set<string>, norm: string -> string) {
    forall id | id in ids && norm(id) in ids :: norm(norm(id)) == norm(id)
  }

  lemma BuiltMapping(ids: set<string>, norm: string -> string)
    ensures var mapping := BuildMapping(ids, norm);
            && NoLoops(mapping) && (Settled(mapping) <==> SettlesOn(ids, norm))
            && forall id | id in ids :: Renamed(id, mapping) == norm(id)
  {
    var mapping := BuildMapping(ids, norm);
    if Settled(mapping) {
      forall id | id in ids && norm(id) in ids ensures norm(norm(id)) == norm(id) {
        assert id in mapping ==> mapping[id] == norm(id);
      }
    }
  }

  const ONE := Totals(1, 0, 0, 0, 0, 0, 0.0)

  /** Two series under the name `b`, and a row under a name that becomes `b`. */
  function LosingTable(g: Grain, id: string, b: string): seq<Row> {
    [Row(g, Series("x", ""), b, ONE, None, None), Row(g, Series("y", ""), b, ONE, None, None),
     Row(g, Series("x", ""), id, ONE, None, None)]
  }

  /** The second row under `b` is folded away before the row under `id` is folded into it. */
  lemma LosingTableLoses(g: Grain, id: string, mapping: map<string, string>)
    requires id in mapping && mapping[id] in mapping && NoLoops(mapping)
    ensures Lost(LosingTable(g, id, mapping[id]), mapping, 2)
  {
    var b := mapping[id];
    var rows := LosingTable(g, id, b);
    var (k, k') := (Key(g, b), Key(g, mapping[b]));
    assert rows[1].Slot() == k && rows[2].Slot() != k;
    assert LastUnder(rows, k, 3) == Some(1) && Dest(rows[2], mapping) == k;
    assert Owner(rows, mapping, 2) == 1;
    assert Dest(rows[0], mapping) == k' && Dest(rows[1], mapping) == k';
    assert FirstTo(rows, mapping, k', 1).Some?;
    assert Holder(rows, mapping, k', 1).Some?;
  }

  lemma SettledConserves(rows: seq<Row>, mapping: map<string, string>)
    requires Settled(mapping)
    ensures Conserved(rows, mapping, Everything)
  {
    SettledLosesNone(rows, mapping);
    NothingLostExactlyWhen(rows, mapping);
  }

  lemma LosingTableIsTable(g: Grain, ids: set<string>, id: string, b: string)
    requires id in ids && b in ids && id != b
    ensures IsTable(LosingTable(g, id, b), ids)
  {
    var rows := LosingTable(g, id, b);
    assert rows[0].series != rows[1].series && rows[1].Slot() != rows[2].Slot();
  }

  lemma UnsettledLoses(ids: set<string>, mapping: map<string, string>, rows: seq<Row>, id: string)
    requires id in mapping && mapping[id] in mapping && NoLoops(mapping) && mapping.Keys <= ids
    requires rows == LosingTable(Grain("", "", "", 0, ""), id, mapping[id])
    ensures IsTable(rows, ids) && !Conserved(rows, mapping, Everything)
  {
    LosingTableIsTable(Grain("", "", "", 0, ""), ids, id, mapping[id]);
    LosingTableLoses(Grain("", "", "", 0, ""), id, mapping);
    NothingLostExactlyWhen(rows, mapping);
  }

  /**
   * Nothing is lost, in any table, exactly when normalising a collected name again changes it no
   * more, or yields a name that was not collected.
   */
  lemma ConservedExactlyWhen(ids: set<string>, norm: string -> string)
    ensures (forall rows | IsTable(rows, ids) :: Conserved(rows, BuildMapping(ids, norm), Everything))
            <==> SettlesOn(ids, norm)
  {
    var mapping := BuildMapping(ids, norm);
    BuiltMapping(ids, norm);
    if SettlesOn(ids, norm) {
      forall rows | IsTable(rows, ids) ensures Conserved(rows, mapping, Everything) {
        SettledConserves(rows, mapping);
      }
    } else {
      var id :| id in mapping && mapping[id] in mapping;
      UnsettledLoses(ids, mapping, LosingTable(Grain("", "", "", 0, ""), id, mapping[id]), id);
    }
  }

  /** For host names: the first label of a name that becomes another collected name does not end in white space. */
  lemma HostNamesConservedExactlyWhen(ids: set<string>)
    ensures (forall rows | IsTable(rows, ids) :: Conserved(rows, BuildMapping(ids, SidecarIds.Normalize), Everything))
            <==> (forall id | id in ids && SidecarIds.Normalize(id) in ids :: SidecarIds.Settles(id))
  {
    ConservedExactlyWhen(ids, SidecarIds.Normalize);
    forall id | id in ids
      ensures SidecarIds.Settles(id)
              <==> SidecarIds.Normalize(SidecarIds.Normalize(id)) == SidecarIds.Normalize(id)
    {
      SidecarIds.IdempotentExactlyWhen(id);
    }
  }

  /** Every fold goes into another row that is still there and has the key the folded row would get. */
  lemma FoldsIntoLiveRow(rows: seq<Row>, n: nat, mapping: map<string, string>)
    requires n < |rows| && Settled(mapping)
    requires Rounds(Start(rows), n + 1, mapping).folded > Rounds(Start(rows), n, mapping).folded
    ensures var s := Rounds(Start(rows), n, mapping);
            var key := Dest(rows[n], mapping);
            && key in s.index && s.index[key] != n && s.live[s.index[key]] && s.rows[s.index[key]].Slot() == key
  {
    var s := Rounds(Start(rows), n, mapping);
    RunInv(rows, n, mapping);
    var (k, o) := (Dest(rows[n], mapping), Owner(rows, mapping, n));
    assert Tracked(rows, s, n, mapping, n) && Tracked(rows, s, n, mapping, o);
    assert Lookup(s.index, k) == Holder(rows, mapping, k, n);
    FoldTarget(rows, s, n, mapping);
    OwnerIsLeft(rows, mapping, n);
  }

  /** The rows that are left, as the table a second run reads. */
  function Remaining(rows: seq<Row>, live: seq<bool>): seq<Row>
    requires |rows| == |live|
  {
    if rows == [] then []
    else
      var n := |rows| - 1;
      Remaining(rows[..n], live[..n]) + if live[n] then [rows[n]] else []
  }

  lemma {:induction false} RemainingAreLive(rows: seq<Row>, live: seq<bool>, r: Row)
    requires |rows| == |live| && r in Remaining(rows, live)
    ensures exists i | 0 <= i < |rows| :: live[i] && rows[i] == r
  {
    var n := |rows| - 1;
    if r in Remaining(rows[..n], live[..n]) {
      RemainingAreLive(rows[..n], live[..n], r);
      var i :| 0 <= i < n && live[..n][i] && rows[..n][i] == r;
      assert live[i] && rows[i] == r;
    } else {
      assert live[n] && rows[n] == r;
    }
  }

  lemma {:induction false} NothingToRename(s0: State, n: nat, mapping: map<string, string>)
    requires s0.Valid() && n <= |s0.rows| && forall r | r in s0.rows :: r.sidecar !in mapping
    ensures Rounds(s0, n, mapping) == s0
  {
    if n > 0 {
      NothingToRename(s0, n - 1, mapping);
    }
  }

  /** The table a run leaves to the next. */
  function LeftBy(rows: seq<Row>, mapping: map<string, string>): seq<Row> {
    Remaining(Merged(rows, mapping).rows, Merged(rows, mapping).live)
  }

  /** A second run, whatever names it collects, changes nothing. */
  ghost predicate Final(rows: seq<Row>, ids: set<string>, norm: string -> string) {
    var again := LeftBy(rows, BuildMapping(ids, norm));
    forall ids': set<string> :: Merged(again, BuildMapping(ids', norm)) == Start(again)
  }

  lemma SecondRunIsQuiet(rows: seq<Row>, ids: set<string>, norm: string -> string, ids': set<string>, again: seq<Row>)
    requires IsTable(rows, ids) && (forall id | id in ids :: norm(norm(id)) == norm(id))
    requires again == LeftBy(rows, BuildMapping(ids, norm))
    ensures Merged(again, BuildMapping(ids', norm)) == Start(again)
  {
    var mapping := BuildMapping(ids, norm);
    var s := Merged(rows, mapping);
    forall r | r in again ensures r.sidecar !in BuildMapping(ids', norm) {
      RemainingAreLive(s.rows, s.live, r);
      var i :| 0 <= i < |rows| && s.live[i] && s.rows[i] == r;
      AllRenamed(rows, mapping, i);
    }
    NothingToRename(Start(again), |again|, BuildMapping(ids', norm));
  }

  /** One row on its own is renamed and left. */
  lemma LoneRow(r: Row, mapping: map<string, string>)
    requires NoLoops(mapping)
    ensures LeftBy([r], mapping) == [r.(sidecar := Renamed(r.sidecar, mapping))]
    ensures Merged([r], mapping).rows == LeftBy([r], mapping)
  {
    var rows := [r];
    var s0 := Start(rows);
    assert Rounds(s0, 1, mapping) == Step(s0, 0, mapping) by {
      assert Rounds(s0, 0, mapping) == s0;
    }
    assert IndexTo(rows, 0) == map[] && s0.index == map[r.Slot() := 0];
    var s := Merged(rows, mapping);
    assert s.live == [true] && s.rows == [r.(sidecar := Renamed(r.sidecar, mapping))];
    assert Remaining(s.rows[..0], s.live[..0]) == [];
  }

  /** A second run changes nothing, for every table, exactly when every collected name is settled after the first. */
  lemma SecondRunQuietExactlyWhen(ids: set<string>, norm: string -> string)
    ensures (forall rows | IsTable(rows, ids) :: Final(rows, ids, norm))
            <==> (forall id | id in ids :: norm(norm(id)) == norm(id))
  {
    if forall id | id in ids :: norm(norm(id)) == norm(id) {
      forall rows, ids' | IsTable(rows, ids)
        ensures var again := LeftBy(rows, BuildMapping(ids, norm));
                Merged(again, BuildMapping(ids', norm)) == Start(again)
      {
        SecondRunIsQuiet(rows, ids, norm, ids', LeftBy(rows, BuildMapping(ids, norm)));
      }
    } else {
      var id :| id in ids && norm(norm(id)) != norm(id);
      UnsettledIsNotFinal(ids, norm, id, Row(Grain("", "", "", 0, ""), Series("", ""), id, ONE, None, None));
    }
  }

  lemma UnsettledIsNotFinal(ids: set<string>, norm: string -> string, id: string, r: Row)
    requires id in ids && norm(norm(id)) != norm(id) && r.sidecar == id
    ensures IsTable([r], ids) && !Final([r], ids, norm)
  {
    var ids' := {norm(id)};
    var again := LeftBy([r], BuildMapping(ids, norm));
    LoneRow(r, BuildMapping(ids, norm));
    assert again == [r.(sidecar := norm(id))];
    LoneRow(again[0], BuildMapping(ids', norm));
    assert Merged(again, BuildMapping(ids', norm)).rows[0].sidecar == norm(norm(id));
  }

  /** Row 1 is folded into row 0, and then row 2 into row 1. */
  lemma ChainLoses(rows: seq<Row>, mapping: map<string, string>)
    requires |rows| == 3 && rows[0].grain == rows[1].grain == rows[2].grain && rows[0].sidecar !in mapping
    requires rows[1].sidecar in mapping && mapping[rows[1].sidecar] == rows[0].sidecar
    requires rows[2].sidecar in mapping && mapping[rows[2].sidecar] == rows[1].sidecar
    requires rows[0].sidecar != rows[1].sidecar && rows[1].sidecar != rows[2].sidecar
    requires rows[0].sidecar != rows[2].sidecar
    ensures var s := Merged(rows, mapping);
            s.live == [true, false, false] && s.rows[0].totals == rows[0].totals.Plus(rows[1].totals) && s.folded == 2
  {
    var s0 := Start(rows);
    var (k0, k1) := (rows[0].Slot(), rows[1].Slot());
    IndexIsLast(rows, 3, k0);
    IndexIsLast(rows, 3, k1);
    assert Lookup(s0.index, k0) == Some(0) && Lookup(s0.index, k1) == Some(1);
    var s1, s2, s3 := Rounds(s0, 1, mapping), Rounds(s0, 2, mapping), Rounds(s0, 3, mapping);
    assert s1 == Step(s0, 0, mapping) by {
      assert Rounds(s0, 0, mapping) == s0;
    }
    assert s2 == FoldInto(s1, 1, 0);
    assert s3 == FoldInto(s2, 2, 1);
  }

  /**
   * Rows of one grain under `x`, `x ` and `x .rest`, such as "a", "a " and "a .b": the second is
   * folded into the first, and then the third into the second, which is gone. Its totals are lost.
   */
  lemma TotalsCanBeLost(g: Grain, series: Series, t: Totals, u: Totals, v: Totals, x: string, rest: string)
    requires SidecarIds.PlainLabel(x) && rest != [] && !SidecarIds.PyString.IsSpace(rest[|rest| - 1])
    ensures var (y, z) := (x + [' '], x + [' '] + ['.'] + rest);
            var rows := [Row(g, series, x, t, None, None), Row(g, series, y, u, None, None),
                         Row(g, series, z, v, None, None)];
            var s := Merged(rows, BuildMapping({x, y, z}, SidecarIds.Normalize));
            s.live == [true, false, false] && s.rows[0].totals == t.Plus(u) && s.folded == 2
  {
    var (y, z) := (x + [' '], x + [' '] + ['.'] + rest);
    SidecarIds.BlankBehindLabel(x, rest);
    assert |x| < |y| < |z|;
    ChainLoses([Row(g, series, x, t, None, None), Row(g, series, y, u, None, None), Row(g, series, z, v, None, None)],
               BuildMapping({x, y, z}, SidecarIds.Normalize));
  }

  /**
   * The row of series "b" under another name of the host ends up in the row of series "a", although
   * the mapping is settled.
   */
  lemma SeriesAreFoldedTogether(g: Grain, t: Totals, u: Totals)
    ensures var rows := [Row(g, Series("a", ""), "mac", t, None, None),
                         Row(g, Series("b", ""), "mac.local", u, None, None)];
            var s := Merged(rows, map["mac.local" := "mac"]);
            s.live == [true, false] && s.rows[0].series == Series("a", "") && s.rows[0].totals == t.Plus(u)
  {
    var mapping := map["mac.local" := "mac"];
    var a, b := Row(g, Series("a", ""), "mac", t, None, None), Row(g, Series("b", ""), "mac.local", u, None, None);
    var rows := [a, b];
    assert |"mac"| != |"mac.local"|;
    var s0 := Start(rows);
    assert IndexTo(rows, 1) == map[a.Slot() := 0];
    assert s0.index == map[a.Slot() := 0, b.Slot() := 1];
    var s1 := Rounds(s0, 1, mapping);
    assert a.sidecar !in mapping && s0.rows[0] == a && Rounds(s0, 0, mapping) == s0;
    assert s1 == Step(s0, 0, mapping) == s0;
    assert Target(b, mapping) == a.Slot();
    assert Rounds(s0, 2, mapping) == FoldInto(s1, 1, 0);
  }
}
