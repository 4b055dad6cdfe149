/** `migrate` in `scripts/reclassify_opencode_providers.py`. */
module OpenCodeMigration {
  // Rows of `usage_events` are corrected one by one, each inside a savepoint, under the unique index
  // on (provider, event).

  datatype Option<+T> = None | Some(value: T)

  datatype Meters = Meters(input: int, output: int, cacheRead: int, cacheCreate: int, reasoning: int,
                           costUsd: real, costInput: real, costOutput: real, costCacheRead: real, costCacheCreate: real)

  const ZERO := Meters(0, 0, 0, 0, 0, 0.0, 0.0, 0.0, 0.0, 0.0)

  datatype Row = Row(event: string, provider: string, account: string, kind: string, stopReason: Option<string>,
                     meters: Meters)

  /** What the local OpenCode database says about one message. */
  datatype Target = Target(provider: string, account: Option<string>, kind: string, reason: Option<string>)

  type Mapping = map<string, Target>

  /** `account_id_override or row.account_id`. */
  function NewAccount(r: Row, t: Target): string {
    if t.account.Some? && t.account.value != "" then t.account.value else r.account
  }

  predicate AlreadyCorrect(r: Row, t: Target) {
    t.provider == r.provider && NewAccount(r, t) == r.account && t.kind == r.kind
  }

  /** A failed request keeps no tokens and no cost. */
  function Corrected(r: Row, t: Target): Row {
    var moved := r.(provider := t.provider, account := NewAccount(r, t), kind := t.kind);
    if t.kind == "error" then moved.(stopReason := t.reason, meters := ZERO) else moved
  }

  /** Another row holds the (provider, event) slot that `r` would take at position `i`. */
  predicate Collides(rows: seq<Row>, i: nat, r: Row) {
    exists j | 0 <= j < |rows| :: j != i && rows[j].provider == r.provider && rows[j].event == r.event
  }

  ghost predicate Unique(rows: seq<Row>) {
    forall i, j | 0 <= i < j < |rows| :: rows[i].provider != rows[j].provider || rows[i].event != rows[j].event
  }

  datatype Counts = Counts(changed: nat, missing: nat, conflicts: nat)

  datatype State = State(rows: seq<Row>, counts: Counts)

  /** What happens to one row of the scan. A dry run changes the row object and never meets the index. */
  function Step(s: State, i: nat, mapping: Mapping, apply: bool): (s': State)
    requires i < |s.rows|
    ensures |s'.rows| == |s.rows|
  {
    var r := s.rows[i];
    if r.event !in mapping then s.(counts := s.counts.(missing := s.counts.missing + 1))
    else
      var t := mapping[r.event];
      if AlreadyCorrect(r, t) then s
      else if apply && Collides(s.rows, i, Corrected(r, t)) then
        s.(counts := s.counts.(conflicts := s.counts.conflicts + 1))
      else State(s.rows[i := Corrected(r, t)], s.counts.(changed := s.counts.changed + 1))
  }

  /** A scan is the list of row positions the query returned, in whatever order. */
  ghost predicate IsScan(scan: seq<nat>, count: nat) {
    && (forall k | 0 <= k < |scan| :: scan[k] < count)
    && (forall k, l | 0 <= k < l < |scan| :: scan[k] != scan[l])
  }

  function Run(rows: seq<Row>, scan: seq<nat>, n: nat, mapping: Mapping, apply: bool): (s: State)
    requires n <= |scan| && forall k | 0 <= k < |scan| :: scan[k] < |rows|
    ensures |s.rows| == |rows|
  {
    if n == 0 then State(rows, Counts(0, 0, 0))
    else Step(Run(rows, scan, n - 1, mapping, apply), scan[n - 1], mapping, apply)
  }

  // ----- the loop over row objects

  class UsageEvent {
    const event: string
    var provider: string
    var account: string
    var kind: string
    var stopReason: Option<string>
    var meters: Meters

    ghost function Snapshot(): Row reads this { Row(event, provider, account, kind, stopReason, meters) }

    constructor (r: Row)
      ensures Snapshot() == r
    {
      event, provider, account, kind := r.event, r.provider, r.account, r.kind;
      stopReason, meters := r.stopReason, r.meters;
    }

    method Correct(t: Target)
      modifies this
      ensures Snapshot() == Corrected(old(Snapshot()), t)
    {
      provider := t.provider;
      if t.account.Some? && t.account.value != "" {
        account := t.account.value;
      }
      kind := t.kind;
      if t.kind == "error" {
        stopReason := t.reason;
        meters := ZERO;
      }
    }
  }

  ghost function Snapshots(rows: seq<UsageEvent>): (r: seq<Row>)
    reads rows
    ensures |r| == |rows| && forall i | 0 <= i < |r| :: r[i] == rows[i].Snapshot()
  {
    seq(|rows|, i requires 0 <= i < |rows| reads rows => rows[i].Snapshot())
  }

  ghost predicate Distinct(rows: seq<UsageEvent>) {
    forall i, j | 0 <= i < j < |rows| :: rows[i] != rows[j]
  }

  /** A flush reports an IntegrityError when the changed row repeats a key of the unique index. */
  method Flush(rows: seq<UsageEvent>, i: nat) returns (integrityError: bool)
    requires i < |rows|
    ensures integrityError == Collides(Snapshots(rows), i, rows[i].Snapshot())
  {
    for j := 0 to |rows|
      invariant forall k | 0 <= k < j ::
                k == i || rows[k].provider != rows[i].provider || rows[k].event != rows[i].event
    {
      if j != i && rows[j].provider == rows[i].provider && rows[j].event == rows[i].event {
        assert Snapshots(rows)[j].provider == rows[i].provider;
        return true;
      }
    }
    return false;
  }

  /** Savepoint, change, flush; on a violation every changed field is put back. */
  method CorrectInSavepoint(rows: seq<UsageEvent>, i: nat, t: Target) returns (conflict: bool)
    requires Distinct(rows) && i < |rows|
    modifies rows[i]
    ensures conflict == Collides(old(Snapshots(rows)), i, Corrected(old(rows[i].Snapshot()), t))
    ensures Snapshots(rows) == if conflict then old(Snapshots(rows))
                               else old(Snapshots(rows))[i := Corrected(old(rows[i].Snapshot()), t)]
  {
    ghost var before := Snapshots(rows);
    var row := rows[i];
    var provider, account, kind, stopReason, meters := row.provider, row.account, row.kind, row.stopReason, row.meters;
    row.Correct(t);
    assert Snapshots(rows) == before[i := row.Snapshot()];
    conflict := Flush(rows, i);
    CollidesElsewhere(before, i, row.Snapshot());
    if conflict {
      row.provider, row.account, row.kind := provider, account, kind;
      row.stopReason, row.meters := stopReason, meters;
      assert Snapshots(rows) == before;
    }
  }

  lemma CollidesElsewhere(rows: seq<Row>, i: nat, r: Row)
    requires i < |rows|
    ensures Collides(rows[i := r], i, r) == Collides(rows, i, r)
  {
    if Collides(rows, i, r) {
      var j :| 0 <= j < |rows| && j != i && rows[j].provider == r.provider && rows[j].event == r.event;
      assert rows[i := r][j] == rows[j];
    }
    if Collides(rows[i := r], i, r) {
      var j :| 0 <= j < |rows| && j != i && rows[i := r][j].provider == r.provider && rows[i := r][j].event == r.event;
      assert rows[i := r][j] == rows[j];
    }
  }

  /** The loop body, for one row of the scan. */
  method MigrateRow(rows: seq<UsageEvent>, i: nat, mapping: Mapping, apply: bool, counts: Counts, ghost s: State)
    returns (counts': Counts)
    requires Distinct(rows) && i < |rows| && s == State(Snapshots(rows), counts)
    modifies rows
    ensures State(Snapshots(rows), counts') == Step(s, i, mapping, apply)
  {
    var row := rows[i];
    assert row.Snapshot() == s.rows[i];
    if row.event !in mapping {
      return counts.(missing := counts.missing + 1);
    }
    var t := mapping[row.event];
    var account := if t.account.Some? && t.account.value != "" then t.account.value else row.account;
    if t.provider == row.provider && account == row.account && t.kind == row.kind {
      return counts;
    }
    if apply {
      var conflict := CorrectInSavepoint(rows, i, t);
      if conflict {
        return counts.(conflicts := counts.conflicts + 1);
      }
    } else {
      row.Correct(t);
      assert Snapshots(rows) == s.rows[i := row.Snapshot()];
    }
    return counts.(changed := counts.changed + 1);
  }

  lemma {:induction false} UnchangedWithoutCount(rows: seq<Row>, scan: seq<nat>, n: nat, mapping: Mapping, apply: bool)
    requires n <= |scan| && forall k | 0 <= k < |scan| :: scan[k] < |rows|
    ensures Run(rows, scan, n, mapping, apply).counts.changed == 0 ==> Run(rows, scan, n, mapping, apply).rows == rows
  {
    if n > 0 {
      UnchangedWithoutCount(rows, scan, n - 1, mapping, apply);
    }
  }

  /** The database after the session is closed: only an applied run that changed something commits. */
  method Migrate(rows: seq<UsageEvent>, scan: seq<nat>, mapping: Mapping, apply: bool, database: seq<Row>)
    returns (counts: Counts, database': seq<Row>)
    requires Distinct(rows) && IsScan(scan, |rows|) && database == Snapshots(rows)
    modifies rows
    ensures counts == Run(database, scan, |scan|, mapping, apply).counts
    ensures database' == if apply then Run(database, scan, |scan|, mapping, apply).rows else database
  {
    counts := Counts(0, 0, 0);
    for n := 0 to |scan|
      invariant State(Snapshots(rows), counts) == Run(database, scan, n, mapping, apply)
    {
      counts := MigrateRow(rows, scan[n], mapping, apply, counts, Run(database, scan, n, mapping, apply));
    }
    UnchangedWithoutCount(database, scan, |scan|, mapping, apply);
    database' := database;
    if apply && counts.changed > 0 {
      database' := Commit(rows);
    }
  }

  method Commit(rows: seq<UsageEvent>) returns (database: seq<Row>)
    ensures database == Snapshots(rows)
  {
    database := seq(|rows|, i requires 0 <= i < |rows| reads rows =>
      Row(rows[i].event, rows[i].provider, rows[i].account, rows[i].kind, rows[i].stopReason, rows[i].meters));
  }

  // ----- what every run keeps

  /** Under the unique index, each single step leaves the keys unique. */
  lemma StepKeepsUnique(s: State, i: nat, mapping: Mapping)
    requires i < |s.rows| && Unique(s.rows)
    ensures Unique(Step(s, i, mapping, true).rows)
  {
    var s' := Step(s, i, mapping, true);
    if s'.rows != s.rows {
      var r := Corrected(s.rows[i], mapping[s.rows[i].event]);
      assert !Collides(s.rows, i, r);
      forall j, k | 0 <= j < k < |s.rows|
        ensures s'.rows[j].provider != s'.rows[k].provider || s'.rows[j].event != s'.rows[k].event
      {
        assert j != i && k != i ==> s.rows[j].provider != s.rows[k].provider || s.rows[j].event != s.rows[k].event;
      }
    }
  }

  /** So no prefix of the loop ever breaks the index. */
  lemma {:induction false} UniqueThroughout(rows: seq<Row>, scan: seq<nat>, n: nat, mapping: Mapping)
    requires IsScan(scan, |rows|) && n <= |scan| && Unique(rows)
    ensures Unique(Run(rows, scan, n, mapping, true).rows)
  {
    if n > 0 {
      UniqueThroughout(rows, scan, n - 1, mapping);
      StepKeepsUnique(Run(rows, scan, n - 1, mapping, true), scan[n - 1], mapping);
    }
  }

  /** A row is touched in its own turn only. */
  lemma {:induction false} OnlyOwnTurn(rows: seq<Row>, scan: seq<nat>, first: nat, last: nat, mapping: Mapping,
                                       apply: bool, i: nat)
    requires IsScan(scan, |rows|) && first <= last <= |scan| && i < |rows|
    requires forall k | first <= k < last :: scan[k] != i
    ensures Run(rows, scan, last, mapping, apply).rows[i] == Run(rows, scan, first, mapping, apply).rows[i]
    decreases last
  {
    if first != last {
      OnlyOwnTurn(rows, scan, first, last - 1, mapping, apply, i);
    }
  }

  /** What became of the row at place `k` of the scan: decided by its own data and, at its turn, the index. */
  lemma FateOfScanned(rows: seq<Row>, scan: seq<nat>, k: nat, mapping: Mapping, apply: bool)
    requires IsScan(scan, |rows|) && k < |scan|
    ensures var i := scan[k];
            var (before, end) := (Run(rows, scan, k, mapping, apply), Run(rows, scan, |scan|, mapping, apply));
            && before.rows[i] == rows[i]
            && end.rows[i] == Step(before, i, mapping, apply).rows[i]
  {
    OnlyOwnTurn(rows, scan, 0, k, mapping, apply, scan[k]);
    OnlyOwnTurn(rows, scan, k + 1, |scan|, mapping, apply, scan[k]);
  }

  /** No row is lost or renamed; a row ends as it began or corrected, and kept tokens unless it failed. */
  lemma NoRowLost(rows: seq<Row>, scan: seq<nat>, mapping: Mapping, apply: bool, i: nat)
    requires IsScan(scan, |rows|) && i < |rows|
    ensures var end := Run(rows, scan, |scan|, mapping, apply).rows;
            && |end| == |rows| && end[i].event == rows[i].event
            && (end[i] == rows[i] ||
                (i in scan && rows[i].event in mapping && end[i] == Corrected(rows[i], mapping[rows[i].event])))
            && (end[i].meters == rows[i].meters || (end[i].kind == "error" && end[i].meters == ZERO))
  {
    if k :| 0 <= k < |scan| && scan[k] == i {
      FateOfScanned(rows, scan, k, mapping, apply);
    } else {
      OnlyOwnTurn(rows, scan, 0, |scan|, mapping, apply, i);
    }
  }

  /** A row that collides at its turn ends exactly as it began, and the count says so. */
  lemma ConflictsRestored(rows: seq<Row>, scan: seq<nat>, k: nat, mapping: Mapping)
    requires IsScan(scan, |rows|) && k < |scan|
    requires Run(rows, scan, k + 1, mapping, true).counts.conflicts > Run(rows, scan, k, mapping, true).counts.conflicts
    ensures Run(rows, scan, |scan|, mapping, true).rows[scan[k]] == rows[scan[k]]
  {
    FateOfScanned(rows, scan, k, mapping, true);
  }

  /** The row at `j` sits in the slot its own event is sent to. */
  ghost predicate AtTarget(r: Row, mapping: Mapping) {
    r.event in mapping && r.provider == mapping[r.event].provider
  }

  /** A slot once taken is never vacated: the target of a row depends on its event alone. */
  lemma {:induction false} SlotNeverVacated(rows: seq<Row>, scan: seq<nat>, first: nat, last: nat, mapping: Mapping,
                                            apply: bool, j: nat)
    requires IsScan(scan, |rows|) && first <= last <= |scan| && j < |rows|
    requires AtTarget(Run(rows, scan, first, mapping, apply).rows[j], mapping)
    ensures var r := Run(rows, scan, first, mapping, apply).rows[j];
            var r' := Run(rows, scan, last, mapping, apply).rows[j];
            r'.provider == r.provider && r'.event == r.event
    decreases last
  {
    if first != last {
      SlotNeverVacated(rows, scan, first, last - 1, mapping, apply, j);
    }
  }

  // ----- a second run

  /** Run again, the row at `i` would be left alone: missing, correct, or in conflict. */
  ghost predicate Settled(rows: seq<Row>, i: nat, mapping: Mapping)
    requires i < |rows|
  {
    rows[i].event in mapping ==>
      var t := mapping[rows[i].event];
      AlreadyCorrect(rows[i], t) || Collides(rows, i, Corrected(rows[i], t))
  }

  /** A conflict met in the first run is met again: the row in the way has not moved. */
  lemma ConflictPersists(rows: seq<Row>, scan: seq<nat>, k: nat, mapping: Mapping)
    requires IsScan(scan, |rows|) && k < |scan| && rows[scan[k]].event in mapping
    requires var i := scan[k];
             Collides(Run(rows, scan, k, mapping, true).rows, i, Corrected(rows[i], mapping[rows[i].event]))
    ensures var i := scan[k];
            Collides(Run(rows, scan, |scan|, mapping, true).rows, i, Corrected(rows[i], mapping[rows[i].event]))
  {
    var i := scan[k];
    var r := Corrected(rows[i], mapping[rows[i].event]);
    var before := Run(rows, scan, k, mapping, true).rows;
    var j :| 0 <= j < |before| && j != i && before[j].provider == r.provider && before[j].event == r.event;
    SlotNeverVacated(rows, scan, k, |scan|, mapping, true, j);
    var end := Run(rows, scan, |scan|, mapping, true).rows;
    assert end[j].provider == r.provider && end[j].event == r.event;
  }

  lemma ScannedIsSettled(rows: seq<Row>, scan: seq<nat>, k: nat, mapping: Mapping)
    requires IsScan(scan, |rows|) && k < |scan|
    ensures Settled(Run(rows, scan, |scan|, mapping, true).rows, scan[k], mapping)
  {
    var i := scan[k];
    FateOfScanned(rows, scan, k, mapping, true);
    var before := Run(rows, scan, k, mapping, true);
    if rows[i].event in mapping {
      var t := mapping[rows[i].event];
      if !AlreadyCorrect(rows[i], t) && Collides(before.rows, i, Corrected(rows[i], t)) {
        ConflictPersists(rows, scan, k, mapping);
      }
    }
  }

  lemma {:induction false} SettledRowsStay(rows: seq<Row>, scan: seq<nat>, n: nat, mapping: Mapping)
    requires n <= |scan| && forall k | 0 <= k < |scan| :: scan[k] < |rows| && Settled(rows, scan[k], mapping)
    ensures Run(rows, scan, n, mapping, true).rows == rows && Run(rows, scan, n, mapping, true).counts.changed == 0
  {
    if n > 0 {
      SettledRowsStay(rows, scan, n - 1, mapping);
      assert Settled(rows, scan[n - 1], mapping);
    }
  }

  /** The scan covers exactly the rows tagged with one of the given providers. */
  ghost predicate Covers(scan: seq<nat>, rows: seq<Row>, providers: set<string>) {
    IsScan(scan, |rows|) && forall i | 0 <= i < |rows| :: i in scan <==> rows[i].provider in providers
  }

  /** A second run, in whatever order its query returns the rows, changes nothing. */
  lemma SecondRunChangesNothing(rows: seq<Row>, scan: seq<nat>, again: seq<nat>, providers: set<string>,
                                mapping: Mapping)
    requires Covers(scan, rows, providers)
    requires Covers(again, Run(rows, scan, |scan|, mapping, true).rows, providers)
    ensures var end := Run(rows, scan, |scan|, mapping, true).rows;
            && Run(end, again, |again|, mapping, true).rows == end
            && Run(end, again, |again|, mapping, true).counts.changed == 0
  {
    var end := Run(rows, scan, |scan|, mapping, true).rows;
    forall k | 0 <= k < |again| ensures Settled(end, again[k], mapping) {
      var i := again[k];
      assert i in again;
      if i !in scan {
        OnlyOwnTurn(rows, scan, 0, |scan|, mapping, true, i);
        assert false;
      }
      var l :| 0 <= l < |scan| && scan[l] == i;
      ScannedIsSettled(rows, scan, l, mapping);
    }
    SettledRowsStay(end, again, |again|, mapping);
  }

  /** Provider and kind are those of the local database, and so is the account if it names one. */
  ghost predicate AsMapped(r: Row, start: Row, t: Target) {
    && r.provider == t.provider && r.kind == t.kind
    && r.account == if t.account == None || t.account == Some("") then start.account else t.account.value
  }

  /** Another row is in the place where this one belongs. */
  ghost predicate InTheWay(rows: seq<Row>, i: nat, provider: string) {
    exists j | 0 <= j < |rows| :: j != i < |rows| && rows[j].provider == provider && rows[j].event == rows[i].event
  }

  /**
   * After an applied run, every row of the scan that the local database knows is as the database has
   * it, unless another row ends in its place and it is as it began. A row that was changed to a
   * failure has no tokens and no cost left and the reason of the database; otherwise those stay.
   */
  lemma EndsAsMapped(rows: seq<Row>, scan: seq<nat>, k: nat, mapping: Mapping, end: seq<Row>, t: Target)
    requires IsScan(scan, |rows|) && k < |scan| && end == Run(rows, scan, |scan|, mapping, true).rows
    requires rows[scan[k]].event in mapping && t == mapping[rows[scan[k]].event]
    ensures var (r, r') := (rows[scan[k]], end[scan[k]]);
            && (AsMapped(r', r, t) || (r' == r && InTheWay(end, scan[k], t.provider)))
            && (r' != r && t.kind == "error" ==>
                  r'.stopReason == t.reason && r'.meters == Meters(0, 0, 0, 0, 0, 0.0, 0.0, 0.0, 0.0, 0.0))
            && (t.kind != "error" ==> r'.stopReason == r.stopReason && r'.meters == r.meters)
  {
    FateOfScanned(rows, scan, k, mapping, true);
    var i := scan[k];
    var before := Run(rows, scan, k, mapping, true).rows;
    if !AlreadyCorrect(rows[i], t) && Collides(before, i, Corrected(rows[i], t)) {
      ConflictPersists(rows, scan, k, mapping);
      assert InTheWay(end, i, t.provider);
    }
  }

  // ----- the counts

  ghost predicate InRange(scan: seq<nat>, count: nat) {
    forall k | 0 <= k < |scan| :: scan[k] < count
  }

  ghost function Unknown(rows: seq<Row>, scan: seq<nat>, n: nat, mapping: Mapping): set<nat>
    requires InRange(scan, |rows|) && n <= |scan|
  {
    set k: nat | k < n && rows[scan[k]].event !in mapping
  }

  ghost function Differing(rows: seq<Row>, scan: seq<nat>, n: nat, end: seq<Row>): set<nat>
    requires InRange(scan, |rows|) && n <= |scan| && |end| == |rows|
  {
    set k: nat | k < n && end[scan[k]] != rows[scan[k]]
  }

  /** The local database knows the row, but it is not as the database has it. */
  ghost predicate IsUnmoved(r: Row, start: Row, mapping: Mapping) {
    start.event in mapping && !AsMapped(r, start, mapping[start.event])
  }

  ghost function Unmoved(rows: seq<Row>, scan: seq<nat>, n: nat, mapping: Mapping, end: seq<Row>): set<nat>
    requires InRange(scan, |rows|) && n <= |scan| && |end| == |rows|
  {
    set k: nat | k < n && IsUnmoved(end[scan[k]], rows[scan[k]], mapping)
  }

  ghost predicate Counted(rows: seq<Row>, scan: seq<nat>, n: nat, mapping: Mapping, s: State)
    requires InRange(scan, |rows|) && n <= |scan| && |s.rows| == |rows|
  {
    && s.counts.changed == |Differing(rows, scan, n, s.rows)|
    && s.counts.missing == |Unknown(rows, scan, n, mapping)|
    && s.counts.conflicts == |Unmoved(rows, scan, n, mapping, s.rows)|
  }

  lemma AddPlace(before: set<nat>, after: set<nat>, n: nat, added: bool)
    requires after == before + (if added then {n} else {}) && n !in before
    ensures |after| == |before| + if added then 1 else 0
  {
  }

  /** What a step does to the number of rows that differ; the places before it are as they were. */
  lemma CountDiffering(rows: seq<Row>, scan: seq<nat>, n: nat, s: seq<Row>, s': seq<Row>, n': nat)
    requires InRange(scan, |rows|) && n < |scan| && |s| == |s'| == |rows| && n' == n + 1
    requires forall k | 0 <= k < n :: s'[scan[k]] == s[scan[k]]
    ensures |Differing(rows, scan, n', s')|
         == |Differing(rows, scan, n, s)| + if s'[scan[n]] != rows[scan[n]] then 1 else 0
  {
    var before, after := Differing(rows, scan, n, s), Differing(rows, scan, n', s');
    assert after == before + if s'[scan[n]] != rows[scan[n]] then {n} else {};
    AddPlace(before, after, n, s'[scan[n]] != rows[scan[n]]);
  }

  lemma CountUnknown(rows: seq<Row>, scan: seq<nat>, n: nat, mapping: Mapping, n': nat)
    requires InRange(scan, |rows|) && n < |scan| && n' == n + 1
    ensures |Unknown(rows, scan, n', mapping)|
         == |Unknown(rows, scan, n, mapping)| + if rows[scan[n]].event !in mapping then 1 else 0
  {
    AddPlace(Unknown(rows, scan, n, mapping), Unknown(rows, scan, n', mapping), n, rows[scan[n]].event !in mapping);
  }

  lemma CountUnmoved(rows: seq<Row>, scan: seq<nat>, n: nat, mapping: Mapping, s: seq<Row>, s': seq<Row>, n': nat)
    requires InRange(scan, |rows|) && n < |scan| && |s| == |s'| == |rows| && n' == n + 1
    requires forall k | 0 <= k < n :: s'[scan[k]] == s[scan[k]]
    ensures |Unmoved(rows, scan, n', mapping, s')|
         == |Unmoved(rows, scan, n, mapping, s)| + if IsUnmoved(s'[scan[n]], rows[scan[n]], mapping) then 1 else 0
  {
    var before, after := Unmoved(rows, scan, n, mapping, s), Unmoved(rows, scan, n', mapping, s');
    assert after == before + if IsUnmoved(s'[scan[n]], rows[scan[n]], mapping) then {n} else {};
    AddPlace(before, after, n, IsUnmoved(s'[scan[n]], rows[scan[n]], mapping));
  }

  lemma CountRow(rows: seq<Row>, scan: seq<nat>, n: nat, mapping: Mapping, apply: bool, s: State, s': State, n': nat)
    requires IsScan(scan, |rows|) && n < |scan| && n' == n + 1 && |s.rows| == |rows|
    requires Counted(rows, scan, n, mapping, s) && s.rows[scan[n]] == rows[scan[n]]
    requires s' == Step(s, scan[n], mapping, apply)
    ensures Counted(rows, scan, n', mapping, s')
  {
    CountDiffering(rows, scan, n, s.rows, s'.rows, n');
    CountUnknown(rows, scan, n, mapping, n');
    CountUnmoved(rows, scan, n, mapping, s.rows, s'.rows, n');
  }

  /**
   * The three numbers: rows that end other than they began, rows that the local database does not
   * know, and rows that it knows and that do not end as it has them.
   */
  lemma {:induction false} CountsMean(rows: seq<Row>, scan: seq<nat>, n: nat, mapping: Mapping, apply: bool, s: State)
    requires IsScan(scan, |rows|) && n <= |scan| && s == Run(rows, scan, n, mapping, apply)
    ensures Counted(rows, scan, n, mapping, s)
  {
    if n > 0 {
      var before := Run(rows, scan, n - 1, mapping, apply);
      CountsMean(rows, scan, n - 1, mapping, apply, before);
      OnlyOwnTurn(rows, scan, 0, n - 1, mapping, apply, scan[n - 1]);
      CountRow(rows, scan, n - 1, mapping, apply, before, s, n);
    } else {
      assert Differing(rows, scan, 0, s.rows) == {} && Unknown(rows, scan, 0, mapping) == {};
      assert Unmoved(rows, scan, 0, mapping, s.rows) == {};
    }
  }

  // ----- dry run

  lemma StepPredicts(s: State, d: State, i: nat, mapping: Mapping)
    requires i < |s.rows| == |d.rows| && s.rows[i] == d.rows[i]
    requires d.counts.changed == s.counts.changed + s.counts.conflicts && d.counts.missing == s.counts.missing
    ensures var (s', d') := (Step(s, i, mapping, true), Step(d, i, mapping, false));
            d'.counts.changed == s'.counts.changed + s'.counts.conflicts && d'.counts.missing == s'.counts.missing
  {
  }

  /** The dry run announces as many changes as the applied run makes and skips for conflicts together. */
  lemma {:induction false} DryRunPredicts(rows: seq<Row>, scan: seq<nat>, n: nat, mapping: Mapping)
    requires IsScan(scan, |rows|) && n <= |scan|
    ensures var (applied, dry) := (Run(rows, scan, n, mapping, true).counts, Run(rows, scan, n, mapping, false).counts);
            dry.changed == applied.changed + applied.conflicts && dry.missing == applied.missing && dry.conflicts == 0
  {
    if n > 0 {
      DryRunPredicts(rows, scan, n - 1, mapping);
      OnlyOwnTurn(rows, scan, 0, n - 1, mapping, true, scan[n - 1]);
      OnlyOwnTurn(rows, scan, 0, n - 1, mapping, false, scan[n - 1]);
      StepPredicts(Run(rows, scan, n - 1, mapping, true), Run(rows, scan, n - 1, mapping, false), scan[n - 1], mapping);
    }
  }
}
