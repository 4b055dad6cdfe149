/** `scripts/merge_antigravity_accounts.py`: deleting legacy twins, behind a divergence gate. */
module AntigravityMerge {
  import opened Sorting

  // Message events of the legacy account that have a twin under the real account are deleted in
  // batches, unless a scan finds twins that disagree on tokens or cost.

  /** The fields whose divergence blocks the merge. */
  datatype Charge = Charge(input: int, output: int, cacheRead: int, cacheCreate: int, cacheCreate1h: int,
                           cacheCreate5m: int, reasoning: int, cost: real)

  datatype Row = Row(provider: string, account: string, event: string, kind: string, model: string, ts: real,
                     charge: Charge)

  const PROVIDER := "antigravity"
  const LEGACY := "default"

  /** The events table by row id. */
  type Table = map<nat, Row>

  predicate IsMessage(r: Row) { r.provider == PROVIDER && r.kind == "message" }

  predicate IsMessageOf(r: Row, account: string) { IsMessage(r) && r.account == account }

  ghost predicate Unique(t: Table) {
    forall i, j | i in t && j in t && i != j ::
      t[i].provider != t[j].provider || t[i].account != t[j].account || t[i].event != t[j].event
  }

  ghost function MessageIds(t: Table): set<nat> { set id | id in t && IsMessage(t[id]) }

  ghost function IdsOf(t: Table, account: string): set<nat> { set id | id in t && IsMessageOf(t[id], account) }

  /** `d` is a legacy row and `e` the row of the real account for the same event. */
  ghost predicate Twins(t: Table, email: string, d: nat, e: nat) {
    d in IdsOf(t, LEGACY) && e in IdsOf(t, email) && t[d].event == t[e].event
  }

  ghost predicate HasTwin(t: Table, email: string, d: nat) { exists e :: Twins(t, email, d, e) }

  ghost function DeleteIds(t: Table, email: string): set<nat> {
    set d | d in IdsOf(t, LEGACY) && HasTwin(t, email, d)
  }

  ghost function Events(t: Table): set<string> { set id | id in MessageIds(t) :: t[id].event }

  /** Which charges are on record for which event. */
  ghost function Charges(t: Table): set<(string, Charge)> {
    set id | id in MessageIds(t) :: (t[id].event, t[id].charge)
  }

  ghost predicate Diverges(t: Table, email: string, event: string) {
    exists d, e :: Twins(t, email, d, e) && t[d].event == event && t[d].charge != t[e].charge
  }

  /** Every row of the provider belongs to the legacy or to the real account. */
  ghost predicate OnlyTwo(t: Table, email: string) {
    forall id | id in t && t[id].provider == PROVIDER :: t[id].account == LEGACY || t[id].account == email
  }

  // ----- what deleting does

  lemma SurvivorStays(t: Table, email: string, gone: set<nat>, d: nat) returns (e: nat)
    requires gone <= DeleteIds(t, email) && email != LEGACY && d in gone
    ensures Twins(t, email, d, e) && e in t - gone
  {
    e :| Twins(t, email, d, e);
  }

  /** No event disappears, even when the run stops between two batches. */
  lemma NoEventLost(t: Table, email: string, gone: set<nat>, s: Table)
    requires gone <= DeleteIds(t, email) && email != LEGACY && s == t - gone
    ensures Events(s) == Events(t)
  {
    forall event | event in Events(t) ensures event in Events(s) {
      var id :| id in MessageIds(t) && t[id].event == event;
      if id in gone {
        var e := SurvivorStays(t, email, gone, id);
        assert e in MessageIds(s);
      } else {
        assert id in MessageIds(s);
      }
    }
  }

  lemma ChargeStays(t: Table, email: string, gone: set<nat>, s: Table, id: nat)
    requires gone <= DeleteIds(t, email) && email != LEGACY && s == t - gone && id in MessageIds(t)
    requires !Diverges(t, email, t[id].event)
    ensures (t[id].event, t[id].charge) in Charges(s)
  {
    if id in gone {
      var e := SurvivorStays(t, email, gone, id);
      assert t[e].charge == t[id].charge && e in MessageIds(s);
    } else {
      assert id in MessageIds(s);
    }
  }

  /** Without divergence, every charge on record stays on record after every batch. */
  lemma ChargesKept(t: Table, email: string, gone: set<nat>, s: Table)
    requires gone <= DeleteIds(t, email) && email != LEGACY && s == t - gone
    requires forall event :: !Diverges(t, email, event)
    ensures Charges(s) == Charges(t)
  {
    forall c | c in Charges(t) ensures c in Charges(s) {
      var id :| id in MessageIds(t) && c == (t[id].event, t[id].charge);
      ChargeStays(t, email, gone, s, id);
    }
    forall c | c in Charges(s) ensures c in Charges(t) {
      var id :| id in MessageIds(s) && c == (s[id].event, s[id].charge);
      assert id in MessageIds(t);
    }
  }

  lemma SurvivorHasNoTwin(t: Table, email: string, s: Table, d: nat, e: nat)
    requires s == t - DeleteIds(t, email) && d in s
    ensures !Twins(t, email, d, e)
  {
    assert d in IdsOf(t, LEGACY) && HasTwin(t, email, d) ==> d in DeleteIds(t, email);
  }

  /** After the run, an event has one row: nothing is counted twice. */
  lemma OneRowPerEvent(t: Table, email: string, s: Table, i: nat, j: nat)
    requires Unique(t) && OnlyTwo(t, email) && email != LEGACY && s == t - DeleteIds(t, email)
    requires i in MessageIds(s) && j in MessageIds(s) && s[i].event == s[j].event
    ensures i == j
  {
    SurvivorHasNoTwin(t, email, s, i, j);
    SurvivorHasNoTwin(t, email, s, j, i);
    assert t[i].account == t[j].account;
  }

  lemma DivergentChargeIsLost(t: Table, email: string, s: Table, event: string)
    requires Unique(t) && OnlyTwo(t, email) && email != LEGACY && s == t - DeleteIds(t, email)
    requires Diverges(t, email, event)
    ensures Charges(s) != Charges(t)
  {
    var d, e :| Twins(t, email, d, e) && t[d].event == event && t[d].charge != t[e].charge;
    assert (t[d].event, t[d].charge) in Charges(t) by {
      assert d in MessageIds(t);
    }
    assert e in MessageIds(s);
    if (t[d].event, t[d].charge) in Charges(s) {
      var id :| id in MessageIds(s) && s[id].event == event && s[id].charge == t[d].charge;
      OneRowPerEvent(t, email, s, id, e);
    }
  }

  /** The run keeps the record of charges exactly when no twins diverge. */
  lemma ChargesKeptExactlyWhen(t: Table, email: string, s: Table)
    requires Unique(t) && OnlyTwo(t, email) && email != LEGACY && s == t - DeleteIds(t, email)
    ensures Charges(s) == Charges(t) <==> forall event :: !Diverges(t, email, event)
  {
    if event :| Diverges(t, email, event) {
      DivergentChargeIsLost(t, email, s, event);
    } else {
      ChargesKept(t, email, DeleteIds(t, email), s);
    }
  }

  /** A second run finds no twins. */
  lemma SecondRunDeletesNothing(t: Table, email: string, s: Table)
    requires email != LEGACY && s == t - DeleteIds(t, email)
    ensures DeleteIds(s, email) == {}
  {
    forall d, e | d in s ensures !Twins(s, email, d, e) {
      SurvivorHasNoTwin(t, email, s, d, e);
      assert Twins(s, email, d, e) ==> Twins(t, email, d, e);
    }
  }

  /** Read off the rows: what goes are messages of the legacy account whose event the real account has a message of. */
  lemma GoneExactlyWhen(t: Table, email: string, d: nat)
    ensures d in DeleteIds(t, email) <==>
            && d in t && t[d].provider == "antigravity" && t[d].kind == "message" && t[d].account == "default"
            && exists e :: && e in t && t[e].provider == "antigravity" && t[e].kind == "message"
                           && t[e].account == email && t[e].event == t[d].event
  {
    if e :| && e in t && d in t && t[e].provider == "antigravity" && t[e].kind == "message"
            && t[e].account == email && t[e].event == t[d].event
    {
      assert d in IdsOf(t, LEGACY) ==> Twins(t, email, d, e);
    }
  }

  /** What the dry run counts is what the run leaves. */
  lemma PreviewIsExact(t: Table, email: string)
    ensures MessageIds(t) - DeleteIds(t, email) == MessageIds(t - DeleteIds(t, email))
  {
  }

  // ----- the database

  /** The rows of a query, each once, in the order the database chose. */
  ghost predicate Lists(rows: seq<(nat, Row)>, t: Table, ids: set<nat>) {
    && (forall i | 0 <= i < |rows| :: rows[i].0 in t && t[rows[i].0] == rows[i].1)
    && (forall i, j | 0 <= i < j < |rows| :: rows[i].0 != rows[j].0)
    && (forall id :: id in ids <==> exists i :: 0 <= i < |rows| && rows[i].0 == id)
  }

  class Database {
    var table: Table

    constructor (t: Table)
      ensures table == t
    {
      table := t;
    }

    method MessagesOf(account: string) returns (rows: seq<(nat, Row)>)
      ensures Lists(rows, table, IdsOf(table, account))
    {
      rows := [];
      var todo := set id | id in table && IsMessageOf(table[id], account);
      while todo != {}
        invariant todo <= IdsOf(table, account)
        invariant Lists(rows, table, IdsOf(table, account) - todo)
        decreases |todo|
      {
        var id :| id in todo;
        var longer := rows + [(id, table[id])];
        ListsMore(rows, table, IdsOf(table, account) - todo, id, longer);
        OneLess(IdsOf(table, account), todo, id);
        rows, todo := longer, todo - {id};
      }
      assert IdsOf(table, account) - todo == IdsOf(table, account);
    }

    /** One batch: deletes the rows whose id is listed, as long as they are legacy messages. */
    method DeleteBatch(chunk: seq<nat>)
      modifies this
      ensures table == old(table) - set id | id in chunk && id in old(table) && IsMessageOf(old(table)[id], LEGACY)
    {
      table := table - set id | id in chunk && id in table && IsMessageOf(table[id], LEGACY);
    }
  }

  lemma OneLess(all: set<nat>, todo: set<nat>, id: nat)
    requires id in todo && todo <= all
    ensures all - (todo - {id}) == all - todo + {id}
  {
  }

  lemma ListsMore(rows: seq<(nat, Row)>, t: Table, ids: set<nat>, id: nat, longer: seq<(nat, Row)>)
    requires Lists(rows, t, ids) && id in t && id !in ids && longer == rows + [(id, t[id])]
    ensures Lists(longer, t, ids + {id})
  {
    forall x | x in ids + {id} ensures exists i :: 0 <= i < |longer| && longer[i].0 == x {
      if x in ids {
        var i :| 0 <= i < |rows| && rows[i].0 == x;
        assert longer[i].0 == x;
      } else {
        assert longer[|rows|].0 == x;
      }
    }
    forall i, j | 0 <= i < j < |longer| ensures longer[i].0 != longer[j].0 {
      if j == |rows| {
        assert rows[i].0 in ids;
      }
    }
    forall i | 0 <= i < |longer| ensures longer[i].0 in ids + {id} {
      if i < |rows| {
        assert rows[i].0 in ids;
      }
    }
  }

  // ----- the scan

  datatype Field =
    | Model | Ts | Input | Output | CacheRead | CacheCreate | CacheCreate1h | CacheCreate5m | Reasoning | Cost

  const FIELDS: seq<Field> :=
    [Model, Ts, Input, Output, CacheRead, CacheCreate, CacheCreate1h, CacheCreate5m, Reasoning, Cost]

  predicate Differs(f: Field, a: Row, b: Row) {
    match f
    case Model => a.model != b.model
    case Ts => a.ts != b.ts
    case Input => a.charge.input != b.charge.input
    case Output => a.charge.output != b.charge.output
    case CacheRead => a.charge.cacheRead != b.charge.cacheRead
    case CacheCreate => a.charge.cacheCreate != b.charge.cacheCreate
    case CacheCreate1h => a.charge.cacheCreate1h != b.charge.cacheCreate1h
    case CacheCreate5m => a.charge.cacheCreate5m != b.charge.cacheCreate5m
    case Reasoning => a.charge.reasoning != b.charge.reasoning
    case Cost => a.charge.cost != b.charge.cost
  }

  predicate Blocking(f: Field) { f != Model && f != Ts }

  /** The blocking fields are the whole charge. */
  lemma BlockingMeansCharge(a: Row, b: Row)
    ensures (exists f :: Blocking(f) && Differs(f, a, b)) <==> a.charge != b.charge
  {
    if a.charge != b.charge {
      assert Differs(Input, a, b) || Differs(Output, a, b) || Differs(CacheRead, a, b) || Differs(CacheCreate, a, b)
          || Differs(CacheCreate1h, a, b) || Differs(CacheCreate5m, a, b) || Differs(Reasoning, a, b)
          || Differs(Cost, a, b);
    }
  }

  /** A change of one column is counted under that column and under no other. */
  lemma ColumnsAreApart(f: Field, a: Row, model: string, ts: real, c: Charge)
    ensures Differs(f, a, a.(model := model)) <==> f == Model && model != a.model
    ensures Differs(f, a, a.(ts := ts)) <==> f == Ts && ts != a.ts
    ensures var b := a.(charge := a.charge.(input := c.input));
            Differs(f, a, b) <==> f == Input && c.input != a.charge.input
    ensures var b := a.(charge := a.charge.(output := c.output));
            Differs(f, a, b) <==> f == Output && c.output != a.charge.output
    ensures var b := a.(charge := a.charge.(cacheRead := c.cacheRead));
            Differs(f, a, b) <==> f == CacheRead && c.cacheRead != a.charge.cacheRead
    ensures var b := a.(charge := a.charge.(cacheCreate := c.cacheCreate));
            Differs(f, a, b) <==> f == CacheCreate && c.cacheCreate != a.charge.cacheCreate
    ensures var b := a.(charge := a.charge.(cacheCreate1h := c.cacheCreate1h));
            Differs(f, a, b) <==> f == CacheCreate1h && c.cacheCreate1h != a.charge.cacheCreate1h
    ensures var b := a.(charge := a.charge.(cacheCreate5m := c.cacheCreate5m));
            Differs(f, a, b) <==> f == CacheCreate5m && c.cacheCreate5m != a.charge.cacheCreate5m
    ensures var b := a.(charge := a.charge.(reasoning := c.reasoning));
            Differs(f, a, b) <==> f == Reasoning && c.reasoning != a.charge.reasoning
    ensures var b := a.(charge := a.charge.(cost := c.cost));
            Differs(f, a, b) <==> f == Cost && c.cost != a.charge.cost
  {
  }

  function Rank(f: Field): nat {
    match f
    case Model => 0
    case Ts => 1
    case Input => 2
    case Output => 3
    case CacheRead => 4
    case CacheCreate => 5
    case CacheCreate1h => 6
    case CacheCreate5m => 7
    case Reasoning => 8
    case Cost => 9
  }

  lemma FieldsAreRanked()
    ensures |FIELDS| == 10
    ensures forall f: Field :: Rank(f) < 10 && FIELDS[Rank(f)] == f
    ensures forall i | 0 <= i < 10 :: Rank(FIELDS[i]) == i
  {
  }

  function One(b: bool): nat { if b then 1 else 0 }

  ghost predicate CountedUpTo(perField: map<Field, nat>, before: map<Field, nat>, i: nat, a: Row, b: Row)
    requires forall f: Field :: f in before
  {
    forall f: Field :: f in perField && perField[f] == before[f] + One(Rank(f) < i && Differs(f, a, b))
  }

  lemma CountNext(perField: map<Field, nat>, before: map<Field, nat>, i: nat, a: Row, b: Row, field: Field,
                  next: map<Field, nat>)
    requires forall f: Field :: f in before
    requires CountedUpTo(perField, before, i, a, b) && Rank(field) == i
    requires next == if Differs(field, a, b) then perField[field := perField[field] + 1] else perField
    ensures CountedUpTo(next, before, i + 1, a, b)
  {
    var i' := i + 1;
    forall f: Field ensures f in next && next[f] == before[f] + One(Rank(f) < i' && Differs(f, a, b)) {
      assert f in perField && perField[f] == before[f] + One(Rank(f) < i && Differs(f, a, b));
      if f != field {
        RanksDiffer(f, field);
      }
    }
  }

  lemma RanksDiffer(f: Field, g: Field)
    requires f != g
    ensures Rank(f) != Rank(g)
  {
  }

  ghost predicate AnyUpTo(i: nat, a: Row, b: Row)
    requires i <= |FIELDS|
  {
    i > 0 && (Differs(FIELDS[i - 1], a, b) || AnyUpTo(i - 1, a, b))
  }

  ghost predicate BlockingUpTo(i: nat, a: Row, b: Row)
    requires i <= |FIELDS|
  {
    i > 0 && ((Blocking(FIELDS[i - 1]) && Differs(FIELDS[i - 1], a, b)) || BlockingUpTo(i - 1, a, b))
  }

  lemma {:induction false} UpToReaches(i: nat, a: Row, b: Row, f: Field)
    requires i <= |FIELDS| && Rank(f) < i && Differs(f, a, b)
    ensures AnyUpTo(i, a, b) && (Blocking(f) ==> BlockingUpTo(i, a, b))
  {
    FieldsAreRanked();
    if Rank(f) < i - 1 {
      UpToReaches(i - 1, a, b, f);
    }
  }

  lemma {:induction false} UpToFinds(i: nat, a: Row, b: Row)
    requires i <= |FIELDS|
    ensures AnyUpTo(i, a, b) ==> exists f :: Differs(f, a, b)
    ensures BlockingUpTo(i, a, b) ==> exists f :: Blocking(f) && Differs(f, a, b)
  {
    if i > 0 {
      UpToFinds(i - 1, a, b);
    }
  }

  lemma AllRanked(a: Row, b: Row)
    ensures AnyUpTo(|FIELDS|, a, b) <==> exists f :: Differs(f, a, b)
    ensures BlockingUpTo(|FIELDS|, a, b) <==> a.charge != b.charge
  {
    FieldsAreRanked();
    BlockingMeansCharge(a, b);
    UpToFinds(|FIELDS|, a, b);
    forall f | Differs(f, a, b)
      ensures AnyUpTo(|FIELDS|, a, b) && (Blocking(f) ==> BlockingUpTo(|FIELDS|, a, b))
    {
      UpToReaches(|FIELDS|, a, b, f);
    }
  }

  /** The loop over the fields of one pair. */
  method CompareTwins(before: map<Field, nat>, a: Row, b: Row)
    returns (perField: map<Field, nat>, anyDiff: bool, blockingDiff: bool)
    requires forall f: Field :: f in before
    ensures CountedUpTo(perField, before, |FIELDS|, a, b)
    ensures anyDiff <==> exists f :: Differs(f, a, b)
    ensures blockingDiff <==> a.charge != b.charge
  {
    perField, anyDiff, blockingDiff := before, false, false;
    FieldsAreRanked();
    for i := 0 to |FIELDS|
      invariant CountedUpTo(perField, before, i, a, b)
      invariant anyDiff <==> AnyUpTo(i, a, b)
      invariant blockingDiff <==> BlockingUpTo(i, a, b)
    {
      var field := FIELDS[i];
      assert field in perField;
      CountNext(perField, before, i, a, b, field,
                if Differs(field, a, b) then perField[field := perField[field] + 1] else perField);
      if Differs(field, a, b) {
        perField := perField[field := perField[field] + 1];
        anyDiff := true;
        if Blocking(field) {
          blockingDiff := true;
        }
      }
    }
    AllRanked(a, b);
  }

  /** The rows of the real account by event. */
  method TwinRows(rows: seq<(nat, Row)>) returns (twins: map<string, Row>)
    ensures forall event :: event in twins <==> exists i :: 0 <= i < |rows| && rows[i].1.event == event
    ensures forall event | event in twins :: exists i ::
            0 <= i < |rows| && rows[i].1 == twins[event] && rows[i].1.event == event
  {
    twins := map[];
    for i := 0 to |rows|
      invariant forall event :: event in twins <==> exists k :: 0 <= k < i && rows[k].1.event == event
      invariant forall event | event in twins :: exists k ::
                0 <= k < i && rows[k].1 == twins[event] && rows[k].1.event == event
    {
      twins := twins[rows[i].1.event := rows[i].1];
    }
  }

  ghost predicate TwinsDiffer(t: Table, email: string, d: nat, f: Field) {
    exists e :: Twins(t, email, d, e) && Differs(f, t[d], t[e])
  }

  ghost function Where(among: set<nat>, p: nat -> bool): set<nat> {
    set d | d in among && p(d)
  }

  lemma WhereGrows(among: set<nat>, d: nat, p: nat -> bool)
    requires d !in among
    ensures |Where(among + {d}, p)| == |Where(among, p)| + One(p(d))
  {
    if p(d) {
      assert Where(among + {d}, p) == Where(among, p) + {d};
    } else {
      assert Where(among + {d}, p) == Where(among, p);
    }
  }

  ghost function DiffersIn(t: Table, email: string, f: Field): nat -> bool {
    (d: nat) => TwinsDiffer(t, email, d, f)
  }

  ghost function DiffersSomewhere(t: Table, email: string): nat -> bool {
    (d: nat) => exists f :: TwinsDiffer(t, email, d, f)
  }

  /** The pairs, by their legacy row, that differ in a field. */
  ghost function Differing(t: Table, email: string, among: set<nat>, f: Field): set<nat> {
    Where(among, DiffersIn(t, email, f))
  }

  ghost function DifferingAnywhere(t: Table, email: string, among: set<nat>): set<nat> {
    Where(among, DiffersSomewhere(t, email))
  }

  lemma DifferingGrows(t: Table, email: string, among: set<nat>, d: nat, f: Field)
    requires d !in among
    ensures |Differing(t, email, among + {d}, f)| == |Differing(t, email, among, f)| + One(TwinsDiffer(t, email, d, f))
  {
    WhereGrows(among, d, DiffersIn(t, email, f));
  }

  lemma AnywhereGrows(t: Table, email: string, among: set<nat>, d: nat)
    requires d !in among
    ensures |DifferingAnywhere(t, email, among + {d})|
         == |DifferingAnywhere(t, email, among)| + One(exists f :: TwinsDiffer(t, email, d, f))
  {
    WhereGrows(among, d, DiffersSomewhere(t, email));
  }

  /** The twin of a row is the only one. */
  lemma TheTwin(t: Table, email: string, d: nat, e: nat, f: Field)
    requires Unique(t) && Twins(t, email, d, e)
    ensures TwinsDiffer(t, email, d, f) <==> Differs(f, t[d], t[e])
  {
    forall x | Twins(t, email, d, x) ensures x == e {
    }
  }

  datatype Divergence = Divergence(perField: map<Field, nat>, any: nat, events: seq<string>)

  ghost predicate ScanIs(t: Table, email: string, done: set<nat>, r: Divergence) {
    && (forall f: Field :: f in r.perField && r.perField[f] == |Differing(t, email, done, f)|)
    && r.any == |DifferingAnywhere(t, email, done)|
  }

  /** The events listed are those of the rows in `done` whose twins disagree on the charge, each once. */
  ghost predicate EventsAre(t: Table, email: string, done: set<nat>, events: seq<string>) {
    && (forall event :: event in events <==> exists d, e :: d in done && DivergentPair(t, email, d, e, event))
    && (forall i, j | 0 <= i < j < |events| :: events[i] != events[j])
  }

  ghost predicate DivergentPair(t: Table, email: string, d: nat, e: nat, event: string) {
    Twins(t, email, d, e) && t[d].event == event && t[d].charge != t[e].charge
  }

  ghost predicate TwinTable(twins: map<string, Row>, t: Table, email: string) {
    && (forall e | e in IdsOf(t, email) :: t[e].event in twins)
    && (forall event | event in twins ::
          exists e :: e in IdsOf(t, email) && t[e] == twins[event] && t[e].event == event)
  }

  lemma TwinTableOf(rows: seq<(nat, Row)>, t: Table, email: string, twins: map<string, Row>)
    requires Lists(rows, t, IdsOf(t, email))
    requires forall event :: event in twins <==> exists i :: 0 <= i < |rows| && rows[i].1.event == event
    requires forall event | event in twins ::
               exists i :: 0 <= i < |rows| && rows[i].1 == twins[event] && rows[i].1.event == event
    ensures TwinTable(twins, t, email)
  {
    forall e | e in IdsOf(t, email) ensures t[e].event in twins {
      var i :| 0 <= i < |rows| && rows[i].0 == e;
      assert rows[i].1.event == t[e].event;
    }
    forall event | event in twins
      ensures exists e :: e in IdsOf(t, email) && t[e] == twins[event] && t[e].event == event
    {
      var i :| 0 <= i < |rows| && rows[i].1 == twins[event] && rows[i].1.event == event;
      assert rows[i].0 in IdsOf(t, email) && t[rows[i].0] == twins[event];
    }
  }

  lemma ScanWithoutTwin(t: Table, email: string, done: set<nat>, d: nat, r: Divergence)
    requires ScanIs(t, email, done, r) && EventsAre(t, email, done, r.events) && d !in done
    requires forall e :: !Twins(t, email, d, e)
    ensures ScanIs(t, email, done + {d}, r) && EventsAre(t, email, done + {d}, r.events)
  {
    forall f: Field ensures f in r.perField && r.perField[f] == |Differing(t, email, done + {d}, f)| {
      DifferingGrows(t, email, done, d, f);
    }
    AnywhereGrows(t, email, done, d);
  }

  lemma ScanWithTwin(t: Table, email: string, done: set<nat>, d: nat, e: nat, r: Divergence, r': Divergence)
    requires Unique(t) && ScanIs(t, email, done, r) && d !in done && Twins(t, email, d, e)
    requires CountedUpTo(r'.perField, r.perField, |FIELDS|, t[d], t[e])
    requires r'.any == r.any + One(exists f :: Differs(f, t[d], t[e]))
    ensures ScanIs(t, email, done + {d}, r')
  {
    FieldsAreRanked();
    forall f: Field ensures TwinsDiffer(t, email, d, f) <==> Differs(f, t[d], t[e]) {
      TheTwin(t, email, d, e, f);
    }
    forall f: Field ensures f in r'.perField && r'.perField[f] == |Differing(t, email, done + {d}, f)| {
      DifferingGrows(t, email, done, d, f);
      assert Rank(f) < |FIELDS|;
    }
    AnywhereGrows(t, email, done, d);
  }

  lemma EventsWithTwin(t: Table, email: string, done: set<nat>, d: nat, e: nat, events: seq<string>)
    requires Unique(t) && EventsAre(t, email, done, events) && d !in done && Twins(t, email, d, e)
    ensures EventsAre(t, email, done + {d}, events + if t[d].charge != t[e].charge then [t[d].event] else [])
  {
    var more := events + if t[d].charge != t[e].charge then [t[d].event] else [];
    assert forall d', e' :: DivergentPair(t, email, d', e', t[d].event) ==> d' == d;
    assert t[d].event !in events;
    forall event ensures event in more <==>
      exists d', e' :: d' in done + {d} && DivergentPair(t, email, d', e', event) {
      if event in events {
        var d', e' :| d' in done && DivergentPair(t, email, d', e', event);
        assert d' in done + {d};
      }
      if event == t[d].event && t[d].charge != t[e].charge {
        assert d in done + {d} && DivergentPair(t, email, d, e, event);
      }
      if d', e' :| d' in done + {d} && DivergentPair(t, email, d', e', event) {
        if d' == d {
          assert e' == e;
        }
      }
    }
  }

  lemma ScanNext(t: Table, email: string, done: set<nat>, d: nat, e: nat, r: Divergence, r': Divergence)
    requires Unique(t) && ScanIs(t, email, done, r) && EventsAre(t, email, done, r.events) && d !in done
    requires Twins(t, email, d, e)
    requires CountedUpTo(r'.perField, r.perField, |FIELDS|, t[d], t[e])
    requires r'.any == r.any + if exists f :: Differs(f, t[d], t[e]) then 1 else 0
    requires r'.events == r.events + if t[d].charge != t[e].charge then [t[d].event] else []
    ensures ScanIs(t, email, done + {d}, r') && EventsAre(t, email, done + {d}, r'.events)
  {
    ScanWithTwin(t, email, done, d, e, r, r');
    EventsWithTwin(t, email, done, d, e, r.events);
  }

  ghost function IdsListed(rows: seq<(nat, Row)>): set<nat> { set i | 0 <= i < |rows| :: rows[i].0 }

  lemma IdsListedStep(rows: seq<(nat, Row)>, i: nat, t: Table, ids: set<nat>)
    requires Lists(rows, t, ids) && i < |rows|
    ensures IdsListed(rows[..i + 1]) == IdsListed(rows[..i]) + {rows[i].0} && rows[i].0 !in IdsListed(rows[..i])
    ensures rows[i].0 in ids
  {
    var more, fewer := rows[..i + 1], rows[..i];
    forall x ensures x in IdsListed(more) <==> x in IdsListed(fewer) + {rows[i].0} {
      if x in IdsListed(fewer) {
        var k :| 0 <= k < |fewer| && fewer[k].0 == x;
        assert more[k].0 == x;
      }
      if x == rows[i].0 {
        assert more[i].0 == x;
      }
      if x in IdsListed(more) {
        var k :| 0 <= k < |more| && more[k].0 == x;
        assert k < i ==> fewer[k].0 == x;
      }
    }
  }

  lemma AllListed(rows: seq<(nat, Row)>, t: Table, ids: set<nat>)
    requires Lists(rows, t, ids)
    ensures IdsListed(rows) == ids
  {
  }

  lemma {:induction false} DistinctlyListed(rows: seq<(nat, Row)>)
    requires forall i, j | 0 <= i < j < |rows| :: rows[i].0 != rows[j].0
    ensures |IdsListed(rows)| == |rows|
  {
    if rows != [] {
      var n := |rows| - 1;
      DistinctlyListed(rows[..n]);
      assert IdsListed(rows) == IdsListed(rows[..n]) + {rows[n].0};
    } else {
      assert IdsListed(rows) == {};
    }
  }

  lemma TwinOf(t: Table, email: string, twins: map<string, Row>, d: nat) returns (e: nat)
    requires TwinTable(twins, t, email) && d in IdsOf(t, LEGACY) && t[d].event in twins
    ensures Twins(t, email, d, e) && t[e] == twins[t[d].event]
  {
    e :| e in IdsOf(t, email) && t[e] == twins[t[d].event] && t[e].event == t[d].event;
  }

  /** The body of the scan for a row that has a twin. */
  method ScanPair(r: Divergence, row: Row, twin: Row, ghost t: Table, ghost email: string, ghost done: set<nat>,
                  ghost d: nat, ghost e: nat)
    returns (r': Divergence)
    requires Unique(t) && ScanIs(t, email, done, r) && EventsAre(t, email, done, r.events) && d !in done
    requires Twins(t, email, d, e) && row == t[d] && twin == t[e]
    ensures ScanIs(t, email, done + {d}, r') && EventsAre(t, email, done + {d}, r'.events)
  {
    var perField, anyDiff, blockingDiff := CompareTwins(r.perField, row, twin);
    r' := Divergence(perField, r.any + if anyDiff then 1 else 0, r.events + if blockingDiff then [row.event] else []);
    ScanNext(t, email, done, d, e, r, r');
  }

  /** Reads only: how many pairs differ in each field, and the events whose twins disagree on the charge. */
  method ScanTwinDivergence(db: Database, email: string) returns (r: Divergence)
    requires Unique(db.table)
    ensures ScanIs(db.table, email, IdsOf(db.table, LEGACY), r)
    ensures EventsAre(db.table, email, IdsOf(db.table, LEGACY), r.events)
  {
    var rows := db.MessagesOf(LEGACY);
    var twinRows := db.MessagesOf(email);
    var twins := TwinRows(twinRows);
    ghost var t := db.table;
    TwinTableOf(twinRows, t, email, twins);
    r := Divergence(map f: Field | f in FIELDS :: 0, 0, []);
    NothingScanned(t, email, r);
    assert IdsListed(rows[..0]) == {};
    for i := 0 to |rows|
      invariant ScanIs(t, email, IdsListed(rows[..i]), r)
      invariant EventsAre(t, email, IdsListed(rows[..i]), r.events)
    {
      IdsListedStep(rows, i, t, IdsOf(t, LEGACY));
      var row := rows[i].1;
      if row.event !in twins {
        ScanWithoutTwin(t, email, IdsListed(rows[..i]), rows[i].0, r);
        continue;
      }
      ghost var e := TwinOf(t, email, twins, rows[i].0);
      r := ScanPair(r, row, twins[row.event], t, email, IdsListed(rows[..i]), rows[i].0, e);
    }
    assert rows[..|rows|] == rows;
    AllListed(rows, t, IdsOf(t, LEGACY));
  }

  lemma NothingScanned(t: Table, email: string, r: Divergence)
    requires r.perField == map f: Field | f in FIELDS :: 0
    requires r.any == 0 && r.events == []
    ensures ScanIs(t, email, {}, r) && EventsAre(t, email, {}, r.events)
  {
    FieldsAreRanked();
    forall f: Field ensures f in r.perField && |Differing(t, email, {}, f)| == 0 {
      assert FIELDS[Rank(f)] == f;
      assert Differing(t, email, {}, f) == {};
    }
    assert DifferingAnywhere(t, email, {}) == {};
  }

  // ----- the deletion

  function Ascending(a: nat, b: nat): bool { a <= b }

  method SortIds(ids: set<nat>) returns (sorted: seq<nat>)
    ensures forall id :: id in sorted <==> id in ids
    ensures SortedBy(sorted, Ascending)
  {
    var list, todo := [], ids;
    while todo != {}
      invariant forall id :: id in list <==> id in ids - todo
      invariant todo <= ids
      decreases |todo|
    {
      var id :| id in todo;
      list, todo := list + [id], todo - {id};
    }
    sorted := Sort(list, Ascending);
    SortSorts(list, Ascending);
    SameElements(sorted, list);
  }

  ghost function Among(ids: seq<nat>): set<nat> { set id | id in ids }

  lemma BatchStep(t: Table, ids: seq<nat>, i: nat, j: nat, before: Table, gone: set<nat>)
    requires i <= j <= |ids| && before == t - Among(ids[..i])
    requires forall id | id in ids :: id in t && IsMessageOf(t[id], LEGACY)
    requires gone == set id | id in ids[i..j] && id in before && IsMessageOf(before[id], LEGACY)
    ensures before - gone == t - Among(ids[..j])
  {
    assert ids[..j] == ids[..i] + ids[i..j];
    forall id ensures id in before - gone <==> id in t - Among(ids[..j]) {
      if id in before && id in ids[i..j] {
        assert id in ids;
      }
    }
  }

  datatype Dedup = Dedup(total: nat, withTwin: nat, orphans: nat, deleteIds: set<nat>)

  /** The ids of the legacy rows whose event the real account has too. */
  method WithTwin(rows: seq<(nat, Row)>, emailEvents: set<string>) returns (toDelete: seq<nat>)
    requires forall i, j | 0 <= i < j < |rows| :: rows[i].0 != rows[j].0
    ensures forall id :: id in toDelete <==>
            exists k :: 0 <= k < |rows| && rows[k].0 == id && rows[k].1.event in emailEvents
    ensures |toDelete| <= |rows| && |Among(toDelete)| == |toDelete|
  {
    toDelete := [];
    for i := 0 to |rows|
      invariant |toDelete| <= i && |Among(toDelete)| == |toDelete|
      invariant forall id :: id in toDelete <==>
                exists k :: 0 <= k < i && rows[k].0 == id && rows[k].1.event in emailEvents
    {
      if rows[i].1.event in emailEvents {
        assert Among(toDelete + [rows[i].0]) == Among(toDelete) + {rows[i].0};
        assert rows[i].0 !in toDelete;
        toDelete := toDelete + [rows[i].0];
      }
    }
  }

  /** What is to go: found by event, whatever the batch size; the batches are committed one by one. */
  method DedupDelete(db: Database, email: string, dryRun: bool, batch: nat) returns (r: Dedup)
    requires batch > 0
    modifies db
    ensures r.deleteIds == DeleteIds(old(db.table), email)
    ensures db.table == if dryRun then old(db.table) else old(db.table) - DeleteIds(old(db.table), email)
    ensures r.withTwin == |r.deleteIds| && r.total == r.withTwin + r.orphans
    ensures r.total == |IdsOf(old(db.table), LEGACY)|
  {
    ghost var t := db.table;
    var twinRows := db.MessagesOf(email);
    var emailEvents := set i | 0 <= i < |twinRows| :: twinRows[i].1.event;
    var rows := db.MessagesOf(LEGACY);
    var toDelete := WithTwin(rows, emailEvents);
    var deleteIds := set id | id in toDelete;
    DeleteIdsFound(t, email, twinRows, rows, emailEvents, toDelete);
    if !dryRun && toDelete != [] {
      var ids := SortIds(deleteIds);
      DeleteInBatches(db, ids, batch);
      assert Among(ids) == deleteIds;
    }
    assert Among(toDelete) == deleteIds == DeleteIds(t, email);
    AllListed(rows, t, IdsOf(t, LEGACY));
    DistinctlyListed(rows);
    r := Dedup(|rows|, |toDelete|, |rows| - |toDelete|, deleteIds);
  }

  lemma DeleteIdsFound(t: Table, email: string, twinRows: seq<(nat, Row)>, rows: seq<(nat, Row)>,
                       emailEvents: set<string>, toDelete: seq<nat>)
    requires Lists(twinRows, t, IdsOf(t, email)) && Lists(rows, t, IdsOf(t, LEGACY))
    requires emailEvents == set i | 0 <= i < |twinRows| :: twinRows[i].1.event
    requires forall id :: id in toDelete <==>
             exists k :: 0 <= k < |rows| && rows[k].0 == id && rows[k].1.event in emailEvents
    ensures forall id :: id in toDelete <==> id in DeleteIds(t, email)
  {
    forall id ensures id in toDelete <==> id in DeleteIds(t, email) {
      if id in toDelete {
        var k :| 0 <= k < |rows| && rows[k].0 == id && rows[k].1.event in emailEvents;
        var i :| 0 <= i < |twinRows| && twinRows[i].1.event == rows[k].1.event;
        assert Twins(t, email, id, twinRows[i].0);
      }
      if id in DeleteIds(t, email) {
        var e :| Twins(t, email, id, e);
        var i :| 0 <= i < |twinRows| && twinRows[i].0 == e;
        assert twinRows[i].1.event in emailEvents;
        var k :| 0 <= k < |rows| && rows[k].0 == id;
      }
    }
  }

  method DeleteInBatches(db: Database, ids: seq<nat>, batch: nat)
    requires batch > 0 && forall id | id in ids :: id in db.table && IsMessageOf(db.table[id], LEGACY)
    modifies db
    ensures db.table == old(db.table) - Among(ids)
  {
    ghost var t := db.table;
    var i := 0;
    while i < |ids|
      invariant 0 <= i <= |ids| && db.table == t - Among(ids[..i])
      decreases |ids| - i
    {
      var j := if i + batch <= |ids| then i + batch else |ids|;
      ghost var before := db.table;
      db.DeleteBatch(ids[i..j]);
      BatchStep(t, ids, i, j, before, set id | id in ids[i..j] && id in before && IsMessageOf(before[id], LEGACY));
      i := j;
    }
    assert ids[..|ids|] == ids;
  }

  // ----- the run

  datatype Exit = Done(events: nat) | NoAccount | Ambiguous | Diverged | GaugesLeft

  /** The accounts other than the legacy one: of the events, or else of the latest gauges, or else of the snapshots. */
  function Candidates(t: Table, latest: set<string>, snapshots: set<string>): set<string> {
    var ofEvents := set id | id in t && t[id].provider == PROVIDER && t[id].account != LEGACY :: t[id].account;
    if ofEvents != {} then ofEvents
    else if latest - {LEGACY} != {} then latest - {LEGACY}
    else snapshots - {LEGACY}
  }

  /** Some event of the provider is under an account other than the legacy one. */
  ghost predicate KnownByEvents(t: Table, account: string) {
    account != "default" && exists id :: id in t && t[id].provider == "antigravity" && t[id].account == account
  }

  /** Gauges are asked only where no event names an account, and snapshots only where no gauge does either. */
  lemma CandidateMeans(t: Table, latest: set<string>, snapshots: set<string>, account: string)
    ensures account in Candidates(t, latest, snapshots) <==>
            || KnownByEvents(t, account)
            || ((forall other :: !KnownByEvents(t, other)) && account != "default" &&
                (account in latest || ((forall other | other in latest :: other == "default") && account in snapshots)))
  {
    var ofEvents := set id | id in t && t[id].provider == PROVIDER && t[id].account != LEGACY :: t[id].account;
    forall other ensures other in ofEvents <==> KnownByEvents(t, other) {
    }
    if other :| other in ofEvents {
      assert KnownByEvents(t, other);
    }
    if other :| other in latest && other != "default" {
      assert other in latest - {LEGACY};
    }
  }

  /** The one account besides the legacy one; two of them are one too many. */
  method DiscoverAccount(db: Database, latest: set<string>, snapshots: set<string>) returns (r: Exit, email: string)
    ensures r.Done? ==> OnlyTwo(db.table, email) && email != LEGACY
    ensures r.Done? <==> Candidates(db.table, latest, snapshots) == {email}
    ensures r == NoAccount <==> Candidates(db.table, latest, snapshots) == {}
    ensures r == Ambiguous <==>
            exists a, b | a in Candidates(db.table, latest, snapshots) ::
              b in Candidates(db.table, latest, snapshots) && a != b
  {
    var found := Candidates(db.table, latest, snapshots);
    if found == {} {
      return NoAccount, "";
    }
    email :| email in found;
    if found != {email} {
      SecondOf(found, email);
      return Ambiguous, "";
    }
    assert OnlyTwo(db.table, email) by {
      forall id | id in db.table && db.table[id].provider == PROVIDER && db.table[id].account != LEGACY
        ensures db.table[id].account == email
      {
        assert db.table[id].account in found;
      }
    }
    r := Done(0);
  }

  lemma SecondOf(s: set<string>, a: string)
    requires a in s && s != {a}
    ensures exists b :: b in s && a != b
  {
    var others := s - {a};
    assert s == others + {a};
    var b :| b in others;
  }

  /** The scan and its gate, the gauge gate, the deletion, and the number of events the rollups are rebuilt from. */
  method Merge(db: Database, email: string, gaugesLeft: bool, dryRun: bool, force: bool, batch: nat) returns (r: Exit)
    requires Unique(db.table) && email != LEGACY && batch > 0
    modifies db
    ensures r == Diverged <==> !dryRun && !force && exists event :: Diverges(old(db.table), email, event)
    ensures r == GaugesLeft <==>
            !dryRun && !force && gaugesLeft && forall event :: !Diverges(old(db.table), email, event)
    ensures r.Done? && !dryRun ==> db.table == old(db.table) - DeleteIds(old(db.table), email)
    ensures !r.Done? || dryRun ==> db.table == old(db.table)
    ensures r.Done? ==> r == Done(|MessageIds(old(db.table) - DeleteIds(old(db.table), email))|)
    ensures r.Done? || r == Diverged || r == GaugesLeft
    ensures !force && !dryRun ==> Charges(db.table) == Charges(old(db.table))
    ensures Events(db.table) == Events(old(db.table))
    ensures forall id | id in old(db.table) && !IsMessageOf(old(db.table)[id], LEGACY) ::
              id in db.table && db.table[id] == old(db.table)[id]
  {
    ghost var t := db.table;
    var divergence := ScanTwinDivergence(db, email);
    EventsDiverge(t, email, divergence.events);
    AfterDedup(t, email, divergence.events, t);
    if divergence.events != [] && !dryRun && !force {
      return Diverged;
    }
    if gaugesLeft && !dryRun && !force {
      return GaugesLeft;
    }
    var dedup := DedupDelete(db, email, dryRun, batch);
    AfterDedup(t, email, divergence.events, db.table);
    var messages := CountedMessages(db);
    r := Done(|if dryRun then messages - dedup.deleteIds else messages|);
  }

  method CountedMessages(db: Database) returns (ids: set<nat>)
    ensures ids == MessageIds(db.table)
  {
    ids := set id | id in db.table && IsMessage(db.table[id]);
  }

  lemma AfterDedup(t: Table, email: string, events: seq<string>, s: Table)
    requires email != LEGACY && (s == t || s == t - DeleteIds(t, email))
    requires forall event :: event in events <==> Diverges(t, email, event)
    ensures Events(s) == Events(t)
    ensures events == [] ==> Charges(s) == Charges(t)
    ensures MessageIds(t) - DeleteIds(t, email) == MessageIds(t - DeleteIds(t, email))
    ensures events != [] ==> Diverges(t, email, events[0])
    ensures forall id | id in t && !IsMessageOf(t[id], LEGACY) :: id in s && s[id] == t[id]
  {
    PreviewIsExact(t, email);
    if s == t - DeleteIds(t, email) {
      NoEventLost(t, email, DeleteIds(t, email), s);
      if events == [] {
        ChargesKept(t, email, DeleteIds(t, email), s);
      }
    }
    assert events != [] ==> events[0] in events;
  }

  lemma EventsDiverge(t: Table, email: string, events: seq<string>)
    requires EventsAre(t, email, IdsOf(t, LEGACY), events)
    ensures forall event :: event in events <==> Diverges(t, email, event)
  {
    forall event ensures event in events <==> Diverges(t, email, event) {
      if Diverges(t, email, event) {
        var d, e :| Twins(t, email, d, e) && t[d].event == event && t[d].charge != t[e].charge;
        assert DivergentPair(t, email, d, e, event);
      }
    }
  }
}
