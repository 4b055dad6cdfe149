/**
 * `scripts/collapse_default_account_events.py`: events ingested twice, once under a stale account and
 * once under the real one, are collapsed to one row each, under a unique key on account and event.
 */
module CollapseAccounts {
  import opened Sorting

  /** A row of one provider. The columns the script only carries along are not shown. */
  datatype Row = Row(id: nat, event: string, account: string, kind: string, input: int, output: int)

  // ----- the winner of a pair

  function PickWinner(a: Row, b: Row): (Row, Row) {
    var aIsMessage, bIsMessage := a.kind == "message", b.kind == "message";
    if aIsMessage != bIsMessage then (if aIsMessage then (a, b) else (b, a))
    else
      var aTokens, bTokens := a.input + a.output, b.input + b.output;
      if aTokens != bTokens then (if aTokens > bTokens then (a, b) else (b, a))
      else if a.id < b.id then (a, b) else (b, a)
  }

  /** The documented order: messages before errors, then more tokens, then the row that came first. */
  predicate Better(a: Row, b: Row) {
    || (a.kind == "message" && b.kind != "message")
    || ((a.kind == "message" <==> b.kind == "message")
        && (a.input + a.output > b.input + b.output
            || (a.input + a.output == b.input + b.output && a.id < b.id)))
  }

  lemma BetterIsStrictTotalOrder(a: Row, b: Row, c: Row)
    ensures !Better(a, a)
    ensures Better(a, b) && Better(b, c) ==> Better(a, c)
    ensures Better(a, b) ==> !Better(b, a)
    ensures a.id != b.id ==> Better(a, b) || Better(b, a)
  {
  }

  /** Between rows with different ids, the winner is the better one, in whichever order they are given. */
  lemma WinnerIsBetter(a: Row, b: Row)
    requires a.id != b.id
    ensures PickWinner(a, b) == PickWinner(b, a) == if Better(a, b) then (a, b) else (b, a)
  {
  }

  // ----- tables

  type Table = map<nat, Row>

  ghost predicate WellKeyed(t: Table) { forall id | id in t :: t[id].id == id }

  /** No two rows share account and event. */
  ghost predicate Unique(t: Table) {
    forall i, j | i in t && j in t && i != j :: t[i].event != t[j].event || t[i].account != t[j].account
  }

  ghost function Group(t: Table, e: string): set<nat> { set id | id in t && t[id].event == e }

  ghost function Accounts(t: Table, e: string): set<string> {
    set id | id in Group(t, e) :: t[id].account
  }

  datatype Plan = Skip | RetagLone | CollapsePair

  ghost function PlanOf(t: Table, e: string, source: string, target: string): Plan {
    if |Accounts(t, e)| == 1 then (if Accounts(t, e) == {source} then RetagLone else Skip)
    else if |Group(t, e)| != 2 || Accounts(t, e) != {source, target} then Skip
    else CollapsePair
  }

  ghost predicate Wins(t: Table, id: nat)
    requires id in t
  {
    forall other | other in Group(t, t[id].event) && other != id :: Better(t[id], t[other])
  }

  ghost predicate Survives(t: Table, id: nat, source: string, target: string)
    requires id in t
  {
    PlanOf(t, t[id].event, source, target) == CollapsePair ==> Wins(t, id)
  }

  ghost function Settled(t: Table, id: nat, source: string, target: string): Row
    requires id in t
  {
    if PlanOf(t, t[id].event, source, target) == Skip then t[id] else t[id].(account := target)
  }

  /**
   * The table when the events in `done` are dealt with and the new accounts of the rows in `pending`
   * are not yet written.
   */
  ghost function Stage(t: Table, done: set<string>, pending: set<nat>, source: string, target: string): Table {
    map id | id in t && (t[id].event in done ==> Survives(t, id, source, target)) ::
      if t[id].event in done && id !in pending then Settled(t, id, source, target) else t[id]
  }

  /** The table after the run. */
  ghost function Outcome(t: Table, source: string, target: string): Table {
    map id | id in t && Survives(t, id, source, target) :: Settled(t, id, source, target)
  }

  // ----- no statement meets a taken slot

  lemma SoleAccount(t: Table, e: string, i: nat, j: nat)
    requires Unique(t) && i in t && j in t && t[i].event == e && t[j].event == e && |Accounts(t, e)| == 1
    ensures i == j
  {
    assert t[i].account in Accounts(t, e) && t[j].account in Accounts(t, e);
    OneElement(Accounts(t, e), t[i].account, t[j].account);
  }

  lemma OneElement<T>(s: set<T>, a: T, b: T)
    requires |s| == 1 && a in s && b in s
    ensures a == b
  {
    if a != b {
      assert {a, b} <= s;
      Subset({a, b}, s);
    }
  }

  lemma Subset<T>(a: set<T>, b: set<T>)
    requires a <= b
    ensures |a| <= |b|
  {
    assert b == a + (b - a);
  }

  /** Of the rows of one event, all that are left share one account only if they are one row. */
  lemma SurvivorsOfOneEvent(t: Table, source: string, target: string, i: nat, j: nat)
    requires Unique(t) && i in t && j in t && t[i].event == t[j].event
    requires Survives(t, i, source, target) && Survives(t, j, source, target)
    requires PlanOf(t, t[i].event, source, target) != Skip
    ensures i == j
  {
    var e := t[i].event;
    if PlanOf(t, e, source, target) == RetagLone {
      SoleAccount(t, e, i, j);
    } else if i != j {
      assert i in Group(t, e) && j in Group(t, e);
      assert Better(t[i], t[j]) && Better(t[j], t[i]);
      BetterIsStrictTotalOrder(t[i], t[j], t[i]);
    }
  }

  /** A row at some stage: its event never changes, and its account only if its event is dealt with. */
  lemma StageRow(t: Table, done: set<string>, pending: set<nat>, source: string, target: string, s: Table, i: nat)
    requires s == Stage(t, done, pending, source, target) && i in s
    ensures i in t && s[i].event == t[i].event
    ensures t[i].event in done ==> Survives(t, i, source, target)
    ensures t[i].event !in done || PlanOf(t, t[i].event, source, target) == Skip ==> s[i].account == t[i].account
  {
  }

  lemma NoCollision(t: Table, done: set<string>, pending: set<nat>, source: string, target: string, s: Table, i: nat,
                    j: nat)
    requires Unique(t) && s == Stage(t, done, pending, source, target) && i in s && j in s && i != j
    ensures s[i].event != s[j].event || s[i].account != s[j].account
  {
    StageRow(t, done, pending, source, target, s, i);
    StageRow(t, done, pending, source, target, s, j);
    var e := t[i].event;
    if t[j].event == e && e in done && PlanOf(t, e, source, target) != Skip {
      SurvivorsOfOneEvent(t, source, target, i, j);
    }
  }

  /** At every moment of the run, whatever has been written so far, the key is unique. */
  lemma UniqueThroughout(t: Table, done: set<string>, pending: set<nat>, source: string, target: string, s: Table)
    requires Unique(t) && s == Stage(t, done, pending, source, target)
    ensures Unique(s)
  {
    forall i, j | i in s && j in s && i != j ensures s[i].event != s[j].event || s[i].account != s[j].account {
      NoCollision(t, done, pending, source, target, s, i, j);
    }
  }

  // ----- the outcome

  lemma PairHasTwo(ids: set<nat>) returns (a: nat, b: nat)
    requires |ids| == 2
    ensures a != b && ids == {a, b}
  {
    a :| a in ids;
    assert |ids - {a}| == 1;
    b :| b in ids - {a};
    forall x | x in ids ensures x == a || x == b {
      if x != a {
        OneElement(ids - {a}, x, b);
      }
    }
  }

  lemma PairInOrder(t: Table, e: string, source: string, target: string) returns (w: nat, l: nat)
    requires WellKeyed(t) && PlanOf(t, e, source, target) == CollapsePair
    ensures w != l && Group(t, e) == {w, l} && w in t && l in t && Better(t[w], t[l])
  {
    w, l := PairHasTwo(Group(t, e));
    assert w in Group(t, e) && l in Group(t, e);
    BetterIsStrictTotalOrder(t[w], t[l], t[w]);
    if !Better(t[w], t[l]) {
      w, l := l, w;
    }
  }

  lemma PairSurvivor(t: Table, e: string, source: string, target: string, w: nat, l: nat)
    requires PlanOf(t, e, source, target) == CollapsePair
    requires w != l && Group(t, e) == {w, l} && w in t && l in t && Better(t[w], t[l])
    ensures t[w].event == e && t[l].event == e
    ensures Survives(t, w, source, target) && !Survives(t, l, source, target)
  {
    assert w in Group(t, e) && l in Group(t, e);
    BetterIsStrictTotalOrder(t[w], t[l], t[w]);
  }

  /** A pair leaves its better row, alone and under the target; nothing else about the row changes. */
  lemma OneWinnerLeft(t: Table, e: string, source: string, target: string, s: Table) returns (w: nat, l: nat)
    requires WellKeyed(t) && PlanOf(t, e, source, target) == CollapsePair && s == Outcome(t, source, target)
    ensures w != l && Group(t, e) == {w, l} && w in t && l in t && Better(t[w], t[l])
    ensures Group(s, e) == {w} && s[w] == t[w].(account := target)
  {
    w, l := PairInOrder(t, e, source, target);
    PairSurvivor(t, e, source, target, w, l);
    SurvivorGroup(t, e, source, target, s, w, l);
  }

  lemma SurvivorGroup(t: Table, e: string, source: string, target: string, s: Table, w: nat, l: nat)
    requires s == Outcome(t, source, target) && Group(t, e) == {w, l} && w in t && l in t && t[w].event == e
    requires PlanOf(t, e, source, target) == CollapsePair
    requires Survives(t, w, source, target) && !Survives(t, l, source, target)
    ensures Group(s, e) == {w} && s[w] == t[w].(account := target)
  {
    assert w in s && l !in s && s[w] == t[w].(account := target);
    forall id ensures id in Group(s, e) <==> id == w {
      if id in Group(s, e) {
        assert id in Group(t, e);
      }
    }
  }

  /** Rows of a skipped event stay as they are. */
  lemma SkippedUntouched(t: Table, e: string, source: string, target: string, s: Table)
    requires PlanOf(t, e, source, target) == Skip && s == Outcome(t, source, target)
    ensures Group(s, e) == Group(t, e) && forall id | id in Group(t, e) :: s[id] == t[id]
    ensures Accounts(s, e) == Accounts(t, e)
  {
  }

  /** What is left under the stale account belongs to an event that also has another account. */
  lemma SourceOnlyInSkipped(t: Table, source: string, target: string, s: Table, id: nat)
    requires source != target && s == Outcome(t, source, target) && id in s && s[id].account == source
    ensures PlanOf(t, s[id].event, source, target) == Skip
    ensures exists other :: other in Group(s, s[id].event) && s[other].account != source
  {
    var e := s[id].event;
    SkippedUntouched(t, e, source, target, s);
    assert source in Accounts(t, e) by {
      assert id in Group(t, e);
    }
    assert Accounts(t, e) != {source};
    var account :| account in Accounts(t, e) && account != source;
    var other :| other in Group(t, e) && t[other].account == account;
    assert other in Group(s, e) && s[other].account != source;
  }

  lemma LoneRetagged(t: Table, e: string, source: string, target: string, s: Table)
    requires PlanOf(t, e, source, target) == RetagLone && s == Outcome(t, source, target)
    ensures Group(s, e) == Group(t, e) && forall id | id in Group(t, e) :: s[id] == t[id].(account := target)
    ensures Accounts(s, e) == {target}
  {
    forall id | id in Group(t, e) ensures id in s && s[id] == t[id].(account := target) {
      assert Survives(t, id, source, target);
    }
    assert Group(s, e) == Group(t, e);
    assert source in Accounts(t, e);
    var id :| id in Group(t, e);
    assert s[id].account in Accounts(s, e);
  }

  /** No event disappears. */
  lemma NoEventLost(t: Table, e: string, source: string, target: string, s: Table)
    requires WellKeyed(t) && s == Outcome(t, source, target) && Group(t, e) != {}
    ensures Group(s, e) != {}
  {
    match PlanOf(t, e, source, target)
    case Skip => SkippedUntouched(t, e, source, target, s);
    case RetagLone => LoneRetagged(t, e, source, target, s);
    case CollapsePair => var w, l := OneWinnerLeft(t, e, source, target, s);
  }

  /** After the run a skipped event is skipped again, and any other has the target as its only account. */
  lemma PlanAfter(t: Table, e: string, source: string, target: string, s: Table)
    requires WellKeyed(t) && s == Outcome(t, source, target)
    ensures PlanOf(t, e, source, target) == Skip ==> PlanOf(s, e, source, target) == Skip
    ensures PlanOf(t, e, source, target) != Skip ==> Accounts(s, e) == {target}
  {
    match PlanOf(t, e, source, target)
    case Skip => SkippedUntouched(t, e, source, target, s);
    case RetagLone => LoneRetagged(t, e, source, target, s);
    case CollapsePair => var w, l := OneWinnerLeft(t, e, source, target, s);
  }

  lemma SettledStays(t: Table, source: string, target: string, s: Table, id: nat)
    requires WellKeyed(t) && s == Outcome(t, source, target) && id in s
    ensures Survives(s, id, source, target) && Settled(s, id, source, target) == s[id]
  {
    PlanAfter(t, t[id].event, source, target, s);
    assert id in Group(s, t[id].event);
    assert s[id].account in Accounts(s, t[id].event);
  }

  /** Run again with the same accounts, the script changes nothing. */
  lemma SecondRunChangesNothing(t: Table, source: string, target: string, s: Table)
    requires WellKeyed(t) && s == Outcome(t, source, target)
    ensures Outcome(s, source, target) == s
  {
    forall id | id in s ensures Survives(s, id, source, target) && Settled(s, id, source, target) == s[id] {
      SettledStays(t, source, target, s, id);
    }
  }

  // ----- the same, read off the rows

  /** The rows of the event are these two at most. */
  ghost predicate AtMost(t: Table, e: string, i: nat, j: nat) {
    forall id | id in t && t[id].event == e :: id == i || id == j
  }

  lemma LoneGroup(t: Table, e: string, i: nat)
    requires i in t && t[i].event == e && AtMost(t, e, i, i)
    ensures Group(t, e) == {i} && Accounts(t, e) == {t[i].account} && |Accounts(t, e)| == 1
  {
    assert i in Group(t, e);
    assert t[i].account in Accounts(t, e);
  }

  lemma PairGroup(t: Table, e: string, i: nat, j: nat)
    requires i in t && j in t && i != j && t[i].event == e && t[j].event == e && AtMost(t, e, i, j)
    requires t[i].account != t[j].account
    ensures Group(t, e) == {i, j} && Accounts(t, e) == {t[i].account, t[j].account}
    ensures |Group(t, e)| == 2 && |Accounts(t, e)| == 2
  {
    assert i in Group(t, e) && j in Group(t, e);
    assert t[i].account in Accounts(t, e) && t[j].account in Accounts(t, e);
    assert Group(t, e) == {i, j};
    assert Accounts(t, e) == {t[i].account, t[j].account};
  }

  /** The only row of an event, under the stale account, takes the target. */
  lemma LoneRowMoves(t: Table, source: string, target: string, s: Table, i: nat)
    requires s == Outcome(t, source, target) && i in t && AtMost(t, t[i].event, i, i) && t[i].account == source
    ensures i in s && s[i] == t[i].(account := target)
  {
    LoneGroup(t, t[i].event, i);
    assert Survives(t, i, source, target);
  }

  /**
   * Of the only two rows of an event, one under each account, a message outlasts what is none; of two
   * of a sort, the one with more input and output tokens stays, and of equals the one with the smaller id.
   */
  lemma PairEnds(t: Table, source: string, target: string, s: Table, w: nat, l: nat)
    requires WellKeyed(t) && s == Outcome(t, source, target) && source != target
    requires w in t && l in t && w != l && t[w].event == t[l].event && AtMost(t, t[w].event, w, l)
    requires (t[w].account == source && t[l].account == target) || (t[w].account == target && t[l].account == source)
    requires var (a, b) := (t[w], t[l]);
             || (a.kind == "message" && b.kind != "message")
             || ((a.kind == "message") == (b.kind == "message") && a.input + a.output > b.input + b.output)
             || ((a.kind == "message") == (b.kind == "message") && a.input + a.output == b.input + b.output && w < l)
    ensures w in s && l !in s && s[w] == t[w].(account := target)
  {
    PairGroup(t, t[w].event, w, l);
    assert {source, target} == {target, source};
    PairSurvivor(t, t[w].event, source, target, w, l);
  }

  /** Every other event keeps its rows as they are: one without a stale row, or with an account besides the two. */
  lemma OthersStay(t: Table, source: string, target: string, s: Table, i: nat)
    requires s == Outcome(t, source, target) && i in t
    requires || (forall id | id in t && t[id].event == t[i].event :: t[id].account != source)
             || (exists id :: && id in t && t[id].event == t[i].event
                              && t[id].account != source && t[id].account != target)
    ensures i in s && s[i] == t[i]
  {
    var e := t[i].event;
    assert i in Group(t, e);
    if id :| id in t && t[id].event == e && t[id].account != source && t[id].account != target {
      assert id in Group(t, e);
      assert t[id].account in Accounts(t, e);
    }
    if source in Accounts(t, e) {
      var id :| id in Group(t, e) && t[id].account == source;
    }
    assert PlanOf(t, e, source, target) == Skip;
  }

  /** With a unique key there is no further kind of event. */
  lemma EveryEventIsCovered(t: Table, source: string, target: string, i: nat)
    requires Unique(t) && source != target && i in t
    ensures || (forall id | id in t && t[id].event == t[i].event :: t[id].account != source)
            || (exists id :: && id in t && t[id].event == t[i].event
                             && t[id].account != source && t[id].account != target)
            || (t[i].account == source && AtMost(t, t[i].event, i, i))
            || (exists j :: && j in t && j != i && t[j].event == t[i].event && AtMost(t, t[i].event, i, j)
                            && ((t[i].account == source && t[j].account == target)
                                || (t[i].account == target && t[j].account == source)))
  {
    var e := t[i].event;
    if (forall id | id in t && t[id].event == e :: t[id].account == source || t[id].account == target)
       && !AtMost(t, e, i, i) {
      var j :| j in t && t[j].event == e && j != i;
      assert AtMost(t, e, i, j);
    }
  }

  // ----- the session and the run

  /** The rows of one provider in the database, behind the unique key. */
  class Database {
    var table: Table

    constructor (t: Table)
      ensures table == t
    {
      table := t;
    }

    /** `UPDATE … SET account_id`: refused when another row has the account and the event. */
    method Retag(id: nat, account: string) returns (ok: bool)
      requires id in table
      modifies this
      ensures ok <==> forall j | j in old(table) && j != id ::
                        old(table)[j].event != old(table)[id].event || old(table)[j].account != account
      ensures table == if ok then old(table)[id := old(table)[id].(account := account)] else old(table)
    {
      ok := forall j | j in table :: j == id || table[j].event != table[id].event || table[j].account != account;
      if ok {
        table := table[id := table[id].(account := account)];
      }
    }

    method Delete(id: nat)
      modifies this
      ensures table == old(table) - {id}
    {
      table := table - {id};
    }

    /** Writes one pending account; the unique key does not object. */
    method WriteOne(id: nat, todo: set<nat>, rest: set<nat>, source: string, target: string,
                    ghost t: Table, ghost done: set<string>)
      returns (ok: bool)
      requires Unique(t) && table == Stage(t, done, todo, source, target) && id in todo && rest == todo - {id}
      requires id in table
      requires t[id].event in done && PlanOf(t, t[id].event, source, target) != Skip
      modifies this
      ensures ok && table == Stage(t, done, rest, source, target) && table.Keys == old(table.Keys)
    {
      ghost var next := Stage(t, done, rest, source, target);
      RetagStep(t, done, todo, rest, source, target, id, table, next);
      ok := Retag(id, target);
    }

    /** Writes the pending accounts, in any order; the unique key never objects. */
    method Flush(pending: set<nat>, source: string, target: string, ghost t: Table, ghost done: set<string>)
      returns (ok: bool)
      requires Unique(t) && table == Stage(t, done, pending, source, target) && pending <= table.Keys
      requires forall id | id in pending :: t[id].event in done && PlanOf(t, t[id].event, source, target) != Skip
      modifies this
      ensures ok && table == Stage(t, done, {}, source, target)
    {
      var todo := pending;
      ok := true;
      while todo != {}
        invariant todo <= pending && pending <= table.Keys && ok
        invariant table == Stage(t, done, todo, source, target)
        decreases |todo|
      {
        var id :| id in todo;
        ok := WriteOne(id, todo, todo - {id}, source, target, t, done);
        todo := todo - {id};
      }
    }
  }

  lemma OtherRowStays(t: Table, done: set<string>, todo: set<nat>, rest: set<nat>, source: string, target: string,
                      s: Table, next: Table, j: nat)
    requires s == Stage(t, done, todo, source, target) && next == Stage(t, done, rest, source, target)
    requires j in s && (j in todo <==> j in rest)
    ensures j in next && next[j] == s[j]
  {
  }

  lemma RetagStage(t: Table, done: set<string>, todo: set<nat>, source: string, target: string, id: nat, s: Table,
                   next: Table)
    requires s == Stage(t, done, todo, source, target) && id in todo && id in s
    requires next == Stage(t, done, todo - {id}, source, target)
    requires t[id].event in done && PlanOf(t, t[id].event, source, target) != Skip
    ensures s[id := s[id].(account := target)] == next
  {
    assert s[id] == t[id] && next[id] == t[id].(account := target);
    assert s.Keys == next.Keys;
    forall j | j in s && j != id ensures next[j] == s[j] {
      OtherRowStays(t, done, todo, todo - {id}, source, target, s, next, j);
    }
  }

  lemma RetagStep(t: Table, done: set<string>, todo: set<nat>, rest: set<nat>, source: string, target: string, id: nat,
                  s: Table, next: Table)
    requires Unique(t) && s == Stage(t, done, todo, source, target) && id in todo && id in s && rest == todo - {id}
    requires next == Stage(t, done, rest, source, target)
    requires t[id].event in done && PlanOf(t, t[id].event, source, target) != Skip
    ensures s[id := s[id].(account := target)] == next && s.Keys == next.Keys
    ensures forall j | j in s && j != id :: s[j].event != s[id].event || s[j].account != target
  {
    RetagStage(t, done, todo, source, target, id, s, next);
    UniqueThroughout(t, done, rest, source, target, next);
    forall j | j in s && j != id ensures s[j].event != s[id].event || s[j].account != target {
      assert j in next && next[j] == s[j];
      assert id in next && next[id].account == target && next[id].event == s[id].event;
    }
  }

  // ----- grouping

  function Filter(rows: seq<Row>, e: string): seq<Row> {
    if rows == [] then []
    else Filter(rows[..|rows| - 1], e) + if rows[|rows| - 1].event == e then [rows[|rows| - 1]] else []
  }

  /** `rows` lists the table, each row once. */
  ghost predicate Lists(rows: seq<Row>, t: Table) {
    && (forall i | 0 <= i < |rows| :: rows[i].id in t && t[rows[i].id] == rows[i])
    && (forall i, j | 0 <= i < j < |rows| :: rows[i].id != rows[j].id)
    && (forall id | id in t :: t[id] in rows)
  }

  ghost predicate Distinct(rows: seq<Row>) {
    forall i, j | 0 <= i < j < |rows| :: rows[i].id != rows[j].id
  }

  ghost function Ids(rows: seq<Row>): set<nat> { set r | r in rows :: r.id }

  lemma {:induction false} InFilter(rows: seq<Row>, e: string, r: Row)
    ensures r in Filter(rows, e) <==> r in rows && r.event == e
  {
    if rows != [] {
      InFilter(rows[..|rows| - 1], e, r);
      assert rows == rows[..|rows| - 1] + [rows[|rows| - 1]];
    }
  }

  lemma {:induction false} DistinctCounts(rows: seq<Row>)
    requires Distinct(rows)
    ensures |Ids(rows)| == |rows|
  {
    if rows == [] {
      assert Ids(rows) == {};
    } else {
      var n := |rows| - 1;
      DistinctCounts(rows[..n]);
      assert rows == rows[..n] + [rows[n]];
      assert Ids(rows) == Ids(rows[..n]) + {rows[n].id};
      assert rows[n].id !in Ids(rows[..n]);
    }
  }

  lemma {:induction false} FilterIsDistinct(rows: seq<Row>, e: string)
    requires Distinct(rows)
    ensures Distinct(Filter(rows, e))
  {
    if rows != [] {
      var n := |rows| - 1;
      var before := Filter(rows[..n], e);
      FilterIsDistinct(rows[..n], e);
      forall i | 0 <= i < |before| ensures before[i].id != rows[n].id {
        InFilter(rows[..n], e, before[i]);
      }
    }
  }

  lemma FilterIsGroup(rows: seq<Row>, t: Table, e: string)
    requires WellKeyed(t) && Lists(rows, t)
    ensures Ids(Filter(rows, e)) == Group(t, e) && |Filter(rows, e)| == |Group(t, e)|
    ensures Distinct(Filter(rows, e)) && forall r | r in Filter(rows, e) :: r.id in t && t[r.id] == r
    ensures (set r | r in Filter(rows, e) :: r.account) == Accounts(t, e)
  {
    forall r ensures r in Filter(rows, e) <==> r in rows && r.event == e {
      InFilter(rows, e, r);
    }
    FilterIsDistinct(rows, e);
    DistinctCounts(Filter(rows, e));
    forall id | id in Group(t, e) ensures t[id] in Filter(rows, e) && id in Ids(Filter(rows, e)) {
      assert t[id] in rows;
    }
    assert Ids(Filter(rows, e)) == Group(t, e);
    forall a | a in Accounts(t, e) ensures a in (set r | r in Filter(rows, e) :: r.account) {
      var id :| id in Group(t, e) && t[id].account == a;
      assert t[id] in Filter(rows, e);
    }
  }

  lemma FilterStep(rows: seq<Row>, i: nat, e: string)
    requires i < |rows|
    ensures Filter(rows[..i + 1], e) == Filter(rows[..i], e) + if rows[i].event == e then [rows[i]] else []
  {
    assert rows[..i + 1][..i] == rows[..i];
  }

  /** What the dictionary of groups holds for an event after some of the rows. */
  ghost predicate GroupedAt(order: seq<string>, groups: map<string, seq<Row>>, rows: seq<Row>, e: string) {
    && (e in order <==> e in groups)
    && (if e in groups then groups[e] == Filter(rows, e) && groups[e] != [] else Filter(rows, e) == [])
  }

  /** The list is the keys of the dictionary in order of arrival. */
  ghost predicate Grouped(order: seq<string>, groups: map<string, seq<Row>>, rows: seq<Row>) {
    NoRepeats(order) && forall e :: GroupedAt(order, groups, rows, e)
  }

  lemma GroupedMeans(order: seq<string>, groups: map<string, seq<Row>>, rows: seq<Row>)
    requires Grouped(order, groups, rows)
    ensures forall e :: e in order <==> e in groups
    ensures forall e | e in groups :: groups[e] == Filter(rows, e) && groups[e] != []
    ensures forall e | e !in groups :: Filter(rows, e) == []
  {
    forall e
      ensures e in order <==> e in groups
      ensures if e in groups then groups[e] == Filter(rows, e) && groups[e] != [] else Filter(rows, e) == []
    {
      assert GroupedAt(order, groups, rows, e);
    }
  }

  lemma GroupsStep(order: seq<string>, groups: map<string, seq<Row>>, rows: seq<Row>, i: nat,
                   order': seq<string>, groups': map<string, seq<Row>>)
    requires i < |rows| && Grouped(order, groups, rows[..i])
    requires var (e, r) := (rows[i].event, rows[i]);
             if e in groups then order' == order && groups' == groups[e := groups[e] + [r]]
             else order' == order + [e] && groups' == groups[e := [r]]
    ensures Grouped(order', groups', rows[..i + 1])
  {
    assert GroupedAt(order, groups, rows[..i], rows[i].event);
    var more := rows[..i + 1];
    forall e ensures GroupedAt(order', groups', more, e) {
      assert GroupedAt(order, groups, rows[..i], e);
      FilterStep(rows, i, e);
    }
  }

  method GroupByEvent(rows: seq<Row>) returns (order: seq<string>, groups: map<string, seq<Row>>)
    ensures Grouped(order, groups, rows)
  {
    order, groups := [], map[];
    for i := 0 to |rows|
      invariant Grouped(order, groups, rows[..i])
    {
      var r := rows[i];
      ghost var (order0, groups0) := (order, groups);
      if r.event in groups {
        groups := groups[r.event := groups[r.event] + [r]];
      } else {
        order, groups := order + [r.event], groups[r.event := [r]];
      }
      GroupsStep(order0, groups0, rows, i, order, groups);
    }
    assert rows[..|rows|] == rows;
  }

  // ----- one event of the run

  lemma StageSkip(t: Table, done: set<string>, pending: set<nat>, source: string, target: string, e: string)
    requires PlanOf(t, e, source, target) == Skip
    ensures Stage(t, done + {e}, pending, source, target) == Stage(t, done, pending, source, target)
  {
  }

  lemma StageLone(t: Table, done: set<string>, pending: set<nat>, source: string, target: string, e: string, id: nat)
    requires PlanOf(t, e, source, target) == RetagLone && Group(t, e) == {id} && e !in done
    ensures Stage(t, done + {e}, pending + {id}, source, target) == Stage(t, done, pending, source, target)
  {
    var a, b := Stage(t, done + {e}, pending + {id}, source, target), Stage(t, done, pending, source, target);
    forall x ensures x in a <==> x in b {
    }
    forall x | x in a ensures a[x] == b[x] {
      assert t[x].event == e ==> x in Group(t, e);
      assert id in Group(t, e);
    }
  }

  lemma StagePairKeys(t: Table, done: set<string>, source: string, target: string, e: string, w: nat, l: nat,
                      a: Table, b: Table)
    requires a == Stage(t, done + {e}, {w}, source, target) && b == Stage(t, done, {}, source, target) && e !in done
    requires Group(t, e) == {w, l} && w != l && w in t && l in t && Survives(t, w, source, target)
    requires !Survives(t, l, source, target)
    ensures a.Keys == b.Keys - {l}
  {
    forall x ensures x in a <==> x in b && x != l {
      assert x in t && t[x].event == e ==> x in Group(t, e);
      assert l in Group(t, e);
    }
  }

  lemma StagePair(t: Table, done: set<string>, source: string, target: string, e: string, w: nat, l: nat)
    requires PlanOf(t, e, source, target) == CollapsePair && e !in done
    requires w != l && Group(t, e) == {w, l} && w in t && l in t && Better(t[w], t[l])
    ensures Stage(t, done + {e}, {w}, source, target) == Stage(t, done, {}, source, target) - {l}
  {
    PairSurvivor(t, e, source, target, w, l);
    var a, b := Stage(t, done + {e}, {w}, source, target), Stage(t, done, {}, source, target);
    StagePairKeys(t, done, source, target, e, w, l, a, b);
    forall x | x in a ensures a[x] == b[x] {
      if t[x].event == e {
        assert x in Group(t, e);
      }
    }
  }

  ghost function EventsWith(t: Table, done: set<string>, source: string, target: string, plan: Plan): set<string> {
    set e | e in done && PlanOf(t, e, source, target) == plan
  }

  lemma EventsGrow(t: Table, done: set<string>, source: string, target: string, plan: Plan, e: string)
    requires e !in done
    ensures |EventsWith(t, done + {e}, source, target, plan)|
         == |EventsWith(t, done, source, target, plan)| + if PlanOf(t, e, source, target) == plan then 1 else 0
  {
    if PlanOf(t, e, source, target) == plan {
      assert EventsWith(t, done + {e}, source, target, plan) == EventsWith(t, done, source, target, plan) + {e};
    } else {
      assert EventsWith(t, done + {e}, source, target, plan) == EventsWith(t, done, source, target, plan);
    }
  }

  lemma PairOfGroup(t: Table, group: seq<Row>, e: string, source: string, target: string)
    requires Ids(group) == Group(t, e) && |group| == 2 && group[0].id != group[1].id
    requires forall r | r in group :: r.id in t && t[r.id] == r
    ensures var (w, l) := PickWinner(group[0], group[1]);
            w.id != l.id && w.id in t && l.id in t && Group(t, e) == {w.id, l.id} && Better(t[w.id], t[l.id])
  {
    assert group[0] in group && group[1] in group;
    WinnerIsBetter(group[0], group[1]);
    BetterIsStrictTotalOrder(group[0], group[1], group[0]);
    assert Ids(group) == {group[0].id, group[1].id};
  }

  lemma LoneOfGroup(t: Table, group: seq<Row>, e: string)
    requires Unique(t) && Ids(group) == Group(t, e) && group != [] && |Accounts(t, e)| == 1
    ensures Group(t, e) == {group[0].id}
  {
    assert group[0].id in Group(t, e) by {
      assert group[0] in group;
    }
    forall id | id in Group(t, e) ensures id == group[0].id {
      SoleAccount(t, e, id, group[0].id);
    }
  }

  // ----- the run

  datatype Stats = Stats(pairs: nat, lone: nat, deleted: nat, retagged: nat)

  /** The better row of the pair has another account than the target. */
  ghost predicate WinnerElsewhere(t: Table, e: string, target: string) {
    exists w, l | w in t && l in t :: Group(t, e) == {w, l} && Better(t[w], t[l]) && t[w].account != target
  }

  ghost function WinnersMoved(t: Table, done: set<string>, source: string, target: string): set<string> {
    set e | e in done && PlanOf(t, e, source, target) == CollapsePair && WinnerElsewhere(t, e, target)
  }

  lemma WinnerIsElsewhere(t: Table, e: string, target: string, w: nat, l: nat)
    requires w in t && l in t && Group(t, e) == {w, l} && Better(t[w], t[l])
    ensures WinnerElsewhere(t, e, target) <==> t[w].account != target
  {
    if w', l' :| w' in t && l' in t && Group(t, e) == {w', l'} && Better(t[w'], t[l']) && t[w'].account != target {
      assert w' in {w, l} && l' in {w, l};
      BetterIsStrictTotalOrder(t[w], t[l], t[w]);
    }
  }

  /** What the counters say after the events in `done`. */
  ghost function CountsOf(t: Table, done: set<string>, source: string, target: string): Stats {
    var pairs := |EventsWith(t, done, source, target, CollapsePair)|;
    Stats(pairs, |EventsWith(t, done, source, target, RetagLone)|, pairs, |WinnersMoved(t, done, source, target)|)
  }

  ghost predicate Counted(stats: Stats, t: Table, done: set<string>, source: string, target: string) {
    stats == CountsOf(t, done, source, target)
  }

  lemma WinnersMovedGrow(t: Table, done: set<string>, source: string, target: string, e: string, moves: bool)
    requires e !in done && (moves <==> PlanOf(t, e, source, target) == CollapsePair && WinnerElsewhere(t, e, target))
    ensures |WinnersMoved(t, done + {e}, source, target)| ==
            |WinnersMoved(t, done, source, target)| + if moves then 1 else 0
  {
    if moves {
      assert WinnersMoved(t, done + {e}, source, target) == WinnersMoved(t, done, source, target) + {e};
    } else {
      assert WinnersMoved(t, done + {e}, source, target) == WinnersMoved(t, done, source, target);
    }
  }

  /** The counters after one more event. */
  function CountMore(s: Stats, plan: Plan, moves: bool): Stats {
    match plan
    case Skip => s
    case RetagLone => s.(lone := s.lone + 1)
    case CollapsePair => Stats(s.pairs + 1, s.lone, s.deleted + 1, if moves then s.retagged + 1 else s.retagged)
  }

  lemma CountsGrow(t: Table, done: set<string>, source: string, target: string, e: string, plan: Plan, moves: bool)
    requires e !in done && plan == PlanOf(t, e, source, target)
    requires plan == CollapsePair ==> (moves <==> WinnerElsewhere(t, e, target))
    ensures CountsOf(t, done + {e}, source, target) == CountMore(CountsOf(t, done, source, target), plan, moves)
  {
    EventsGrow(t, done, source, target, CollapsePair, e);
    EventsGrow(t, done, source, target, RetagLone, e);
    WinnersMovedGrow(t, done, source, target, e, plan == CollapsePair && moves);
  }

  // ----- the counters, read off the rows

  /** Each of the events has exactly one of the rows. */
  ghost predicate OneEach(t: Table, ids: set<nat>, events: set<string>) {
    && (forall id | id in ids :: id in t && t[id].event in events)
    && (forall e | e in events :: exists id :: id in ids && id in t && t[id].event == e)
    && (forall i, j | i in ids && j in ids && i in t && j in t && t[i].event == t[j].event :: i == j)
  }

  lemma {:induction false} OneEachCounts(t: Table, ids: set<nat>, events: set<string>)
    requires OneEach(t, ids, events)
    ensures |ids| == |events|
    decreases |ids|
  {
    if id :| id in ids {
      var fewer, others := ids - {id}, events - {t[id].event};
      forall e | e in others ensures exists i :: i in fewer && i in t && t[i].event == e {
        var i :| i in ids && i in t && t[i].event == e;
        assert i in fewer;
      }
      OneEachCounts(t, fewer, others);
    } else {
      assert events == {};
    }
  }

  /** The rows that are not there any more. */
  ghost function Gone(t: Table, s: Table): set<nat> { set id | id in t && id !in s }

  /** The rows that were the only ones of their event, and under the stale account. */
  ghost function Lone(t: Table, source: string): set<nat> {
    set id | id in t && t[id].account == source && AtMost(t, t[id].event, id, id)
  }

  /** The rows that are left of two, and were not under the target. */
  ghost function Moved(t: Table, s: Table, target: string): set<nat> {
    set id | id in t && id in s && t[id].account != target && exists l :: l in Gone(t, s) && t[l].event == t[id].event
  }

  /** Of a pair one row is left and the other gone. */
  lemma PairLeft(t: Table, e: string, source: string, target: string, s: Table) returns (w: nat, l: nat)
    requires WellKeyed(t) && PlanOf(t, e, source, target) == CollapsePair && s == Outcome(t, source, target)
    ensures w in t && l in t && t[w].event == e && t[l].event == e && w in s && l in Gone(t, s)
    ensures forall id | id in t && t[id].event == e :: id == w || id == l
    ensures WinnerElsewhere(t, e, target) <==> t[w].account != target
  {
    w, l := PairInOrder(t, e, source, target);
    PairSurvivor(t, e, source, target, w, l);
    WinnerIsElsewhere(t, e, target, w, l);
    forall id | id in t && t[id].event == e ensures id == w || id == l {
      assert id in Group(t, e);
    }
  }

  lemma GoneIsOfPair(t: Table, source: string, target: string, s: Table, id: nat)
    requires s == Outcome(t, source, target) && id in Gone(t, s)
    ensures t[id].event in EventsWith(t, Events(t), source, target, CollapsePair)
  {
    assert !Survives(t, id, source, target);
    assert t[id].event in Events(t);
  }

  lemma GoneEach(t: Table, source: string, target: string, s: Table, pairs: set<string>)
    requires WellKeyed(t) && s == Outcome(t, source, target)
    requires pairs == EventsWith(t, Events(t), source, target, CollapsePair)
    ensures OneEach(t, Gone(t, s), pairs)
  {
    forall e | e in pairs ensures exists id :: id in Gone(t, s) && id in t && t[id].event == e {
      var w, l := PairLeft(t, e, source, target, s);
    }
    forall id | id in Gone(t, s) ensures t[id].event in pairs {
      GoneIsOfPair(t, source, target, s, id);
    }
    forall i, j | i in Gone(t, s) && j in Gone(t, s) && t[i].event == t[j].event ensures i == j {
      GoneIsOfPair(t, source, target, s, i);
      var w, l := PairLeft(t, t[i].event, source, target, s);
    }
  }

  lemma LoneEach(t: Table, source: string, target: string)
    requires Unique(t)
    ensures OneEach(t, Lone(t, source), EventsWith(t, Events(t), source, target, RetagLone))
  {
    var lone := EventsWith(t, Events(t), source, target, RetagLone);
    forall e | e in lone ensures exists id :: id in Lone(t, source) && id in t && t[id].event == e {
      assert source in Accounts(t, e);
      var id :| id in Group(t, e) && t[id].account == source;
      forall j | j in t && t[j].event == e ensures j == id {
        SoleAccount(t, e, id, j);
      }
      assert id in Lone(t, source);
    }
    forall id | id in Lone(t, source) ensures t[id].event in lone {
      LoneGroup(t, t[id].event, id);
      assert t[id].event in Events(t);
    }
  }

  lemma WinnerIsMoved(t: Table, source: string, target: string, s: Table, e: string) returns (w: nat)
    requires WellKeyed(t) && s == Outcome(t, source, target) && e in WinnersMoved(t, Events(t), source, target)
    ensures w in Moved(t, s, target) && t[w].event == e
  {
    var l;
    w, l := PairLeft(t, e, source, target, s);
  }

  lemma MovedIsWinner(t: Table, source: string, target: string, s: Table, id: nat) returns (w: nat)
    requires WellKeyed(t) && s == Outcome(t, source, target) && id in Moved(t, s, target)
    ensures t[id].event in WinnersMoved(t, Events(t), source, target)
    ensures w == id && forall j | j in Moved(t, s, target) && t[j].event == t[id].event :: j == w
  {
    var gone :| gone in Gone(t, s) && t[gone].event == t[id].event;
    GoneIsOfPair(t, source, target, s, gone);
    var l;
    w, l := PairLeft(t, t[id].event, source, target, s);
  }

  lemma MovedEach(t: Table, source: string, target: string, s: Table, moved: set<nat>, winners: set<string>)
    requires WellKeyed(t) && s == Outcome(t, source, target)
    requires moved == Moved(t, s, target) && winners == WinnersMoved(t, Events(t), source, target)
    ensures OneEach(t, moved, winners)
  {
    forall e | e in winners ensures exists id :: id in moved && id in t && t[id].event == e {
      var w := WinnerIsMoved(t, source, target, s, e);
    }
    forall id | id in moved
      ensures t[id].event in winners && forall j | j in moved && t[j].event == t[id].event :: j == id
    {
      var w := MovedIsWinner(t, source, target, s, id);
    }
  }

  /**
   * Pairs and deletions are the rows that are gone, lone rows those alone under the stale account, and
   * retagged winners those left of a pair that were not under the target.
   */
  lemma CountersMean(t: Table, source: string, target: string, s: Table, stats: Stats)
    requires WellKeyed(t) && Unique(t) && s == Outcome(t, source, target)
    requires Counted(stats, t, Events(t), source, target)
    ensures stats == Stats(|Gone(t, s)|, |Lone(t, source)|, |Gone(t, s)|, |Moved(t, s, target)|)
  {
    var pairs := EventsWith(t, Events(t), source, target, CollapsePair);
    var winners := WinnersMoved(t, Events(t), source, target);
    GoneEach(t, source, target, s, pairs);
    LoneEach(t, source, target);
    MovedEach(t, source, target, s, Moved(t, s, target), winners);
    OneEachCounts(t, Gone(t, s), pairs);
    OneEachCounts(t, Lone(t, source), EventsWith(t, Events(t), source, target, RetagLone));
    OneEachCounts(t, Moved(t, s, target), winners);
  }

  /** The database has reached the stage, and what is pending is due: its event is dealt with and not skipped. */
  ghost predicate Reached(t: Table, done: set<string>, pending: set<nat>, source: string, target: string, s: Table) {
    && s == Stage(t, done, pending, source, target) && pending <= s.Keys
    && forall id | id in pending :: id in t && t[id].event in done && PlanOf(t, t[id].event, source, target) != Skip
  }

  lemma ReachedBySkip(t: Table, done: set<string>, pending: set<nat>, source: string, target: string, s: Table,
                      e: string)
    requires Reached(t, done, pending, source, target, s) && PlanOf(t, e, source, target) == Skip
    ensures Reached(t, done + {e}, pending, source, target, s)
  {
    StageSkip(t, done, pending, source, target, e);
  }

  lemma ReachedByLone(t: Table, done: set<string>, pending: set<nat>, source: string, target: string, s: Table,
                      e: string, id: nat)
    requires Reached(t, done, pending, source, target, s) && PlanOf(t, e, source, target) == RetagLone
    requires Group(t, e) == {id} && e !in done
    ensures Reached(t, done + {e}, pending + {id}, source, target, s)
  {
    StageLone(t, done, pending, source, target, e, id);
    assert id in Group(t, e);
    assert id in s;
  }

  lemma ReachedByPair(t: Table, done: set<string>, source: string, target: string, s: Table, e: string, w: nat, l: nat)
    requires s == Stage(t, done, {}, source, target) && PlanOf(t, e, source, target) == CollapsePair && e !in done
    requires w != l && Group(t, e) == {w, l} && w in t && l in t && Better(t[w], t[l])
    ensures Reached(t, done + {e}, {w}, source, target, s - {l})
  {
    StagePair(t, done, source, target, e, w, l);
    assert w in Group(t, e);
    assert w in s;
  }

  /** A pair is collapsed at once: what is pending is written, the loser deleted, and the winner becomes pending. */
  method SettlePair(db: Database, winner: Row, loser: Row, ghost e: string, source: string, target: string,
                    pending: set<nat>, ghost t: Table, ghost done: set<string>)
    returns (pending': set<nat>, ok: bool)
    requires Unique(t) && e !in done && PlanOf(t, e, source, target) == CollapsePair
    requires winner.id != loser.id && winner.id in t && loser.id in t && Group(t, e) == {winner.id, loser.id}
    requires Better(t[winner.id], t[loser.id]) && Reached(t, done, pending, source, target, db.table)
    modifies db
    ensures ok && Reached(t, done + {e}, pending', source, target, db.table)
  {
    ok := db.Flush(pending, source, target, t, done);
    ReachedByPair(t, done, source, target, db.table, e, winner.id, loser.id);
    db.Delete(loser.id);
    pending' := {winner.id};
  }

  /** One event: what the plan says is noted down, and a pair is collapsed at once. */
  method SettleEvent(db: Database, group: seq<Row>, e: string, source: string, target: string, apply: bool,
                     pending: set<nat>, stats: Stats, ghost t: Table, ghost done: set<string>)
    returns (pending': set<nat>, stats': Stats, ok: bool)
    requires WellKeyed(t) && Unique(t) && e !in done && group != []
    requires Ids(group) == Group(t, e) && |group| == |Group(t, e)| && Distinct(group)
    requires forall r | r in group :: r.id in t && t[r.id] == r
    requires (set r | r in group :: r.account) == Accounts(t, e)
    requires Counted(stats, t, done, source, target)
    requires apply ==> Reached(t, done, pending, source, target, db.table)
    modifies db
    ensures ok && Counted(stats', t, done + {e}, source, target)
    ensures !apply ==> db.table == old(db.table)
    ensures apply ==> Reached(t, done + {e}, pending', source, target, db.table)
  {
    pending', stats', ok := pending, stats, true;
    var accounts := set r | r in group :: r.account;
    if |accounts| == 1 {
      CountsGrow(t, done, source, target, e, if accounts == {source} then RetagLone else Skip, false);
      if accounts == {source} {
        LoneOfGroup(t, group, e);
        stats' := stats.(lone := stats.lone + 1);
        if apply {
          ReachedByLone(t, done, pending, source, target, db.table, e, group[0].id);
          pending' := pending + {group[0].id};
        }
      } else if apply {
        ReachedBySkip(t, done, pending, source, target, db.table, e);
      }
      return;
    }
    if |group| != 2 || accounts != {source, target} {
      CountsGrow(t, done, source, target, e, Skip, false);
      if apply {
        ReachedBySkip(t, done, pending, source, target, db.table, e);
      }
      return;
    }
    var (winner, loser) := PickWinner(group[0], group[1]);
    PairOfGroup(t, group, e, source, target);
    WinnerIsElsewhere(t, e, target, winner.id, loser.id);
    CountsGrow(t, done, source, target, e, CollapsePair, winner.account != target);
    stats' := stats.(pairs := stats.pairs + 1, deleted := stats.deleted + 1);
    if winner.account != target {
      stats' := stats'.(retagged := stats'.retagged + 1);
    }
    if apply {
      pending', ok := SettlePair(db, winner, loser, e, source, target, pending, t, done);
    }
  }

  ghost function Events(t: Table): set<string> { set id | id in t :: t[id].event }

  lemma AllDone(t: Table, done: set<string>, source: string, target: string)
    requires Events(t) <= done
    ensures Stage(t, done, {}, source, target) == Outcome(t, source, target)
  {
    forall id | id in t ensures t[id].event in done {
      assert t[id].event in Events(t);
    }
  }

  lemma EventsAreGrouped(order: seq<string>, groups: map<string, seq<Row>>, rows: seq<Row>, t: Table)
    requires Grouped(order, groups, rows) && Lists(rows, t) && WellKeyed(t)
    ensures Elements(order) == Events(t)
  {
    GroupedMeans(order, groups, rows);
    forall e ensures e in order <==> e in Events(t) {
      FilterIsGroup(rows, t, e);
      if e in order {
        assert Filter(rows, e)[0] in Filter(rows, e);
      }
      if e in Events(t) {
        var id :| id in t && t[id].event == e;
        assert id in Group(t, e);
      }
    }
  }

  function Candidates(rows: seq<Row>, source: string): set<string> {
    set r | r in rows && r.account != "" && r.account != source :: r.account
  }

  /** Some row has this account, and no row has any other but the stale one and the empty one. */
  ghost predicate SoleOther(rows: seq<Row>, source: string, account: string) {
    && account != "" && account != source && (exists r :: r in rows && r.account == account)
    && forall r | r in rows :: r.account == account || r.account == source || r.account == ""
  }

  lemma SoleOtherIsCandidate(rows: seq<Row>, source: string)
    ensures |Candidates(rows, source)| == 1 <==> exists account :: SoleOther(rows, source, account)
  {
    var c := Candidates(rows, source);
    if |c| == 1 {
      var account :| account in c;
      SoleElement(c, account);
      assert forall r | r in rows && r.account != "" && r.account != source :: r.account in c;
      assert SoleOther(rows, source, account);
    }
    if account :| SoleOther(rows, source, account) {
      assert c == {account};
    }
  }

  /** The one account besides the stale one, if there is exactly one; otherwise nothing. */
  method ResolveTarget(rows: seq<Row>, source: string) returns (target: string)
    ensures if |Candidates(rows, source)| == 1 then Candidates(rows, source) == {target} else target == ""
    ensures target != "" ==> target != source && exists r :: r in rows && r.account == target
    ensures target != "" <==> exists account :: SoleOther(rows, source, account)
  {
    SoleOtherIsCandidate(rows, source);
    var others := Candidates(rows, source);
    if |others| == 1 {
      var account :| account in others;
      SoleElement(others, account);
      return account;
    }
    target := "";
  }

  lemma SoleElement<T>(s: set<T>, a: T)
    requires |s| == 1 && a in s
    ensures s == {a}
  {
    forall x | x in s ensures x == a {
      OneElement(s, x, a);
    }
  }

  /** Without a target given or found, the run stops before it touches anything. */
  method MigrateProvider(db: Database, rows: seq<Row>, source: string, accountId: string, apply: bool)
    returns (resolved: string, stats: Stats, ok: bool)
    requires WellKeyed(db.table) && Unique(db.table) && Lists(rows, db.table)
    modifies db
    ensures ok
    ensures resolved == "" <==> accountId == "" && |Candidates(rows, source)| != 1
    ensures accountId != "" ==> resolved == accountId
    ensures accountId == "" && resolved != "" ==> Candidates(rows, source) == {resolved}
    ensures db.table == if apply && resolved != "" then Outcome(old(db.table), source, resolved) else old(db.table)
    ensures resolved != "" ==> Counted(stats, old(db.table), Events(old(db.table)), source, resolved)
  {
    resolved := accountId;
    if resolved == "" {
      resolved := ResolveTarget(rows, source);
    }
    stats, ok := Stats(0, 0, 0, 0), true;
    if resolved == "" {
      return;
    }
    stats, ok := Migrate(db, rows, source, resolved, apply);
  }

  /**
   * The whole run. It never meets a taken slot; applied, it leaves the outcome, and the dry run counts
   * the same pairs and lone rows without touching the table.
   */
  method Migrate(db: Database, rows: seq<Row>, source: string, target: string, apply: bool)
    returns (stats: Stats, ok: bool)
    requires WellKeyed(db.table) && Unique(db.table) && Lists(rows, db.table) && target != ""
    modifies db
    ensures ok && db.table == if apply then Outcome(old(db.table), source, target) else old(db.table)
    ensures Counted(stats, old(db.table), Events(old(db.table)), source, target)
  {
    ghost var t := db.table;
    var order, groups := GroupByEvent(rows);
    EventsAreGrouped(order, groups, rows, t);
    var events := Sort(order, StringLeq);
    SortedIsDistinct(order, events);
    SortedKeys(order, groups, rows, events);
    ghost var done := Events(t);
    var pending;
    pending, stats, ok := SettleAll(db, rows, events, groups, source, target, apply);
    if apply {
      ok := db.Flush(pending, source, target, t, done);
      AllDone(t, done, source, target);
    }
  }

  ghost function Elements(events: seq<string>): set<string> { set e | e in events }

  lemma ElementsStep(events: seq<string>, i: nat)
    requires i < |events|
    ensures Elements(events[..i + 1]) == Elements(events[..i]) + {events[i]}
  {
    assert events[..i + 1] == events[..i] + [events[i]];
  }

  lemma NotYet(events: seq<string>, i: nat)
    requires i < |events| && NoRepeats(events)
    ensures events[i] !in Elements(events[..i])
  {
  }

  lemma NothingDone(t: Table, source: string, target: string)
    ensures Counted(Stats(0, 0, 0, 0), t, {}, source, target) && Reached(t, {}, {}, source, target, t)
  {
    assert EventsWith(t, {}, source, target, CollapsePair) == {};
    assert EventsWith(t, {}, source, target, RetagLone) == {};
    assert WinnersMoved(t, {}, source, target) == {};
    assert Stage(t, {}, {}, source, target) == t;
  }

  /** The loop over the sorted groups. */
  method SettleAll(db: Database, rows: seq<Row>, events: seq<string>, groups: map<string, seq<Row>>,
                   source: string, target: string, apply: bool)
    returns (pending: set<nat>, stats: Stats, ok: bool)
    requires WellKeyed(db.table) && Unique(db.table) && Lists(rows, db.table)
    requires NoRepeats(events)
    requires KeysOf(events, groups, rows)
    modifies db
    ensures ok && Counted(stats, old(db.table), Elements(events), source, target)
    ensures !apply ==> db.table == old(db.table)
    ensures apply ==> Reached(old(db.table), Elements(events), pending, source, target, db.table)
  {
    ghost var t := db.table;
    NothingDone(t, source, target);
    pending, stats, ok := {}, Stats(0, 0, 0, 0), true;
    assert Elements(events[..0]) == {};
    for i := 0 to |events|
      invariant ok && Counted(stats, t, Elements(events[..i]), source, target)
      invariant !apply ==> db.table == t
      invariant apply ==> Reached(t, Elements(events[..i]), pending, source, target, db.table)
    {
      var e := events[i];
      FilterIsGroup(rows, t, e);
      ElementsStep(events, i);
      NotYet(events, i);
      pending, stats, ok :=
        SettleEvent(db, groups[e], e, source, target, apply, pending, stats, t, Elements(events[..i]));
    }
    assert events[..|events|] == events;
  }

  ghost predicate NoRepeats(names: seq<string>) {
    forall i, j | 0 <= i < j < |names| :: names[i] != names[j]
  }

  lemma SortedIsDistinct(order: seq<string>, events: seq<string>)
    requires events == Sort(order, StringLeq) && NoRepeats(order)
    ensures Elements(events) == Elements(order) && NoRepeats(events)
  {
    SameElements(events, order);
    forall i, j | 0 <= i < j < |events| ensures events[i] != events[j] {
      OnceOnly(order, events[i]);
      CountedTwice(events, i, j);
    }
  }

  ghost predicate KeysOf(events: seq<string>, groups: map<string, seq<Row>>, rows: seq<Row>) {
    forall i | 0 <= i < |events| ::
      events[i] in groups && groups[events[i]] == Filter(rows, events[i]) && groups[events[i]] != []
  }

  lemma SortedKeys(order: seq<string>, groups: map<string, seq<Row>>, rows: seq<Row>, events: seq<string>)
    requires Grouped(order, groups, rows) && Elements(events) == Elements(order)
    ensures KeysOf(events, groups, rows)
  {
    GroupedMeans(order, groups, rows);
    forall i | 0 <= i < |events| ensures events[i] in groups {
      assert events[i] in Elements(events);
    }
  }

  lemma CountedTwice(names: seq<string>, i: nat, j: nat)
    requires i < j < |names| && multiset(names)[names[i]] <= 1
    ensures names[i] != names[j]
  {
    var before, rest := names[..j], names[j..];
    assert names == before + rest;
    assert before[i] in before && rest[0] in rest;
  }

  lemma {:induction false} OnceOnly(order: seq<string>, e: string)
    requires NoRepeats(order)
    ensures multiset(order)[e] <= 1
    ensures e in order <==> multiset(order)[e] == 1
  {
    if order != [] {
      var n := |order| - 1;
      OnceOnly(order[..n], e);
      assert order == order[..n] + [order[n]];
    }
  }
}
