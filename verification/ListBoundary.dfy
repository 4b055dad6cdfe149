/**
 * `scripts/claude_cloud_list_boundary.py`: counts over the first twenty entries of a session list, and
 * the relations that `scripts/verify_claude_cloud.py` demands of them. Identifiers never leave the
 * module in the clear; duplicates are counted on keyed digests.
 */
module ListBoundary {
  import opened Json

  datatype Option<T> = None | Some(value: T)

  datatype Kind =
    | MissingKind | NullKind | BooleanKind | NumberKind | StringKind | ArrayKind | ObjectKind | NotObjectKind

  const KINDS: set<Kind> :=
    {MissingKind, NullKind, BooleanKind, NumberKind, StringKind, ArrayKind, ObjectKind, NotObjectKind}

  /** A keyed digest, taken as symbolic: different keys, domains or values have different digests. */
  datatype Digest = Digest(key: seq<int>, domain: string, value: Json)

  function KindOf(v: Json): Kind {
    match v
    case Null => NullKind
    case Bool(_) => BooleanKind
    case Int(_) => NumberKind
    case Float(_) => NumberKind
    case Str(_) => StringKind
    case Arr(_) => ArrayKind
    case Obj(_) => ObjectKind
  }

  predicate IdChar(c: char) { 'A' <= c <= 'Z' || 'a' <= c <= 'z' || '0' <= c <= '9' || c == '_' || c == '-' }

  predicate IsSessionId(v: Json) { v.Str? && 1 <= |v.s| <= 128 && forall i | 0 <= i < |v.s| :: IdChar(v.s[i]) }

  datatype CursorState = CursorMissing | CursorNull | CursorEmpty | CursorNonempty | CursorInvalid

  datatype MoreState = MoreMissing | MoreTrue | MoreFalse | MoreInvalid

  datatype Observation = Observation(
    topLevel: Kind, data: Kind, records: Option<nat>, overLimit: bool, checked: nat, idKinds: map<Kind, nat>,
    valid: nat, invalid: int, duplicates: int, seenBefore: nat,
    cursor: CursorState, supported: bool, repeated: Option<bool>, more: MoreState)

  // ----- one entry of the list

  function EntryKind(row: Json): Kind {
    if !row.Obj? then NotObjectKind
    else if !Has(row.members, "id") then MissingKind
    else KindOf(Get(row.members, "id"))
  }

  predicate HasValidId(row: Json) { row.Obj? && Has(row.members, "id") && IsSessionId(Get(row.members, "id")) }

  /** The valid identifiers, in order. */
  function ValidIds(rows: seq<Json>): seq<Json> {
    if rows == [] then []
    else ValidIds(rows[..|rows| - 1])
         + if HasValidId(rows[|rows| - 1]) then [Get(rows[|rows| - 1].members, "id")] else []
  }

  function CountKind(rows: seq<Json>, k: Kind): nat {
    if rows == [] then 0
    else CountKind(rows[..|rows| - 1], k) + if EntryKind(rows[|rows| - 1]) == k then 1 else 0
  }

  ghost predicate KindsExact(kinds: map<Kind, nat>, rows: seq<Json>) {
    forall k: Kind :: k in kinds && kinds[k] == CountKind(rows, k)
  }

  function SessionDigest(key: seq<int>, id: Json): Digest { Digest(key, "listed-session", id) }

  function Digests(key: seq<int>, ids: seq<Json>): seq<Digest> {
    seq(|ids|, i requires 0 <= i < |ids| => SessionDigest(key, ids[i]))
  }

  lemma KindsBumped(kinds: map<Kind, nat>, rows: seq<Json>, row: Json)
    requires KindsExact(kinds, rows)
    ensures KindsExact(kinds[EntryKind(row) := kinds[EntryKind(row)] + 1], rows + [row])
  {
    assert (rows + [row])[..|rows|] == rows;
  }

  lemma IdsGrow(rows: seq<Json>, row: Json, key: seq<int>)
    ensures ValidIds(rows + [row]) == ValidIds(rows) + if HasValidId(row) then [Get(row.members, "id")] else []
    ensures Digests(key, ValidIds(rows + [row]))
         == Digests(key, ValidIds(rows))
            + if HasValidId(row) then [SessionDigest(key, Get(row.members, "id"))] else []
  {
    assert (rows + [row])[..|rows|] == rows;
  }

  function CursorStateOf(root: seq<(string, Json)>): CursorState {
    var cursor := Get(root, "next_cursor");
    if !Has(root, "next_cursor") then CursorMissing
    else if cursor == Null then CursorNull
    else if cursor == Str("") then CursorEmpty
    else if cursor.Str? && |cursor.s| <= 2048 && forall i | 0 <= i < |cursor.s| :: cursor.s[i] as int >= 32
    then CursorNonempty
    else CursorInvalid
  }

  function MoreStateOf(root: seq<(string, Json)>): MoreState {
    var more := Get(root, "has_more");
    if !Has(root, "has_more") then MoreMissing
    else if more == Bool(true) then MoreTrue
    else if more == Bool(false) then MoreFalse
    else MoreInvalid
  }

  function Min(a: nat, b: nat): nat { if a < b then a else b }

  function Root(payload: Json): seq<(string, Json)> { if payload.Obj? then payload.members else [] }

  function Rows(payload: Json): seq<Json> {
    var data := Get(Root(payload), "data");
    if data.Arr? then data.items else []
  }

  function Checked(payload: Json): seq<Json> { Rows(payload)[..Min(|Rows(payload)|, 20)] }

  /** How often a value of `ids` has been met, by its digest. */
  function CountSeen(digests: seq<Digest>, seen: set<Digest>): nat {
    if digests == [] then 0
    else CountSeen(digests[..|digests| - 1], seen) + if digests[|digests| - 1] in seen then 1 else 0
  }

  datatype Outcome = Observed(o: Observation) | InvalidLedgerKey

  /** What the observation says of the payload. */
  ghost predicate Describes(o: Observation, payload: Json, key: seq<int>, sessions: set<Digest>, cursors: set<Digest>) {
    var root, rows := Root(payload), Rows(payload);
    var ids := ValidIds(Checked(payload));
    && o.topLevel == KindOf(payload)
    && o.data == (if !payload.Obj? then NotObjectKind
                  else if Has(root, "data") then KindOf(Get(root, "data")) else MissingKind)
    && o.records == (if Get(root, "data").Arr? then Some(|rows|) else None)
    && o.overLimit == (|rows| > 20)
    && o.checked == Min(|rows|, 20)
    && KindsExact(o.idKinds, Checked(payload))
    && o.valid == |ids|
    && o.invalid == o.checked - |ids|
    && o.duplicates == |ids| - |Elements(ids)|
    && o.seenBefore == CountSeen(Digests(key, ids), sessions)
    && o.cursor == CursorStateOf(root)
    && o.supported == (o.cursor == CursorNull || o.cursor == CursorNonempty)
    && o.repeated == (if o.cursor == CursorNonempty
                      then Some(Digest(key, "cursor", Arr([Str("listing"), Get(root, "next_cursor")])) in cursors)
                      else None)
    && o.more == MoreStateOf(root)
  }

  function Elements<T>(xs: seq<T>): set<T> { set x | x in xs }

  lemma ElementsGrow<T>(xs: seq<T>, x: T)
    ensures Elements(xs + [x]) == Elements(xs) + {x}
  {
  }

  lemma DigestsSplit(key: seq<int>, ids: seq<Json>)
    requires ids != []
    ensures var n := |ids| - 1;
            Digests(key, ids) == Digests(key, ids[..n]) + [SessionDigest(key, ids[n])] && ids == ids[..n] + [ids[n]]
  {
  }

  /** Digests tell identifiers apart, so counting distinct digests counts distinct identifiers. */
  lemma {:induction false} DistinctDigests(key: seq<int>, ids: seq<Json>)
    ensures |Elements(Digests(key, ids))| == |Elements(ids)|
  {
    if ids == [] {
      assert Elements(Digests(key, ids)) == {} && Elements(ids) == {};
    } else {
      var n := |ids| - 1;
      var before, d := Digests(key, ids[..n]), SessionDigest(key, ids[n]);
      DistinctDigests(key, ids[..n]);
      DigestsSplit(key, ids);
      ElementsGrow(before, d);
      ElementsGrow(ids[..n], ids[n]);
      SameMembership(key, ids[..n], ids[n]);
    }
  }

  lemma SameMembership(key: seq<int>, ids: seq<Json>, id: Json)
    ensures SessionDigest(key, id) in Digests(key, ids) <==> id in ids
  {
    var ds := Digests(key, ids);
    if id in ids {
      var i :| 0 <= i < |ids| && ids[i] == id;
      assert ds[i] == SessionDigest(key, id);
    }
  }

  /** One row: its kind is counted, and a session id is digested. */
  method CountRow(before: map<Kind, nat>, digests: seq<Digest>, key: seq<int>, row: Json, ghost rows: seq<Json>)
    returns (kinds: map<Kind, nat>, valid: seq<Digest>)
    requires KindsExact(before, rows) && digests == Digests(key, ValidIds(rows))
    ensures KindsExact(kinds, rows + [row]) && valid == Digests(key, ValidIds(rows + [row]))
  {
    kinds, valid := before, digests;
    KindsBumped(kinds, rows, row);
    IdsGrow(rows, row, key);
    if !row.Obj? {
      kinds := kinds[NotObjectKind := kinds[NotObjectKind] + 1];
    } else if !Has(row.members, "id") {
      kinds := kinds[MissingKind := kinds[MissingKind] + 1];
    } else {
      var value := Get(row.members, "id");
      kinds := kinds[KindOf(value) := kinds[KindOf(value)] + 1];
      if IsSessionId(value) {
        valid := valid + [SessionDigest(key, value)];
      }
    }
  }

  method CountKinds(checked: seq<Json>, key: seq<int>) returns (kinds: map<Kind, nat>, valid: seq<Digest>)
    ensures KindsExact(kinds, checked) && valid == Digests(key, ValidIds(checked))
  {
    kinds, valid := map k: Kind | k in KINDS :: 0, [];
    forall k: Kind ensures k in KINDS {
      match k {
        case MissingKind => case NullKind => case BooleanKind => case NumberKind => case StringKind =>
        case ArrayKind => case ObjectKind => case NotObjectKind =>
      }
    }
    for i := 0 to |checked|
      invariant KindsExact(kinds, checked[..i]) && valid == Digests(key, ValidIds(checked[..i]))
    {
      assert checked[..i + 1] == checked[..i] + [checked[i]];
      kinds, valid := CountRow(kinds, valid, key, checked[i], checked[..i]);
    }
    assert checked[..|checked|] == checked;
  }

  method CountSeenBefore(valid: seq<Digest>, sessions: set<Digest>) returns (n: nat)
    ensures n == CountSeen(valid, sessions)
  {
    n := 0;
    for i := 0 to |valid|
      invariant n == CountSeen(valid[..i], sessions)
    {
      assert valid[..i + 1][..i] == valid[..i];
      if valid[i] in sessions {
        n := n + 1;
      }
    }
    assert valid[..|valid|] == valid;
  }

  method ObserveListBoundary(payload: Json, key: seq<int>, sessions: set<Digest>, cursors: set<Digest>)
    returns (r: Outcome)
    ensures r.InvalidLedgerKey? <==> |key| != 32
    ensures r.Observed? ==> Describes(r.o, payload, key, sessions, cursors)
  {
    if |key| != 32 {
      return InvalidLedgerKey;
    }
    var root, rows := Root(payload), Rows(payload);
    var data := Get(root, "data");
    var checked := rows[..Min(|rows|, 20)];
    var kinds, valid := CountKinds(checked, key);
    DistinctDigests(key, ValidIds(checked));
    var distinct := Elements(valid);
    var seenBefore := CountSeenBefore(valid, sessions);
    var cursor := CursorStateOf(root);
    var repeated := None;
    if cursor == CursorNonempty {
      repeated := Some(Digest(key, "cursor", Arr([Str("listing"), Get(root, "next_cursor")])) in cursors);
    }
    var dataKind := if !payload.Obj? then NotObjectKind else if Has(root, "data") then KindOf(data) else MissingKind;
    r := Observed(Observation(
      KindOf(payload), dataKind, if data.Arr? then Some(|rows|) else None, |rows| > 20, |checked|, kinds,
      |valid|, |checked| - |valid|, |valid| - |distinct|, seenBefore,
      cursor, cursor == CursorNull || cursor == CursorNonempty, repeated, MoreStateOf(root)));
  }

  // ----- what the verifier demands

  const LIMIT := 0x8000_0000_0000_0000

  predicate UpTo20(n: int) { 0 <= n <= 20 }

  predicate KindsComplete(kinds: map<Kind, nat>) {
    && MissingKind in kinds && NullKind in kinds && BooleanKind in kinds && NumberKind in kinds
    && StringKind in kinds && ArrayKind in kinds && ObjectKind in kinds && NotObjectKind in kinds
  }

  function SumKinds(k: map<Kind, nat>): nat
    requires KindsComplete(k)
  {
    k[MissingKind] + k[NullKind] + k[BooleanKind] + k[NumberKind] + k[StringKind] + k[ArrayKind] + k[ObjectKind]
    + k[NotObjectKind]
  }

  predicate CountsAccepted(o: Observation) {
    && UpTo20(o.checked) && UpTo20(o.valid) && UpTo20(o.invalid) && UpTo20(o.duplicates) && UpTo20(o.seenBefore)
    && KindsComplete(o.idKinds) && SumKinds(o.idKinds) == o.checked
    && o.valid + o.invalid == o.checked
    && o.valid <= o.idKinds[StringKind]
    && o.duplicates <= (if o.valid > 1 then o.valid - 1 else 0)
    && o.seenBefore <= o.valid
  }

  predicate RecordsAccepted(o: Observation) {
    && o.checked == (if o.records.Some? then Min(o.records.value, 20) else 0)
    && (o.data == ArrayKind <==> o.records.Some?)
    && (o.overLimit <==> o.records.Some? && o.records.value > 20)
    && (o.topLevel == ObjectKind || o.data == NotObjectKind)
  }

  predicate CursorAccepted(o: Observation) {
    && (o.supported <==> o.cursor == CursorNull || o.cursor == CursorNonempty)
    && (o.repeated.Some? <==> o.cursor == CursorNonempty)
  }

  predicate BoundaryAccepted(o: Observation) {
    && (o.records.Some? ==> o.records.value < LIMIT)
    && CountsAccepted(o) && RecordsAccepted(o) && CursorAccepted(o)
  }

  // ----- and gets

  lemma {:induction false} KindsAddUp(rows: seq<Json>)
    ensures CountKind(rows, MissingKind) + CountKind(rows, NullKind) + CountKind(rows, BooleanKind)
            + CountKind(rows, NumberKind) + CountKind(rows, StringKind) + CountKind(rows, ArrayKind)
            + CountKind(rows, ObjectKind) + CountKind(rows, NotObjectKind) == |rows|
  {
    if rows != [] {
      KindsAddUp(rows[..|rows| - 1]);
    }
  }

  lemma {:induction false} ValidIdsAreStrings(rows: seq<Json>)
    ensures |ValidIds(rows)| <= CountKind(rows, StringKind) <= |rows|
  {
    if rows != [] {
      ValidIdsAreStrings(rows[..|rows| - 1]);
    }
  }

  lemma {:induction false} SeenAreSome(digests: seq<Digest>, seen: set<Digest>)
    ensures CountSeen(digests, seen) <= |digests|
  {
    if digests != [] {
      SeenAreSome(digests[..|digests| - 1], seen);
    }
  }

  lemma {:induction false} DistinctAtMost(ids: seq<Json>)
    ensures |Elements(ids)| <= |ids|
    ensures ids != [] ==> |Elements(ids)| >= 1
  {
    if ids == [] {
      assert Elements(ids) == {};
    } else {
      var n := |ids| - 1;
      DistinctAtMost(ids[..n]);
      assert ids == ids[..n] + [ids[n]];
      ElementsGrow(ids[..n], ids[n]);
    }
  }

  lemma KindsAreAccepted(kinds: map<Kind, nat>, rows: seq<Json>)
    requires KindsExact(kinds, rows)
    ensures KindsComplete(kinds) && SumKinds(kinds) == |rows| && |ValidIds(rows)| <= kinds[StringKind] <= |rows|
  {
    KindsAddUp(rows);
    ValidIdsAreStrings(rows);
  }

  lemma CountsAreAccepted(o: Observation, payload: Json, key: seq<int>, sessions: set<Digest>, cursors: set<Digest>)
    requires Describes(o, payload, key, sessions, cursors)
    ensures CountsAccepted(o)
  {
    var checked := Checked(payload);
    KindsAreAccepted(o.idKinds, checked);
    SeenAreSome(Digests(key, ValidIds(checked)), sessions);
    DistinctAtMost(ValidIds(checked));
  }

  lemma RecordsAreAccepted(o: Observation, payload: Json, key: seq<int>, sessions: set<Digest>, cursors: set<Digest>)
    requires Describes(o, payload, key, sessions, cursors)
    ensures RecordsAccepted(o)
  {
    if !Has(Root(payload), "data") {
      AbsentIsNull(Root(payload), "data");
    }
  }

  /** Every observation is accepted, as long as the number of entries itself fits the verifier's integers. */
  lemma ObservationIsAccepted(o: Observation, payload: Json, key: seq<int>, sessions: set<Digest>, cursors: set<Digest>)
    requires Describes(o, payload, key, sessions, cursors)
    ensures BoundaryAccepted(o) <==> |Rows(payload)| < LIMIT
  {
    CountsAreAccepted(o, payload, key, sessions, cursors);
    RecordsAreAccepted(o, payload, key, sessions, cursors);
  }

  // ----- what is counted, read off the list

  ghost predicate IsOfKind(v: Json, k: Kind) {
    match k
    case NullKind => v == Null
    case BooleanKind => v == Bool(true) || v == Bool(false)
    case NumberKind => (exists n :: v == Int(n)) || exists x :: v == Float(x)
    case StringKind => exists s :: v == Str(s)
    case ArrayKind => exists items :: v == Arr(items)
    case ObjectKind => exists m :: v == Obj(m)
    case _ => false
  }

  lemma KindMeans(v: Json, k: Kind)
    ensures KindOf(v) == k <==> IsOfKind(v, k)
  {
  }

  /** An entry is an object without an `id`, or no object, or of the kind of its `id`. */
  ghost predicate CountsAs(row: Json, k: Kind) {
    match k
    case NotObjectKind => forall m :: row != Obj(m)
    case MissingKind => exists m :: row == Obj(m) && !Has(m, "id")
    case _ => exists m :: row == Obj(m) && Has(m, "id") && IsOfKind(Get(m, "id"), k)
  }

  lemma EntryMeans(row: Json, k: Kind)
    ensures EntryKind(row) == k <==> CountsAs(row, k)
  {
    if row.Obj? {
      KindMeans(Get(row.members, "id"), k);
    }
  }

  /** Letters, digits, the underscore and the hyphen, by their codes. */
  predicate IsWordCode(n: int) { 65 <= n <= 90 || 97 <= n <= 122 || 48 <= n <= 57 || n == 95 || n == 45 }

  /** The entry names a session, by one to 128 such characters. */
  ghost predicate Names(row: Json, id: string) {
    && 1 <= |id| <= 128 && (forall i | 0 <= i < |id| :: IsWordCode(id[i] as int))
    && exists m :: row == Obj(m) && Get(m, "id") == Str(id)
  }

  ghost predicate NamesSome(row: Json) { exists id :: Names(row, id) }

  /** Its name is one whose digest was kept before. */
  ghost predicate NamesKnown(row: Json, key: seq<int>, sessions: set<Digest>) {
    exists id :: Names(row, id) && Digest(key, "listed-session", Str(id)) in sessions
  }

  lemma NameMeans(row: Json, id: string)
    ensures HasValidId(row) && Get(row.members, "id") == Str(id) <==> Names(row, id)
  {
    if row.Obj? && !Has(row.members, "id") {
      AbsentIsNull(row.members, "id");
    }
  }

  lemma SomeNameMeans(row: Json)
    ensures HasValidId(row) <==> NamesSome(row)
    ensures HasValidId(row) ==> Names(row, Get(row.members, "id").s)
  {
    if HasValidId(row) {
      NameMeans(row, Get(row.members, "id").s);
    }
    if id :| Names(row, id) {
      NameMeans(row, id);
    }
  }

  /** The places of the rows that the predicate holds of. */
  ghost function Which(rows: seq<Json>, p: Json -> bool): set<nat> {
    set i: nat | i < |rows| && p(rows[i])
  }

  lemma WhichGrows(rows: seq<Json>, p: Json -> bool)
    requires rows != []
    ensures var n := |rows| - 1; |Which(rows, p)| == |Which(rows[..n], p)| + if p(rows[n]) then 1 else 0
  {
    var n := |rows| - 1;
    if p(rows[n]) {
      assert Which(rows, p) == Which(rows[..n], p) + {n};
    } else {
      assert Which(rows, p) == Which(rows[..n], p);
    }
  }

  /** An entry kind is counted as often as it is on the list. */
  lemma {:induction false} KindCount(rows: seq<Json>, k: Kind, p: Json -> bool)
    requires forall row :: p(row) <==> CountsAs(row, k)
    ensures CountKind(rows, k) == |Which(rows, p)|
  {
    if rows == [] {
      assert Which(rows, p) == {};
    } else {
      KindCount(rows[..|rows| - 1], k, p);
      WhichGrows(rows, p);
      EntryMeans(rows[|rows| - 1], k);
    }
  }

  /** Valid identifiers are counted as often as an entry names a session. */
  lemma {:induction false} ValidCount(rows: seq<Json>, p: Json -> bool)
    requires forall row :: p(row) <==> NamesSome(row)
    ensures |ValidIds(rows)| == |Which(rows, p)|
  {
    if rows == [] {
      assert Which(rows, p) == {};
    } else {
      ValidCount(rows[..|rows| - 1], p);
      WhichGrows(rows, p);
      SomeNameMeans(rows[|rows| - 1]);
    }
  }

  /** The distinct ones are the names that entries have. */
  lemma {:induction false} ValidNames(rows: seq<Json>, id: string)
    ensures Str(id) in ValidIds(rows) <==> exists i :: 0 <= i < |rows| && Names(rows[i], id)
  {
    if rows != [] {
      var n := |rows| - 1;
      ValidNames(rows[..n], id);
      NameMeans(rows[n], id);
      if i :| 0 <= i < |rows| && Names(rows[i], id) {
        assert i == n || Names(rows[..n][i], id);
      }
    }
  }

  /** Identifiers met before are counted as often as an entry has one. */
  lemma {:induction false} SeenCount(rows: seq<Json>, key: seq<int>, sessions: set<Digest>, p: Json -> bool)
    requires forall row :: p(row) <==> NamesKnown(row, key, sessions)
    ensures CountSeen(Digests(key, ValidIds(rows)), sessions) == |Which(rows, p)|
  {
    if rows == [] {
      assert Which(rows, p) == {};
    } else {
      var n := |rows| - 1;
      SeenCount(rows[..n], key, sessions, p);
      WhichGrows(rows, p);
      assert rows == rows[..n] + [rows[n]];
      IdsGrow(rows[..n], rows[n], key);
      KnownMeans(rows[n], key, sessions);
      var before := Digests(key, ValidIds(rows[..n]));
      if HasValidId(rows[n]) {
        SeenGrows(before, SessionDigest(key, Get(rows[n].members, "id")), sessions);
      } else {
        assert before + [] == before;
      }
    }
  }

  lemma SeenGrows(digests: seq<Digest>, d: Digest, seen: set<Digest>)
    ensures CountSeen(digests + [d], seen) == CountSeen(digests, seen) + if d in seen then 1 else 0
  {
    assert (digests + [d])[..|digests|] == digests;
  }

  lemma KnownMeans(row: Json, key: seq<int>, sessions: set<Digest>)
    ensures NamesKnown(row, key, sessions) <==>
            HasValidId(row) && SessionDigest(key, Get(row.members, "id")) in sessions
  {
    SomeNameMeans(row);
    if id :| Names(row, id) {
      NameMeans(row, id);
    }
  }

  /** What the cursor is, for every list. */
  lemma CursorMeans(root: seq<(string, Json)>)
    ensures var cursor := Get(root, "next_cursor");
            && (CursorStateOf(root) == CursorMissing <==> !Has(root, "next_cursor"))
            && (CursorStateOf(root) == CursorNull <==> Has(root, "next_cursor") && cursor == Null)
            && (CursorStateOf(root) == CursorEmpty <==> cursor == Str([]))
            && (CursorStateOf(root) == CursorNonempty <==>
                  exists s :: cursor == Str(s) && 1 <= |s| <= 2048 && forall i | 0 <= i < |s| :: s[i] >= ' ')
  {
    if !Has(root, "next_cursor") {
      AbsentIsNull(root, "next_cursor");
    }
  }

  /** And whether the provider says that there is more. */
  lemma MoreMeans(root: seq<(string, Json)>)
    ensures MoreStateOf(root) == MoreMissing <==> !Has(root, "has_more")
    ensures MoreStateOf(root) == MoreTrue <==> Get(root, "has_more") == Bool(true)
    ensures MoreStateOf(root) == MoreFalse <==> Get(root, "has_more") == Bool(false)
  {
    if !Has(root, "has_more") {
      AbsentIsNull(root, "has_more");
    }
  }

  // ----- what the verifier notices

  /** An accepted observation is refused when one of its counters is changed by itself. */
  lemma CountChangesAreNoticed(o: Observation, k: Kind, n: nat)
    requires BoundaryAccepted(o)
    ensures !BoundaryAccepted(o.(checked := o.checked + 1))
    ensures !BoundaryAccepted(o.(valid := o.valid + 1)) && !BoundaryAccepted(o.(invalid := o.invalid + 1))
    ensures k in o.idKinds && !BoundaryAccepted(o.(idKinds := o.idKinds[k := o.idKinds[k] + 1]))
    ensures n > 0 && n >= o.valid ==> !BoundaryAccepted(o.(duplicates := n))
    ensures n > o.valid ==> !BoundaryAccepted(o.(seenBefore := n))
    ensures !BoundaryAccepted(o.(duplicates := -1 - n))
    ensures (if n < 20 then n else 20) != o.checked ==> !BoundaryAccepted(o.(records := Some(n)))
    ensures n > 0x7fff_ffff_ffff_ffff ==> !BoundaryAccepted(o.(records := Some(n)))
  {
  }

  /** Entries moved from one kind to another are noticed when fewer strings than valid identifiers are left. */
  lemma FewerStringsAreNoticed(o: Observation, strings: nat, nulls: nat)
    requires strings < o.valid
    ensures !BoundaryAccepted(o.(idKinds := o.idKinds[StringKind := strings][NullKind := nulls]))
  {
  }

  /** And when one of its flags or kinds is. */
  lemma FlagChangesAreNoticed(o: Observation, n: nat)
    requires BoundaryAccepted(o)
    ensures !BoundaryAccepted(o.(overLimit := !o.overLimit)) && !BoundaryAccepted(o.(supported := !o.supported))
    ensures !BoundaryAccepted(o.(repeated := if o.repeated.Some? then None else Some(true)))
    ensures !BoundaryAccepted(o.(records := if o.records.Some? then None else Some(n)))
    ensures !BoundaryAccepted(o.(data := if o.data == ArrayKind then NullKind else ArrayKind))
    ensures o.data != NotObjectKind ==> !BoundaryAccepted(o.(topLevel := ArrayKind))
  {
  }

  /** A list under "data" is looked at, up to its twentieth entry, and anything else is no list. */
  lemma RowsMean(payload: Json, items: seq<Json>)
    ensures payload.Obj? && Get(payload.members, "data") == Arr(items) ==>
              Rows(payload) == items && Checked(payload) == if |items| > 20 then items[..20] else items
    ensures !payload.Obj? || !Get(payload.members, "data").Arr? ==> Rows(payload) == [] == Checked(payload)
  {
    assert items[..|items|] == items;
  }
}
