/**
 * `scripts/claude_chat_evidence.py`: structural counters over one conversation. Each counter is shown to
 * be the number of rows it stands for, so that a report says what was there without repeating any of
 * it; what a separate verifier makes of the counters is the business of another module.
 */
module ChatEvidence {
  import opened Json

  datatype Option<T> = None | Some(value: T)

  type Members = seq<(string, Json)>

  datatype Field = InputTokens | OutputTokens | CacheReadTokens | CacheCreationTokens

  const FIELDS: seq<Field> := [InputTokens, OutputTokens, CacheReadTokens, CacheCreationTokens]

  function Key(f: Field): string {
    match f
    case InputTokens => "input_tokens"
    case OutputTokens => "output_tokens"
    case CacheReadTokens => "cache_read_input_tokens"
    case CacheCreationTokens => "cache_creation_input_tokens"
  }

  datatype Shape = MissingShape | NullShape | EmptyObject | ObjectShape | ArrayShape | StringShape | BooleanShape
    | NumberShape

  datatype CounterShape =
    | MissingCount | NullCount | Zero | PositiveInteger | InvalidNumber | BooleanCount | StringCount | ArrayCount
    | ObjectCount

  datatype Found = Absent | Here(value: Json)

  function Lookup(members: Members, key: string): Found {
    if Has(members, key) then Here(Get(members, key)) else Absent
  }

  function ShapeOf(v: Found): Shape {
    if v.Absent? then MissingShape
    else
      match v.value
      case Null => NullShape
      case Bool(_) => BooleanShape
      case Obj(m) => if m == [] then EmptyObject else ObjectShape
      case Arr(_) => ArrayShape
      case Str(_) => StringShape
      case Int(_) => NumberShape
      case Float(_) => NumberShape
  }

  function CounterShapeOf(v: Found): CounterShape {
    if v.Here? && v.value.Int? then
      if v.value.n == 0 then Zero
      else if 0 < v.value.n < 0x8000_0000_0000_0000 then PositiveInteger
      else InvalidNumber
    else
      match ShapeOf(v)
      case MissingShape => MissingCount
      case NullShape => NullCount
      case EmptyObject => ObjectCount
      case ObjectShape => ObjectCount
      case ArrayShape => ArrayCount
      case StringShape => StringCount
      case BooleanShape => BooleanCount
      case NumberShape => InvalidNumber
  }

  function UsageOf(row: Members): Found { Lookup(row, "usage") }

  function CountOf(row: Members, f: Field): CounterShape {
    var usage := UsageOf(row);
    CounterShapeOf(if usage.Here? && usage.value.Obj? then Lookup(usage.value.members, Key(f)) else Absent)
  }

  function ContextOf(row: Members): CounterShape { CounterShapeOf(Lookup(row, "token_count")) }

  // ----- the counters

  datatype Scope = Scope(
    records: nat,
    shapes: map<Shape, nat>,
    fields: map<Field, map<CounterShape, nat>>,
    context: map<CounterShape, nat>)

  function CountShape(rows: seq<Members>, s: Shape): nat {
    if rows == [] then 0
    else CountShape(rows[..|rows| - 1], s) + if ShapeOf(UsageOf(rows[|rows| - 1])) == s then 1 else 0
  }

  function CountField(rows: seq<Members>, f: Field, c: CounterShape): nat {
    if rows == [] then 0
    else CountField(rows[..|rows| - 1], f, c) + if CountOf(rows[|rows| - 1], f) == c then 1 else 0
  }

  function CountContext(rows: seq<Members>, c: CounterShape): nat {
    if rows == [] then 0
    else CountContext(rows[..|rows| - 1], c) + if ContextOf(rows[|rows| - 1]) == c then 1 else 0
  }

  ghost predicate ShapesExact(shapes: map<Shape, nat>, rows: seq<Members>) {
    forall s: Shape :: s in shapes && shapes[s] == CountShape(rows, s)
  }

  ghost predicate FieldExact(counts: map<CounterShape, nat>, rows: seq<Members>, f: Field) {
    forall c: CounterShape :: c in counts && counts[c] == CountField(rows, f, c)
  }

  ghost predicate ContextExact(counts: map<CounterShape, nat>, rows: seq<Members>) {
    forall c: CounterShape :: c in counts && counts[c] == CountContext(rows, c)
  }

  /** Every counter of the scope is the number of rows it stands for. */
  ghost predicate ScopeExact(scope: Scope, rows: seq<Members>) {
    && scope.records == |rows|
    && ShapesExact(scope.shapes, rows)
    && (forall f: Field :: f in scope.fields && FieldExact(scope.fields[f], rows, f))
    && ContextExact(scope.context, rows)
  }

  function NoShapes(): map<Shape, nat> {
    map[MissingShape := 0, NullShape := 0, EmptyObject := 0, ObjectShape := 0, ArrayShape := 0, StringShape := 0,
        BooleanShape := 0, NumberShape := 0]
  }

  function NoCounts(): map<CounterShape, nat> {
    map[MissingCount := 0, NullCount := 0, Zero := 0, PositiveInteger := 0, InvalidNumber := 0, BooleanCount := 0,
        StringCount := 0, ArrayCount := 0, ObjectCount := 0]
  }

  function EmptyScope(): Scope {
    Scope(0, NoShapes(),
          map[InputTokens := NoCounts(), OutputTokens := NoCounts(), CacheReadTokens := NoCounts(),
              CacheCreationTokens := NoCounts()],
          NoCounts())
  }

  lemma AllCounted(c: CounterShape)
    ensures c in NoCounts() && NoCounts()[c] == 0
  {
    match c {
      case MissingCount => case NullCount => case Zero => case PositiveInteger => case InvalidNumber =>
      case BooleanCount => case StringCount => case ArrayCount => case ObjectCount =>
    }
  }

  lemma AllShapes(s: Shape)
    ensures s in NoShapes() && NoShapes()[s] == 0
  {
    match s {
      case MissingShape => case NullShape => case EmptyObject => case ObjectShape => case ArrayShape =>
      case StringShape => case BooleanShape => case NumberShape =>
    }
  }

  lemma EmptyScopeIsExact()
    ensures ScopeExact(EmptyScope(), [])
  {
    forall s: Shape ensures s in NoShapes() && NoShapes()[s] == 0 {
      AllShapes(s);
    }
    forall c: CounterShape ensures c in NoCounts() && NoCounts()[c] == 0 {
      AllCounted(c);
    }
    forall f: Field ensures f in EmptyScope().fields && EmptyScope().fields[f] == NoCounts() {
      match f {
        case InputTokens => case OutputTokens => case CacheReadTokens => case CacheCreationTokens =>
      }
    }
  }

  lemma ShapesBumped(shapes: map<Shape, nat>, rows: seq<Members>, row: Members, s: Shape)
    requires ShapesExact(shapes, rows) && s == ShapeOf(UsageOf(row))
    ensures ShapesExact(shapes[s := shapes[s] + 1], rows + [row])
  {
    assert (rows + [row])[..|rows|] == rows;
  }

  lemma FieldBumped(counts: map<CounterShape, nat>, rows: seq<Members>, row: Members, f: Field, c: CounterShape)
    requires FieldExact(counts, rows, f) && c == CountOf(row, f)
    ensures FieldExact(counts[c := counts[c] + 1], rows + [row], f)
  {
    assert (rows + [row])[..|rows|] == rows;
  }

  lemma ContextBumped(counts: map<CounterShape, nat>, rows: seq<Members>, row: Members, c: CounterShape)
    requires ContextExact(counts, rows) && c == ContextOf(row)
    ensures ContextExact(counts[c := counts[c] + 1], rows + [row])
  {
    assert (rows + [row])[..|rows|] == rows;
  }

  function FieldRank(f: Field): nat {
    match f
    case InputTokens => 0
    case OutputTokens => 1
    case CacheReadTokens => 2
    case CacheCreationTokens => 3
  }

  lemma FieldsAreRanked()
    ensures |FIELDS| == 4
    ensures forall f: Field :: FieldRank(f) < 4 && FIELDS[FieldRank(f)] == f
    ensures forall i | 0 <= i < 4 :: FieldRank(FIELDS[i]) == i
  {
  }

  lemma FieldRanksDiffer(f: Field, g: Field)
    requires f != g
    ensures FieldRank(f) != FieldRank(g)
  {
  }

  /** The counters of the first `i` fields count the new row too. */
  ghost predicate FieldsUpTo(fields: map<Field, map<CounterShape, nat>>, i: nat, rows: seq<Members>,
                             more: seq<Members>) {
    forall f: Field :: f in fields && FieldExact(fields[f], if FieldRank(f) < i then more else rows, f)
  }

  lemma FieldReplaced(fields: map<Field, map<CounterShape, nat>>, i: nat, rows: seq<Members>, more: seq<Members>,
                      f: Field,
                      counts: map<CounterShape, nat>)
    requires FieldsUpTo(fields, i, rows, more) && FieldRank(f) == i && FieldExact(counts, more, f)
    ensures FieldsUpTo(fields[f := counts], i + 1, rows, more)
  {
    var i', next := i + 1, fields[f := counts];
    forall g: Field ensures g in next && FieldExact(next[g], if FieldRank(g) < i' then more else rows, g) {
      if g != f {
        FieldRanksDiffer(f, g);
        assert g in fields && FieldExact(fields[g], if FieldRank(g) < i then more else rows, g);
      }
    }
  }

  method ObserveFields(before: map<Field, map<CounterShape, nat>>, row: Members, ghost rows: seq<Members>)
    returns (fields: map<Field, map<CounterShape, nat>>)
    requires forall f: Field :: f in before && FieldExact(before[f], rows, f)
    ensures forall f: Field :: f in fields && FieldExact(fields[f], rows + [row], f)
  {
    FieldsAreRanked();
    fields := before;
    ghost var more := rows + [row];
    for i := 0 to |FIELDS|
      invariant FieldsUpTo(fields, i, rows, more)
    {
      var f := FIELDS[i];
      assert f in fields && FieldExact(fields[f], rows, f);
      var c := CountOf(row, f);
      FieldBumped(fields[f], rows, row, f, c);
      var counts := fields[f][c := fields[f][c] + 1];
      FieldReplaced(fields, i, rows, more, f, counts);
      fields := fields[f := counts];
    }
    assert forall f: Field :: FieldRank(f) < 4;
  }

  method ObserveScope(scope: Scope, row: Members, ghost rows: seq<Members>) returns (r: Scope)
    requires ScopeExact(scope, rows)
    ensures ScopeExact(r, rows + [row])
  {
    var s := ShapeOf(UsageOf(row));
    ShapesBumped(scope.shapes, rows, row, s);
    var fields := ObserveFields(scope.fields, row, rows);
    var c := ContextOf(row);
    ContextBumped(scope.context, rows, row, c);
    r := Scope(scope.records + 1, scope.shapes[s := scope.shapes[s] + 1], fields,
               scope.context[c := scope.context[c] + 1]);
  }

  // ----- a conversation

  datatype Roles = Roles(human: nat, assistant: nat, unknown: nat)

  datatype Identities = Identities(present: nat, missing: nat, invalid: nat, duplicate: nat)

  datatype Conversation = Conversation(messages: nat, roles: Roles, identities: Identities, whole: Scope, each: Scope)

  datatype Observed = Observed(c: Conversation) | UnsupportedContract

  const MAX_MESSAGES := 500

  /** What `UUID` makes of a string: its canonical form, or nothing. */
  type Canonicalizer = string -> Option<string>

  datatype Identity = NoIdentity | BadIdentity | Known(canonical: string)

  function IdentityOf(row: Members, uuid: Canonicalizer): Identity {
    var identity := Get(row, "uuid");
    if !Has(row, "uuid") || identity == Null then NoIdentity
    else
      var canonical := if identity.Str? then uuid(identity.s) else None;
      if canonical == None then BadIdentity else Known(canonical.value)
  }

  function AddRole(r: Roles, row: Members): Roles {
    var role := Get(row, "sender");
    if role == Str("human") then r.(human := r.human + 1)
    else if role == Str("assistant") then r.(assistant := r.assistant + 1)
    else r.(unknown := r.unknown + 1)
  }

  function CountRoles(rows: seq<Members>): Roles {
    if rows == [] then Roles(0, 0, 0) else AddRole(CountRoles(rows[..|rows| - 1]), rows[|rows| - 1])
  }

  /** The canonical identifiers, in order. */
  function Canonicals(rows: seq<Members>, uuid: Canonicalizer): seq<string> {
    if rows == [] then []
    else
      var identity := IdentityOf(rows[|rows| - 1], uuid);
      Canonicals(rows[..|rows| - 1], uuid) + if identity.Known? then [identity.canonical] else []
  }

  function CountIdentity(rows: seq<Members>, uuid: Canonicalizer, i: Identity): nat {
    if rows == [] then 0
    else CountIdentity(rows[..|rows| - 1], uuid, i) + if IdentityOf(rows[|rows| - 1], uuid) == i then 1 else 0
  }

  function Elements(xs: seq<string>): set<string> { set x | x in xs }

  /** Present are the canonical identifiers, and duplicates what they exceed the distinct ones by. */
  ghost predicate IdentitiesExact(i: Identities, rows: seq<Members>, uuid: Canonicalizer) {
    && i.present == |Canonicals(rows, uuid)|
    && i.missing == CountIdentity(rows, uuid, NoIdentity)
    && i.invalid == CountIdentity(rows, uuid, BadIdentity)
    && i.duplicate == |Canonicals(rows, uuid)| - |Elements(Canonicals(rows, uuid))|
  }

  ghost predicate ConversationExact(c: Conversation, payload: Members, rows: seq<Members>, uuid: Canonicalizer) {
    && c.messages == |rows|
    && c.roles == CountRoles(rows)
    && IdentitiesExact(c.identities, rows, uuid)
    && ScopeExact(c.whole, [payload])
    && ScopeExact(c.each, rows)
  }

  predicate Supported(messages: Json) {
    && messages.Arr? && |messages.items| <= MAX_MESSAGES
    && forall i | 0 <= i < |messages.items| :: messages.items[i].Obj?
  }

  function RowsOf(items: seq<Json>): seq<Members>
    requires forall i | 0 <= i < |items| :: items[i].Obj?
  {
    seq(|items|, i requires 0 <= i < |items| => items[i].members)
  }

  lemma CanonicalsGrow(rows: seq<Members>, row: Members, uuid: Canonicalizer)
    ensures Canonicals(rows + [row], uuid)
         == if IdentityOf(row, uuid).Known? then Canonicals(rows, uuid) + [IdentityOf(row, uuid).canonical]
            else Canonicals(rows, uuid)
  {
    assert (rows + [row])[..|rows|] == rows;
  }

  lemma CountIdentityGrows(rows: seq<Members>, row: Members, uuid: Canonicalizer, i: Identity)
    ensures CountIdentity(rows + [row], uuid, i)
         == CountIdentity(rows, uuid, i) + if IdentityOf(row, uuid) == i then 1 else 0
  {
    assert (rows + [row])[..|rows|] == rows;
  }

  lemma DistinctGrows(xs: seq<string>, x: string)
    ensures Elements(xs + [x]) == Elements(xs) + {x}
    ensures |Elements(xs + [x])| == |Elements(xs)| + if x in xs then 0 else 1
  {
    assert Elements(xs + [x]) == Elements(xs) + {x};
    if x in xs {
      assert Elements(xs) + {x} == Elements(xs);
    }
  }

  lemma IdentitiesStep(i: Identities, rows: seq<Members>, row: Members, uuid: Canonicalizer, i': Identities)
    requires IdentitiesExact(i, rows, uuid)
    requires IdentityOf(row, uuid) == NoIdentity ==> i' == i.(missing := i.missing + 1)
    requires IdentityOf(row, uuid) == BadIdentity ==> i' == i.(invalid := i.invalid + 1)
    requires IdentityOf(row, uuid).Known? ==>
               var duplicate := if IdentityOf(row, uuid).canonical in Canonicals(rows, uuid) then 1 else 0;
               i' == i.(present := i.present + 1, duplicate := i.duplicate + duplicate)
    ensures IdentitiesExact(i', rows + [row], uuid)
  {
    CanonicalsGrow(rows, row, uuid);
    CountIdentityGrows(rows, row, uuid, NoIdentity);
    CountIdentityGrows(rows, row, uuid, BadIdentity);
    if IdentityOf(row, uuid).Known? {
      DistinctGrows(Canonicals(rows, uuid), IdentityOf(row, uuid).canonical);
    }
  }

  method ObserveIdentity(i: Identities, row: Members, uuid: Canonicalizer, seen: set<string>, ghost rows: seq<Members>)
    returns (i': Identities, seen': set<string>)
    requires IdentitiesExact(i, rows, uuid) && seen == Elements(Canonicals(rows, uuid))
    ensures IdentitiesExact(i', rows + [row], uuid) && seen' == Elements(Canonicals(rows + [row], uuid))
  {
    CanonicalsGrow(rows, row, uuid);
    i', seen' := i, seen;
    var identity := Get(row, "uuid");
    if !Has(row, "uuid") || identity == Null {
      i' := i.(missing := i.missing + 1);
    } else {
      var canonical := if identity.Str? then uuid(identity.s) else None;
      if canonical == None {
        i' := i.(invalid := i.invalid + 1);
      } else {
        i' := i.(present := i.present + 1,
                 duplicate := i.duplicate + if canonical.value in seen then 1 else 0);
        DistinctGrows(Canonicals(rows, uuid), canonical.value);
        seen' := seen + {canonical.value};
      }
    }
    IdentitiesStep(i, rows, row, uuid, i');
  }

  /** Every counter of the result is exact; only a list of at most 500 objects is observed at all. */
  method ObserveConversation(payload: Members, uuid: Canonicalizer) returns (r: Observed)
    ensures r.Observed? <==> Supported(Get(payload, "chat_messages"))
    ensures r.Observed? ==> ConversationExact(r.c, payload, RowsOf(Get(payload, "chat_messages").items), uuid)
  {
    var messages := Get(payload, "chat_messages");
    if !Supported(messages) {
      return UnsupportedContract;
    }
    var rows := RowsOf(messages.items);
    EmptyScopeIsExact();
    var whole := ObserveScope(EmptyScope(), payload, []);
    assert [] + [payload] == [payload];
    var roles, identities, each := Roles(0, 0, 0), Identities(0, 0, 0, 0), EmptyScope();
    var seen: set<string> := {};
    for i := 0 to |rows|
      invariant roles == CountRoles(rows[..i])
      invariant IdentitiesExact(identities, rows[..i], uuid) && seen == Elements(Canonicals(rows[..i], uuid))
      invariant ScopeExact(each, rows[..i])
    {
      assert rows[..i + 1] == rows[..i] + [rows[i]] && rows[..i + 1][..i] == rows[..i];
      roles := AddRole(roles, rows[i]);
      identities, seen := ObserveIdentity(identities, rows[i], uuid, seen, rows[..i]);
      each := ObserveScope(each, rows[i], rows[..i]);
    }
    assert rows[..|rows|] == rows;
    r := Observed(Conversation(|rows|, roles, identities, whole, each));
  }

  // ----- what is counted, read off the rows

  /** The shape says this of the value, and no other shape does. */
  ghost predicate HasShape(v: Found, s: Shape) {
    match s
    case MissingShape => v == Absent
    case NullShape => v == Here(Null)
    case EmptyObject => v == Here(Obj([]))
    case ObjectShape => exists m :: m != [] && v == Here(Obj(m))
    case ArrayShape => exists items :: v == Here(Arr(items))
    case StringShape => exists text :: v == Here(Str(text))
    case BooleanShape => exists b :: v == Here(Bool(b))
    case NumberShape => (exists n :: v == Here(Int(n))) || exists x :: v == Here(Float(x))
  }

  /** Integers are told apart by their sign and size; a number that is none is invalid. */
  ghost predicate Shows(v: Found, c: CounterShape) {
    match c
    case MissingCount => v == Absent
    case NullCount => v == Here(Null)
    case Zero => v == Here(Int(0))
    case PositiveInteger => exists n :: 1 <= n <= 0x7fff_ffff_ffff_ffff && v == Here(Int(n))
    case InvalidNumber =>
      (exists n :: (n < 0 || n > 0x7fff_ffff_ffff_ffff) && v == Here(Int(n))) || exists x :: v == Here(Float(x))
    case BooleanCount => exists b :: v == Here(Bool(b))
    case StringCount => exists text :: v == Here(Str(text))
    case ArrayCount => exists items :: v == Here(Arr(items))
    case ObjectCount => exists m :: v == Here(Obj(m))
  }

  lemma ShapeMeans(v: Found, s: Shape)
    ensures ShapeOf(v) == s <==> HasShape(v, s)
  {
  }

  lemma CounterShapeMeans(v: Found, c: CounterShape)
    ensures CounterShapeOf(v) == c <==> Shows(v, c)
  {
  }

  /** What the usage object of the row holds under the name of the field. */
  ghost function UsageField(row: Members, f: Field): Found {
    var name := match f
      case InputTokens => "input_tokens"
      case OutputTokens => "output_tokens"
      case CacheReadTokens => "cache_read_input_tokens"
      case CacheCreationTokens => "cache_creation_input_tokens";
    var usage := Get(row, "usage");
    if usage.Obj? && Has(usage.members, name) then Here(Get(usage.members, name)) else Absent
  }

  ghost function Under(row: Members, key: string): Found {
    if Has(row, key) then Here(Get(row, key)) else Absent
  }

  lemma FieldMeans(row: Members, f: Field, c: CounterShape)
    ensures CountOf(row, f) == c <==> Shows(UsageField(row, f), c)
  {
    if !Has(row, "usage") {
      AbsentIsNull(row, "usage");
    }
    CounterShapeMeans(UsageField(row, f), c);
  }

  /** The places of the rows that the predicate holds of. */
  ghost function Which(rows: seq<Members>, p: Members -> bool): set<nat> {
    set i: nat | i < |rows| && p(rows[i])
  }

  lemma WhichGrows(rows: seq<Members>, p: Members -> bool)
    requires rows != []
    ensures var n := |rows| - 1; |Which(rows, p)| == |Which(rows[..n], p)| + if p(rows[n]) then 1 else 0
  {
    var n := |rows| - 1;
    if p(rows[n]) {
      assert Which(rows, p) == Which(rows[..n], p) + {n};
    } else {
      assert Which(rows, p) == Which(rows[..n], p);
    }
  }

  lemma {:induction false} ShapeCount(rows: seq<Members>, s: Shape, p: Members -> bool)
    requires forall row :: p(row) <==> ShapeOf(UsageOf(row)) == s
    ensures CountShape(rows, s) == |Which(rows, p)|
  {
    if rows == [] {
      assert Which(rows, p) == {};
    } else {
      ShapeCount(rows[..|rows| - 1], s, p);
      WhichGrows(rows, p);
    }
  }

  lemma {:induction false} FieldCount(rows: seq<Members>, f: Field, c: CounterShape, p: Members -> bool)
    requires forall row :: p(row) <==> CountOf(row, f) == c
    ensures CountField(rows, f, c) == |Which(rows, p)|
  {
    if rows == [] {
      assert Which(rows, p) == {};
    } else {
      FieldCount(rows[..|rows| - 1], f, c, p);
      WhichGrows(rows, p);
    }
  }

  lemma {:induction false} ContextCount(rows: seq<Members>, c: CounterShape, p: Members -> bool)
    requires forall row :: p(row) <==> ContextOf(row) == c
    ensures CountContext(rows, c) == |Which(rows, p)|
  {
    if rows == [] {
      assert Which(rows, p) == {};
    } else {
      ContextCount(rows[..|rows| - 1], c, p);
      WhichGrows(rows, p);
    }
  }

  /** Every counter of a scope is the number of rows whose `usage` or `token_count` is of the kind it names. */
  lemma ScopeMeans(scope: Scope, rows: seq<Members>, s: Shape, f: Field, c: CounterShape)
    requires ScopeExact(scope, rows)
    ensures s in scope.shapes && scope.shapes[s] == |Which(rows, row => HasShape(Under(row, "usage"), s))|
    ensures f in scope.fields && c in scope.fields[f]
    ensures scope.fields[f][c] == |Which(rows, row => Shows(UsageField(row, f), c))|
    ensures c in scope.context && scope.context[c] == |Which(rows, row => Shows(Under(row, "token_count"), c))|
  {
    forall row ensures HasShape(Under(row, "usage"), s) <==> ShapeOf(UsageOf(row)) == s {
      ShapeMeans(UsageOf(row), s);
    }
    ShapeCount(rows, s, row => HasShape(Under(row, "usage"), s));
    assert f in scope.fields && FieldExact(scope.fields[f], rows, f);
    forall row ensures Shows(UsageField(row, f), c) <==> CountOf(row, f) == c {
      FieldMeans(row, f, c);
    }
    FieldCount(rows, f, c, row => Shows(UsageField(row, f), c));
    forall row ensures Shows(Under(row, "token_count"), c) <==> ContextOf(row) == c {
      CounterShapeMeans(Lookup(row, "token_count"), c);
    }
    ContextCount(rows, c, row => Shows(Under(row, "token_count"), c));
  }

  /** Observed are lists of no more than five hundred objects. */
  lemma SupportedMeans(messages: Json)
    ensures Supported(messages) <==>
            exists items: seq<Json> ::
              messages == Arr(items) && |items| <= 500 && forall row | row in items :: row.Obj?
  {
    if messages.Arr? && forall i | 0 <= i < |messages.items| :: messages.items[i].Obj? {
      assert messages == Arr(messages.items);
    }
  }

  predicate IsSender(row: Members, name: string) { Get(row, "sender") == Str(name) }

  /** Human and assistant rows are counted apart, and what is neither is unknown. */
  lemma {:induction false} RolesMean(rows: seq<Members>)
    ensures CountRoles(rows).human == |Which(rows, row => IsSender(row, "human"))|
    ensures CountRoles(rows).assistant == |Which(rows, row => IsSender(row, "assistant"))|
    ensures CountRoles(rows).unknown == |Which(rows, row => !IsSender(row, "human") && !IsSender(row, "assistant"))|
  {
    var human, assistant := (row: Members) => IsSender(row, "human"), (row: Members) => IsSender(row, "assistant");
    var unknown := (row: Members) => !IsSender(row, "human") && !IsSender(row, "assistant");
    if rows == [] {
      assert Which(rows, human) == {} && Which(rows, assistant) == {} && Which(rows, unknown) == {};
    } else {
      RolesMean(rows[..|rows| - 1]);
      WhichGrows(rows, human);
      WhichGrows(rows, assistant);
      WhichGrows(rows, unknown);
      assert |"human"| == 5 && |"assistant"| == 9;
    }
  }

  /** A missing or null `uuid` is no identity; what is no string, or is refused, is a bad one. */
  lemma IdentityMeans(row: Members, uuid: Canonicalizer, canonical: string)
    ensures IdentityOf(row, uuid) == NoIdentity <==> Get(row, "uuid") == Null
    ensures IdentityOf(row, uuid) == Known(canonical) <==>
            exists text :: Get(row, "uuid") == Str(text) && uuid(text) == Some(canonical)
    ensures IdentityOf(row, uuid) == BadIdentity <==>
            Get(row, "uuid") != Null && forall text :: Get(row, "uuid") == Str(text) ==> uuid(text) == None
  {
    if !Has(row, "uuid") {
      AbsentIsNull(row, "uuid");
    }
  }
}
