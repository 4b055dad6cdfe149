/**
 * `scripts/claude_cloud_structure.py`: counters over nine fixed paths into JSON events, and the
 * relations between those counters that `scripts/verify_claude_cloud.py` checks on its own.
 */
module StructureCounters {
  import opened Json

  datatype Location =
    | AtEvent | AtData | AtContent | AtMessage | AtPayload | AtEventEvent | AtDataMessage | AtContentMessage
    | AtEventEventMessage

  datatype ValueType = MissingValue | NullValue | BooleanValue | NumberValue | StringValue | ArrayValue | ObjectValue

  datatype Category =
    | Assistant | Result | User | System | ToolResult | ToolUse | StreamEvent | MessageKind | Text | Thinking
    | Other | Missing | NonString | NotObject

  datatype Field = Type | Event | Message | Data | Content | Payload | Usage | ModelUsage | Role

  const LOCATIONS: seq<Location> :=
    [AtEvent, AtData, AtContent, AtMessage, AtPayload, AtEventEvent, AtDataMessage, AtContentMessage,
     AtEventEventMessage]

  const FIELDS: seq<Field> := [Type, Event, Message, Data, Content, Payload, Usage, ModelUsage, Role]

  function Key(f: Field): string {
    match f
    case Type => "type"
    case Event => "event"
    case Message => "message"
    case Data => "data"
    case Content => "content"
    case Payload => "payload"
    case Usage => "usage"
    case ModelUsage => "modelUsage"
    case Role => "role"
  }

  function Path(l: Location): seq<Field> {
    match l
    case AtEvent => []
    case AtData => [Data]
    case AtContent => [Content]
    case AtMessage => [Message]
    case AtPayload => [Payload]
    case AtEventEvent => [Event]
    case AtDataMessage => [Data, Message]
    case AtContentMessage => [Content, Message]
    case AtEventEventMessage => [Event, Message]
  }

  /** An event is always an object; this is its members. */
  type Members = seq<(string, Json)>

  datatype Found = Absent | Here(value: Json)

  predicate Holds(v: Found, key: string) { v.Here? && v.value.Obj? && Has(v.value.members, key) }

  function Child(v: Found, f: Field): Found {
    if Holds(v, Key(f)) then Here(Get(v.value.members, Key(f))) else Absent
  }

  function Walk(v: Found, path: seq<Field>): Found {
    if path == [] then v else Child(Walk(v, path[..|path| - 1]), path[|path| - 1])
  }

  function At(event: Members, l: Location): Found { Walk(Here(Obj(event)), Path(l)) }

  function TypeOf(v: Found): ValueType {
    if v.Absent? then MissingValue
    else
      match v.value
      case Null => NullValue
      case Bool(_) => BooleanValue
      case Int(_) => NumberValue
      case Float(_) => NumberValue
      case Str(_) => StringValue
      case Arr(_) => ArrayValue
      case Obj(_) => ObjectValue
  }

  function KnownCategory(raw: string): Category {
    if raw == "assistant" then Assistant
    else if raw == "result" then Result
    else if raw == "user" then User
    else if raw == "system" then System
    else if raw == "tool_result" then ToolResult
    else if raw == "tool_use" then ToolUse
    else if raw == "stream_event" then StreamEvent
    else if raw == "message" then MessageKind
    else if raw == "text" then Text
    else if raw == "thinking" then Thinking
    else Other
  }

  /** The key under which the source counts a category. */
  function CategoryName(c: Category): string {
    match c
    case Assistant => "assistant"
    case Result => "result"
    case User => "user"
    case System => "system"
    case ToolResult => "tool_result"
    case ToolUse => "tool_use"
    case StreamEvent => "stream_event"
    case MessageKind => "message"
    case Text => "text"
    case Thinking => "thinking"
    case Other => "other"
    case Missing => "missing"
    case NonString => "non_string"
    case NotObject => "not_object"
  }

  predicate Reserved(c: Category) { c == Other || c == Missing || c == NonString || c == NotObject }

  /** A known type is counted under its own name; every other string, the reserved names included, as other. */
  lemma CategoryKeepsName(raw: string)
    ensures Reserved(KnownCategory(raw)) ==> KnownCategory(raw) == Other
    ensures KnownCategory(raw) == Other <==> forall c: Category :: Reserved(c) || CategoryName(c) != raw
    ensures KnownCategory(raw) != Other ==> CategoryName(KnownCategory(raw)) == raw
  {
    if KnownCategory(raw) == Other {
      forall c: Category | !Reserved(c) ensures CategoryName(c) != raw {
        match c {
          case Assistant => case Result => case User => case System => case ToolResult => case ToolUse =>
          case StreamEvent => case MessageKind => case Text => case Thinking =>
          case Other => case Missing => case NonString => case NotObject =>
        }
      }
    } else {
      assert CategoryName(KnownCategory(raw)) == raw && !Reserved(KnownCategory(raw));
    }
  }

  function CategoryOf(v: Found): Category {
    if TypeOf(v) != ObjectValue then NotObject
    else if !Holds(v, "type") then Missing
    else
      var raw := Get(v.value.members, "type");
      if !raw.Str? then NonString else KnownCategory(raw.s)
  }

  // ----- the counters

  datatype Row = Row(types: map<ValueType, nat>, categories: map<Category, nat>, fields: map<Field, nat>)

  function CountType(events: seq<Members>, l: Location, t: ValueType): nat {
    if events == [] then 0
    else CountType(events[..|events| - 1], l, t) + if TypeOf(At(events[|events| - 1], l)) == t then 1 else 0
  }

  function CountCategory(events: seq<Members>, l: Location, c: Category): nat {
    if events == [] then 0
    else CountCategory(events[..|events| - 1], l, c) + if CategoryOf(At(events[|events| - 1], l)) == c then 1 else 0
  }

  function CountField(events: seq<Members>, l: Location, f: Field): nat {
    if events == [] then 0
    else CountField(events[..|events| - 1], l, f) + if Holds(At(events[|events| - 1], l), Key(f)) then 1 else 0
  }

  ghost predicate TypesExact(types: map<ValueType, nat>, events: seq<Members>, l: Location) {
    forall t: ValueType :: t in types && types[t] == CountType(events, l, t)
  }

  ghost predicate CategoriesExact(categories: map<Category, nat>, events: seq<Members>, l: Location) {
    forall c: Category :: c in categories && categories[c] == CountCategory(events, l, c)
  }

  ghost predicate FieldsExact(fields: map<Field, nat>, events: seq<Members>, l: Location) {
    forall f: Field :: f in fields && fields[f] == CountField(events, l, f)
  }

  /** Every counter of the row is the number of events it stands for. */
  ghost predicate RowExact(row: Row, events: seq<Members>, l: Location) {
    TypesExact(row.types, events, l) && CategoriesExact(row.categories, events, l) && FieldsExact(row.fields, events, l)
  }

  ghost predicate Exact(count: nat, rows: map<Location, Row>, events: seq<Members>) {
    count == |events| && forall l: Location :: l in rows && RowExact(rows[l], events, l)
  }

  function EmptyRow(): Row {
    Row(map[MissingValue := 0, NullValue := 0, BooleanValue := 0, NumberValue := 0, StringValue := 0, ArrayValue := 0,
            ObjectValue := 0],
        map[Assistant := 0, Result := 0, User := 0, System := 0, ToolResult := 0, ToolUse := 0, StreamEvent := 0,
            MessageKind := 0, Text := 0, Thinking := 0, Other := 0, Missing := 0, NonString := 0, NotObject := 0],
        map[Type := 0, Event := 0, Message := 0, Data := 0, Content := 0, Payload := 0, Usage := 0, ModelUsage := 0,
            Role := 0])
  }

  lemma EmptyTypes(l: Location)
    ensures TypesExact(EmptyRow().types, [], l)
  {
    forall t: ValueType ensures t in EmptyRow().types && EmptyRow().types[t] == CountType([], l, t) {
      match t {
        case MissingValue => case NullValue => case BooleanValue => case NumberValue => case StringValue =>
        case ArrayValue => case ObjectValue =>
      }
    }
  }

  lemma EmptyCategories(l: Location)
    ensures CategoriesExact(EmptyRow().categories, [], l)
  {
    forall c: Category ensures c in EmptyRow().categories && EmptyRow().categories[c] == CountCategory([], l, c) {
      match c {
        case Assistant => case Result => case User => case System => case ToolResult => case ToolUse =>
        case StreamEvent => case MessageKind => case Text => case Thinking => case Other => case Missing =>
        case NonString => case NotObject =>
      }
    }
  }

  lemma EmptyFields(l: Location)
    ensures FieldsExact(EmptyRow().fields, [], l)
  {
    forall f: Field ensures f in EmptyRow().fields && EmptyRow().fields[f] == CountField([], l, f) {
      match f {
        case Type => case Event => case Message => case Data => case Content => case Payload => case Usage =>
        case ModelUsage => case Role =>
      }
    }
  }

  lemma EmptyRowIsExact(l: Location)
    ensures RowExact(EmptyRow(), [], l)
  {
    EmptyTypes(l);
    EmptyCategories(l);
    EmptyFields(l);
  }

  function Rank(l: Location): nat {
    match l
    case AtEvent => 0
    case AtData => 1
    case AtContent => 2
    case AtMessage => 3
    case AtPayload => 4
    case AtEventEvent => 5
    case AtDataMessage => 6
    case AtContentMessage => 7
    case AtEventEventMessage => 8
  }

  lemma LocationsAreRanked()
    ensures |LOCATIONS| == 9
    ensures forall l: Location :: Rank(l) < 9 && LOCATIONS[Rank(l)] == l
    ensures forall i | 0 <= i < 9 :: Rank(LOCATIONS[i]) == i
  {
  }

  function FieldRank(f: Field): nat {
    match f
    case Type => 0
    case Event => 1
    case Message => 2
    case Data => 3
    case Content => 4
    case Payload => 5
    case Usage => 6
    case ModelUsage => 7
    case Role => 8
  }

  lemma FieldsAreRanked()
    ensures |FIELDS| == 9
    ensures forall f: Field :: FieldRank(f) < 9 && FIELDS[FieldRank(f)] == f
    ensures forall i | 0 <= i < 9 :: FieldRank(FIELDS[i]) == i
  {
  }

  lemma TypeGrows(events: seq<Members>, event: Members, l: Location, t: ValueType)
    ensures CountType(events + [event], l, t) == CountType(events, l, t) + if TypeOf(At(event, l)) == t then 1 else 0
  {
    assert (events + [event])[..|events|] == events;
  }

  lemma CategoryGrows(events: seq<Members>, event: Members, l: Location, c: Category)
    ensures CountCategory(events + [event], l, c)
         == CountCategory(events, l, c) + if CategoryOf(At(event, l)) == c then 1 else 0
  {
    assert (events + [event])[..|events|] == events;
  }

  lemma FieldGrows(events: seq<Members>, event: Members, l: Location, f: Field)
    ensures CountField(events + [event], l, f)
         == CountField(events, l, f) + if Holds(At(event, l), Key(f)) then 1 else 0
  {
    assert (events + [event])[..|events|] == events;
  }

  lemma TypesBumped(types: map<ValueType, nat>, events: seq<Members>, event: Members, l: Location, t: ValueType,
                    types': map<ValueType, nat>)
    requires TypesExact(types, events, l) && t == TypeOf(At(event, l)) && types' == types[t := types[t] + 1]
    ensures TypesExact(types', events + [event], l)
  {
    forall u: ValueType ensures CountType(events + [event], l, u) == CountType(events, l, u) + if t == u then 1 else 0 {
      TypeGrows(events, event, l, u);
    }
  }

  lemma CategoriesBumped(categories: map<Category, nat>, events: seq<Members>, event: Members, l: Location, c: Category,
                         categories': map<Category, nat>)
    requires CategoriesExact(categories, events, l) && c == CategoryOf(At(event, l))
    requires categories' == categories[c := categories[c] + 1]
    ensures CategoriesExact(categories', events + [event], l)
  {
    forall d: Category
      ensures CountCategory(events + [event], l, d) == CountCategory(events, l, d) + if c == d then 1 else 0
    {
      CategoryGrows(events, event, l, d);
    }
  }

  lemma FieldsUntouched(fields: map<Field, nat>, events: seq<Members>, event: Members, l: Location)
    requires FieldsExact(fields, events, l) && TypeOf(At(event, l)) != ObjectValue
    ensures FieldsExact(fields, events + [event], l)
  {
    forall f: Field ensures CountField(events + [event], l, f) == CountField(events, l, f) {
      FieldGrows(events, event, l, f);
    }
  }

  method WalkTo(event: Members, l: Location) returns (v: Found)
    ensures v == At(event, l)
  {
    v := Here(Obj(event));
    var path := Path(l);
    for i := 0 to |path|
      invariant v == Walk(Here(Obj(event)), path[..i])
    {
      assert path[..i + 1][..i] == path[..i];
      v := if Holds(v, Key(path[i])) then Here(Get(v.value.members, Key(path[i]))) else Absent;
    }
    assert path[..|path|] == path;
  }

  /** The counters of one report; `seen` lists the events observed so far. */
  class Structure {
    var count: nat
    var rows: map<Location, Row>
    ghost var seen: seq<Members>

    ghost predicate Valid()
      reads this
    {
      Exact(count, rows, seen)
    }

    constructor ()
      ensures Valid() && seen == []
    {
      count := 0;
      rows := map l: Location | l in LOCATIONS :: EmptyRow();
      seen := [];
      new;
      LocationsAreRanked();
      forall l: Location ensures l in rows && RowExact(rows[l], [], l) {
        assert LOCATIONS[Rank(l)] == l;
        EmptyRowIsExact(l);
      }
    }

    method Observe(event: Members)
      requires Valid()
      modifies this
      ensures Valid() && seen == old(seen) + [event]
    {
      LocationsAreRanked();
      count := count + 1;
      ghost var more := seen + [event];
      ghost var before, after := Exactly(seen), Exactly(more);
      for i := 0 to |LOCATIONS|
        invariant count == |more| && seen == old(seen)
        invariant RowsUpTo(rows, i, before, after)
      {
        var l := LOCATIONS[i];
        var row := ObserveRow(rows[l], event, l, seen);
        RowReplaced(rows, i, before, after, l, row);
        rows := rows[l := row];
      }
      seen := more;
    }
  }

  /** What the row of a location should be after the events. */
  ghost function Exactly(events: seq<Members>): (Row, Location) -> bool {
    (row: Row, l: Location) => RowExact(row, events, l)
  }

  /** The rows of the first `i` locations are as they should be after the event, the others as before it. */
  ghost predicate RowsUpTo(rows: map<Location, Row>, i: nat, before: (Row, Location) -> bool,
                           after: (Row, Location) -> bool) {
    forall l: Location :: l in rows && if Rank(l) < i then after(rows[l], l) else before(rows[l], l)
  }

  lemma RanksDiffer(k: Location, l: Location)
    requires k != l
    ensures Rank(k) != Rank(l)
  {
    LocationsAreRanked();
    assert LOCATIONS[Rank(k)] == k && LOCATIONS[Rank(l)] == l;
  }

  lemma RowReplaced(rows: map<Location, Row>, i: nat, before: (Row, Location) -> bool, after: (Row, Location) -> bool,
                    l: Location, row: Row)
    requires RowsUpTo(rows, i, before, after) && Rank(l) == i && after(row, l)
    ensures RowsUpTo(rows[l := row], i + 1, before, after)
  {
    var i', rows' := i + 1, rows[l := row];
    forall k: Location
      ensures k in rows' && if Rank(k) < i' then after(rows'[k], k) else before(rows'[k], k)
    {
      if k != l {
        RanksDiffer(k, l);
      }
    }
  }

  /** The category of a value: what its type says, if it is an object. */
  method Classify(v: Found) returns (category: Category)
    ensures category == CategoryOf(v)
  {
    category := NotObject;
    if v.Here? && v.value.Obj? {
      if !Has(v.value.members, "type") {
        category := Missing;
      } else if !Get(v.value.members, "type").Str? {
        category := NonString;
      } else {
        category := KnownCategory(Get(v.value.members, "type").s);
      }
    }
  }

  method ObserveRow(row: Row, event: Members, l: Location, ghost events: seq<Members>) returns (r: Row)
    requires RowExact(row, events, l)
    ensures RowExact(r, events + [event], l)
  {
    var v := WalkTo(event, l);
    var t := TypeOf(v);
    var types := row.types[t := row.types[t] + 1];
    TypesBumped(row.types, events, event, l, t, types);
    var category := Classify(v);
    var categories := row.categories[category := row.categories[category] + 1];
    CategoriesBumped(row.categories, events, event, l, category, categories);
    var fields := row.fields;
    if v.Here? && v.value.Obj? {
      fields := ObserveFields(row.fields, v, event, l, events);
    } else {
      FieldsUntouched(fields, events, event, l);
    }
    r := Row(types, categories, fields);
  }

  /** The first `i` fields hold the counts after the event, the others those before it. */
  ghost predicate FieldsUpTo(fields: map<Field, nat>, i: nat, before: map<Field, nat>, after: map<Field, nat>) {
    forall f: Field ::
      f in fields && f in before && f in after && fields[f] == if FieldRank(f) < i then after[f] else before[f]
  }

  lemma FieldRanksDiffer(f: Field, g: Field)
    requires f != g
    ensures FieldRank(f) != FieldRank(g)
  {
  }

  lemma FieldReplaced(fields: map<Field, nat>, i: nat, before: map<Field, nat>, after: map<Field, nat>, f: Field)
    requires FieldsUpTo(fields, i, before, after) && FieldRank(f) == i
    ensures f in after && FieldsUpTo(fields[f := after[f]], i + 1, before, after)
  {
    var i', fields' := i + 1, fields[f := after[f]];
    forall g: Field
      ensures g in fields' && fields'[g] == if FieldRank(g) < i' then after[g] else before[g]
    {
      if g != f {
        FieldRanksDiffer(f, g);
      }
    }
  }

  ghost function FieldCounts(events: seq<Members>, l: Location): (m: map<Field, nat>)
    ensures FieldsExact(m, events, l)
  {
    FieldsAreRanked();
    var m := map f: Field | f in FIELDS :: CountField(events, l, f);
    assert forall f: Field :: FIELDS[FieldRank(f)] == f && f in m;
    m
  }

  lemma NextCount(before: map<Field, nat>, after: map<Field, nat>, events: seq<Members>, event: Members, l: Location,
                  f: Field)
    requires FieldsExact(before, events, l) && FieldsExact(after, events + [event], l)
    ensures f in before && f in after && after[f] == before[f] + if Holds(At(event, l), Key(f)) then 1 else 0
  {
    FieldGrows(events, event, l, f);
  }

  lemma AllReplaced(fields: map<Field, nat>, before: map<Field, nat>, after: map<Field, nat>)
    requires FieldsUpTo(fields, 9, before, after)
    ensures forall f: Field :: f in fields && f in after && fields[f] == after[f]
  {
    FieldsAreRanked();
  }

  /** The loop over the fields, for counts that grow where the value holds the field. */
  method CountFields(before: map<Field, nat>, members: Members, ghost after: map<Field, nat>)
    returns (fields: map<Field, nat>)
    requires forall f: Field ::
               f in before && f in after && after[f] == before[f] + if Has(members, Key(f)) then 1 else 0
    ensures forall f: Field :: f in fields && f in after && fields[f] == after[f]
  {
    FieldsAreRanked();
    fields := before;
    for i := 0 to |FIELDS|
      invariant FieldsUpTo(fields, i, before, after)
    {
      var f := FIELDS[i];
      FieldReplaced(fields, i, before, after, f);
      assert f in fields && fields[f] == before[f];
      fields := fields[f := fields[f] + if Has(members, Key(f)) then 1 else 0];
    }
    AllReplaced(fields, before, after);
  }

  method ObserveFields(before: map<Field, nat>, v: Found, event: Members, l: Location, ghost events: seq<Members>)
    returns (fields: map<Field, nat>)
    requires FieldsExact(before, events, l) && v == At(event, l) && v.Here? && v.value.Obj?
    ensures FieldsExact(fields, events + [event], l)
  {
    ghost var after := FieldCounts(events + [event], l);
    forall f: Field
      ensures f in before && f in after && after[f] == before[f] + if Has(v.value.members, Key(f)) then 1 else 0
    {
      NextCount(before, after, events, event, l, f);
    }
    fields := CountFields(before, v.value.members, after);
  }

  // ----- what the verifier demands

  predicate Complete(row: Row) {
    && (MissingValue in row.types && NullValue in row.types && BooleanValue in row.types && NumberValue in row.types
        && StringValue in row.types && ArrayValue in row.types && ObjectValue in row.types)
    && (Assistant in row.categories && Result in row.categories && User in row.categories && System in row.categories
        && ToolResult in row.categories && ToolUse in row.categories && StreamEvent in row.categories
        && MessageKind in row.categories && Text in row.categories && Thinking in row.categories
        && Other in row.categories && Missing in row.categories && NonString in row.categories
        && NotObject in row.categories)
    && (Type in row.fields && Event in row.fields && Message in row.fields && Data in row.fields
        && Content in row.fields && Payload in row.fields && Usage in row.fields && ModelUsage in row.fields
        && Role in row.fields)
  }

  function SumTypes(t: map<ValueType, nat>): nat
    requires MissingValue in t && NullValue in t && BooleanValue in t && NumberValue in t && StringValue in t
    requires ArrayValue in t && ObjectValue in t
  {
    t[MissingValue] + t[NullValue] + t[BooleanValue] + t[NumberValue] + t[StringValue] + t[ArrayValue] + t[ObjectValue]
  }

  function SumCategories(c: map<Category, nat>): nat
    requires Assistant in c && Result in c && User in c && System in c && ToolResult in c && ToolUse in c
    requires StreamEvent in c && MessageKind in c && Text in c && Thinking in c && Other in c && Missing in c
    requires NonString in c && NotObject in c
  {
    c[Assistant] + c[Result] + c[User] + c[System] + c[ToolResult] + c[ToolUse] + c[StreamEvent] + c[MessageKind]
    + c[Text] + c[Thinking] + c[Other] + c[Missing] + c[NonString] + c[NotObject]
  }

  predicate RowAccepted(row: Row, events: nat) {
    && Complete(row)
    && (forall t | t in row.types :: row.types[t] <= events)
    && (forall c | c in row.categories :: row.categories[c] <= events)
    && (forall f | f in row.fields :: row.fields[f] <= events)
    && SumTypes(row.types) == events
    && SumCategories(row.categories) == events
    && row.categories[NotObject] == events - row.types[ObjectValue]
    && (forall f | f in row.fields :: row.fields[f] <= row.types[ObjectValue])
    && row.categories[Missing] == row.types[ObjectValue] - row.fields[Type]
  }

  /** The location whose path is one step shorter, and the step itself. */
  function Parent(l: Location): (p: Location)
    requires Path(l) != []
    ensures Path(p) == Path(l)[..|Path(l)| - 1]
  {
    match l
    case AtData => AtEvent
    case AtContent => AtEvent
    case AtMessage => AtEvent
    case AtPayload => AtEvent
    case AtEventEvent => AtEvent
    case AtDataMessage => AtData
    case AtContentMessage => AtContent
    case AtEventEventMessage => AtEventEvent
  }

  function LastStep(l: Location): Field
    requires Path(l) != []
  {
    Path(l)[|Path(l)| - 1]
  }

  ghost predicate RowsAccepted(rows: map<Location, Row>, events: nat) {
    forall l: Location :: l in rows && RowAccepted(rows[l], events)
  }

  /** A nested value is missing in as many events as its parent lacks the field. */
  predicate MissingAccepted(row: Row, parent: Row, step: Field, events: nat) {
    && MissingValue in row.types && step in parent.fields
    && row.types[MissingValue] == events - parent.fields[step]
  }

  ghost predicate NestedAccepted(rows: map<Location, Row>, events: nat) {
    forall l: Location | Path(l) != [] ::
      l in rows && Parent(l) in rows && MissingAccepted(rows[l], rows[Parent(l)], LastStep(l), events)
  }

  ghost predicate StructureAccepted(count: nat, rows: map<Location, Row>, events: nat) {
    && count <= 150 && count == events
    && RowsAccepted(rows, events)
    && AtEvent in rows && ObjectValue in rows[AtEvent].types && rows[AtEvent].types[ObjectValue] == events
    && NestedAccepted(rows, events)
  }

  // ----- what exact counters satisfy

  lemma {:induction false} TypesAddUp(events: seq<Members>, l: Location)
    ensures CountType(events, l, MissingValue) + CountType(events, l, NullValue) + CountType(events, l, BooleanValue)
            + CountType(events, l, NumberValue) + CountType(events, l, StringValue) + CountType(events, l, ArrayValue)
            + CountType(events, l, ObjectValue) == |events|
  {
    if events != [] {
      TypesAddUp(events[..|events| - 1], l);
    }
  }

  function One(b: bool): nat { if b then 1 else 0 }

  lemma ExactlyOneCategory(c: Category)
    ensures One(c == Assistant) + One(c == Result) + One(c == User) + One(c == System) + One(c == ToolResult)
            + One(c == ToolUse) + One(c == StreamEvent) + One(c == MessageKind) + One(c == Text) + One(c == Thinking)
            + One(c == Other) + One(c == Missing) + One(c == NonString) + One(c == NotObject) == 1
  {
  }

  lemma CategoryStep(events: seq<Members>, l: Location, c: Category)
    requires events != []
    ensures CountCategory(events, l, c)
         == CountCategory(events[..|events| - 1], l, c) + One(CategoryOf(At(events[|events| - 1], l)) == c)
  {
  }

  ghost function AllCategories(events: seq<Members>, l: Location): nat {
    CountCategory(events, l, Assistant) + CountCategory(events, l, Result) + CountCategory(events, l, User)
    + CountCategory(events, l, System) + CountCategory(events, l, ToolResult) + CountCategory(events, l, ToolUse)
    + CountCategory(events, l, StreamEvent) + CountCategory(events, l, MessageKind) + CountCategory(events, l, Text)
    + CountCategory(events, l, Thinking) + CountCategory(events, l, Other) + CountCategory(events, l, Missing)
    + CountCategory(events, l, NonString) + CountCategory(events, l, NotObject)
  }

  lemma {:induction false} CategoriesAddUp(events: seq<Members>, l: Location)
    ensures AllCategories(events, l) == |events|
  {
    if events != [] {
      CategoriesAddUp(events[..|events| - 1], l);
      forall c: Category
        ensures CountCategory(events, l, c)
             == CountCategory(events[..|events| - 1], l, c) + One(CategoryOf(At(events[|events| - 1], l)) == c)
      {
        CategoryStep(events, l, c);
      }
      ExactlyOneCategory(CategoryOf(At(events[|events| - 1], l)));
    }
  }

  lemma {:induction false} ObjectsSplit(events: seq<Members>, l: Location)
    ensures CountCategory(events, l, NotObject) == |events| - CountType(events, l, ObjectValue)
    ensures CountCategory(events, l, Missing) == CountType(events, l, ObjectValue) - CountField(events, l, Type)
  {
    if events != [] {
      var v := At(events[|events| - 1], l);
      ObjectsSplit(events[..|events| - 1], l);
      CategoryCases(v);
    }
  }

  lemma CategoryCases(v: Found)
    ensures CategoryOf(v) == NotObject <==> TypeOf(v) != ObjectValue
    ensures CategoryOf(v) == Missing <==> TypeOf(v) == ObjectValue && !Holds(v, "type")
    ensures forall key :: Holds(v, key) ==> TypeOf(v) == ObjectValue
  {
  }

  lemma {:induction false} FieldsInObjects(events: seq<Members>, l: Location, f: Field)
    ensures CountField(events, l, f) <= CountType(events, l, ObjectValue)
  {
    if events != [] {
      FieldsInObjects(events[..|events| - 1], l, f);
    }
  }

  lemma {:induction false} CountsBounded(events: seq<Members>, l: Location, t: ValueType, c: Category)
    ensures CountType(events, l, t) <= |events| && CountCategory(events, l, c) <= |events|
  {
    if events != [] {
      CountsBounded(events[..|events| - 1], l, t, c);
    }
  }

  lemma {:induction false} EventsAreObjects(events: seq<Members>)
    ensures CountType(events, AtEvent, ObjectValue) == |events|
  {
    if events != [] {
      EventsAreObjects(events[..|events| - 1]);
    }
  }

  /** A path is missing exactly where the parent lacks its last field. */
  lemma {:induction false} MissingBelow(events: seq<Members>, l: Location)
    requires Path(l) != []
    ensures CountType(events, l, MissingValue) == |events| - CountField(events, Parent(l), LastStep(l))
  {
    if events != [] {
      var event := events[|events| - 1];
      MissingBelow(events[..|events| - 1], l);
      assert At(event, l) == Child(At(event, Parent(l)), LastStep(l));
    }
  }

  lemma RowIsAccepted(row: Row, events: seq<Members>, l: Location)
    requires RowExact(row, events, l)
    ensures RowAccepted(row, |events|)
  {
    RowIsComplete(row, events, l);
    RowBounded(row, events, l);
    TypesAddUp(events, l);
    CategoriesAddUp(events, l);
    ObjectsSplit(events, l);
  }

  lemma RowIsComplete(row: Row, events: seq<Members>, l: Location)
    requires RowExact(row, events, l)
    ensures Complete(row)
  {
  }

  lemma RowBounded(row: Row, events: seq<Members>, l: Location)
    requires RowExact(row, events, l)
    ensures forall t | t in row.types :: row.types[t] <= |events|
    ensures forall c | c in row.categories :: row.categories[c] <= |events|
    ensures forall f | f in row.fields :: row.fields[f] <= row.types[ObjectValue] <= |events|
  {
    forall t: ValueType ensures t in row.types && row.types[t] <= |events| {
      CountsBounded(events, l, t, NotObject);
    }
    forall c: Category ensures c in row.categories && row.categories[c] <= |events| {
      CountsBounded(events, l, ObjectValue, c);
    }
    forall f: Field ensures f in row.fields && row.fields[f] <= row.types[ObjectValue] {
      FieldsInObjects(events, l, f);
    }
  }

  lemma MissingIsAccepted(row: Row, parent: Row, events: seq<Members>, l: Location)
    requires Path(l) != [] && RowExact(row, events, l) && RowExact(parent, events, Parent(l))
    ensures MissingAccepted(row, parent, LastStep(l), |events|)
  {
    MissingBelow(events, l);
  }

  lemma EventRow(row: Row, events: seq<Members>)
    requires RowExact(row, events, AtEvent)
    ensures ObjectValue in row.types && row.types[ObjectValue] == |events|
  {
    EventsAreObjects(events);
  }

  /** Whatever the events are, their counters pass the verifier, up to the 150 events it admits. */
  lemma ExactIsAccepted(count: nat, rows: map<Location, Row>, events: seq<Members>)
    requires Exact(count, rows, events)
    ensures StructureAccepted(count, rows, |events|) <==> |events| <= 150
  {
    forall l: Location ensures l in rows && RowAccepted(rows[l], |events|) {
      RowIsAccepted(rows[l], events, l);
    }
    assert RowsAccepted(rows, |events|);
    EventRow(rows[AtEvent], events);
    forall l: Location | Path(l) != []
      ensures l in rows && Parent(l) in rows && MissingAccepted(rows[l], rows[Parent(l)], LastStep(l), |events|)
    {
      MissingIsAccepted(rows[l], rows[Parent(l)], events, l);
    }
    assert NestedAccepted(rows, |events|);
  }

  // ----- what is counted, read off the events

  ghost function Under(v: Found, key: string): Found {
    if v.Here? && v.value.Obj? && Has(v.value.members, key) then Here(Get(v.value.members, key)) else Absent
  }

  /** The nine places, by the keys that lead to them. */
  ghost function Place(event: Members, l: Location): Found {
    var e := Here(Obj(event));
    match l
    case AtEvent => e
    case AtData => Under(e, "data")
    case AtContent => Under(e, "content")
    case AtMessage => Under(e, "message")
    case AtPayload => Under(e, "payload")
    case AtEventEvent => Under(e, "event")
    case AtDataMessage => Under(Under(e, "data"), "message")
    case AtContentMessage => Under(Under(e, "content"), "message")
    case AtEventEventMessage => Under(Under(e, "event"), "message")
  }

  ghost predicate HasType(v: Found, t: ValueType) {
    match t
    case MissingValue => v == Absent
    case NullValue => v == Here(Null)
    case BooleanValue => v == Here(Bool(true)) || v == Here(Bool(false))
    case NumberValue => (exists n :: v == Here(Int(n))) || exists x :: v == Here(Float(x))
    case StringValue => exists s :: v == Here(Str(s))
    case ArrayValue => exists items :: v == Here(Arr(items))
    case ObjectValue => exists m :: v == Here(Obj(m))
  }

  /** The value is an object that calls itself so. */
  ghost predicate Says(v: Found, name: string) { Under(v, "type") == Here(Str(name)) }

  const KNOWN: seq<string> :=
    ["assistant", "result", "user", "system", "tool_result", "tool_use", "stream_event", "message", "text", "thinking"]

  ghost predicate HasCategory(v: Found, c: Category) {
    match c
    case Assistant => Says(v, "assistant")
    case Result => Says(v, "result")
    case User => Says(v, "user")
    case System => Says(v, "system")
    case ToolResult => Says(v, "tool_result")
    case ToolUse => Says(v, "tool_use")
    case StreamEvent => Says(v, "stream_event")
    case MessageKind => Says(v, "message")
    case Text => Says(v, "text")
    case Thinking => Says(v, "thinking")
    case Other => exists name :: Says(v, name) && name !in KNOWN
    case Missing => (exists m :: v == Here(Obj(m))) && Under(v, "type") == Absent
    case NonString => Under(v, "type").Here? && !Under(v, "type").value.Str?
    case NotObject => forall m :: v != Here(Obj(m))
  }

  ghost predicate HasField(v: Found, f: Field) {
    match f
    case Type => Under(v, "type").Here?
    case Event => Under(v, "event").Here?
    case Message => Under(v, "message").Here?
    case Data => Under(v, "data").Here?
    case Content => Under(v, "content").Here?
    case Payload => Under(v, "payload").Here?
    case Usage => Under(v, "usage").Here?
    case ModelUsage => Under(v, "modelUsage").Here?
    case Role => Under(v, "role").Here?
  }

  lemma WalkSteps(v: Found, f: Field, g: Field)
    ensures Walk(v, []) == v && Walk(v, [f]) == Under(v, Key(f))
    ensures Walk(v, [f, g]) == Under(Under(v, Key(f)), Key(g))
  {
    var two := [f, g];
    assert two[..1] == [f] && [f][..0] == [];
  }

  lemma PlaceIs(event: Members, l: Location)
    ensures At(event, l) == Place(event, l)
  {
    var path := Path(l);
    WalkSteps(Here(Obj(event)), if |path| > 0 then path[0] else Type, if |path| > 1 then path[1] else Type);
  }

  lemma TypeMeans(v: Found, t: ValueType)
    ensures TypeOf(v) == t <==> HasType(v, t)
  {
  }

  lemma KnownMeans(v: Found, raw: string)
    requires Says(v, raw)
    ensures HasCategory(v, KnownCategory(raw))
    ensures KnownCategory(raw) == Other <==> raw !in KNOWN
  {
  }

  lemma KnownNames()
    ensures KnownCategory("assistant") == Assistant && KnownCategory("result") == Result
    ensures KnownCategory("user") == User && KnownCategory("system") == System
    ensures KnownCategory("tool_result") == ToolResult && KnownCategory("tool_use") == ToolUse
    ensures KnownCategory("stream_event") == StreamEvent && KnownCategory("message") == MessageKind
    ensures KnownCategory("text") == Text && KnownCategory("thinking") == Thinking
  {
  }

  lemma OwnCategory(v: Found, c: Category)
    requires CategoryOf(v) == c
    ensures HasCategory(v, c)
  {
    if v.Here? && v.value.Obj? && Has(v.value.members, "type") && Get(v.value.members, "type").Str? {
      KnownMeans(v, Get(v.value.members, "type").s);
    }
  }

  lemma OnlyCategory(v: Found, c: Category)
    requires HasCategory(v, c)
    ensures CategoryOf(v) == c
  {
    KnownNames();
    if c == Other {
      var name :| Says(v, name) && name !in KNOWN;
      KnownMeans(v, name);
    }
  }

  lemma CategoryMeans(v: Found, c: Category)
    ensures CategoryOf(v) == c <==> HasCategory(v, c)
  {
    if CategoryOf(v) == c {
      OwnCategory(v, c);
    }
    if HasCategory(v, c) {
      OnlyCategory(v, c);
    }
  }

  lemma FieldMeans(v: Found, f: Field)
    ensures Holds(v, Key(f)) <==> HasField(v, f)
  {
  }

  /** The places of the events that the predicate holds of. */
  ghost function Which(events: seq<Members>, p: Members -> bool): set<nat> {
    set i: nat | i < |events| && p(events[i])
  }

  lemma WhichGrows(events: seq<Members>, p: Members -> bool)
    requires events != []
    ensures var n := |events| - 1; |Which(events, p)| == |Which(events[..n], p)| + One(p(events[n]))
  {
    var n := |events| - 1;
    if p(events[n]) {
      assert Which(events, p) == Which(events[..n], p) + {n};
    } else {
      assert Which(events, p) == Which(events[..n], p);
    }
  }

  lemma {:induction false} TypeCount(events: seq<Members>, l: Location, t: ValueType, p: Members -> bool)
    requires forall event :: p(event) <==> TypeOf(At(event, l)) == t
    ensures CountType(events, l, t) == |Which(events, p)|
  {
    if events == [] {
      assert Which(events, p) == {};
    } else {
      TypeCount(events[..|events| - 1], l, t, p);
      WhichGrows(events, p);
    }
  }

  lemma {:induction false} CategoryCount(events: seq<Members>, l: Location, c: Category, p: Members -> bool)
    requires forall event :: p(event) <==> CategoryOf(At(event, l)) == c
    ensures CountCategory(events, l, c) == |Which(events, p)|
  {
    if events == [] {
      assert Which(events, p) == {};
    } else {
      CategoryCount(events[..|events| - 1], l, c, p);
      WhichGrows(events, p);
    }
  }

  lemma {:induction false} FieldCount(events: seq<Members>, l: Location, f: Field, p: Members -> bool)
    requires forall event :: p(event) <==> Holds(At(event, l), Key(f))
    ensures CountField(events, l, f) == |Which(events, p)|
  {
    if events == [] {
      assert Which(events, p) == {};
    } else {
      FieldCount(events[..|events| - 1], l, f, p);
      WhichGrows(events, p);
    }
  }

  lemma TypeAt(event: Members, l: Location, t: ValueType)
    ensures HasType(Place(event, l), t) <==> TypeOf(At(event, l)) == t
  {
    PlaceIs(event, l);
    TypeMeans(Place(event, l), t);
  }

  lemma CategoryAt(event: Members, l: Location, c: Category)
    ensures HasCategory(Place(event, l), c) <==> CategoryOf(At(event, l)) == c
  {
    PlaceIs(event, l);
    CategoryMeans(Place(event, l), c);
  }

  lemma FieldAt(event: Members, l: Location, f: Field)
    ensures HasField(Place(event, l), f) <==> Holds(At(event, l), Key(f))
  {
    PlaceIs(event, l);
    FieldMeans(Place(event, l), f);
  }

  /** A type is counted as often as the value at the place of an event has it. */
  lemma TypesMean(row: Row, events: seq<Members>, l: Location, t: ValueType, p: Members -> bool)
    requires RowExact(row, events, l) && forall event :: p(event) <==> HasType(Place(event, l), t)
    ensures t in row.types && row.types[t] == |Which(events, p)|
  {
    forall event ensures p(event) <==> TypeOf(At(event, l)) == t {
      TypeAt(event, l, t);
    }
    TypeCount(events, l, t, p);
  }

  /** So is a category. */
  lemma CategoriesMean(row: Row, events: seq<Members>, l: Location, c: Category, p: Members -> bool)
    requires RowExact(row, events, l) && forall event :: p(event) <==> HasCategory(Place(event, l), c)
    ensures c in row.categories && row.categories[c] == |Which(events, p)|
  {
    forall event ensures p(event) <==> CategoryOf(At(event, l)) == c {
      CategoryAt(event, l, c);
    }
    CategoryCount(events, l, c, p);
  }

  /** And a field as often as it is there. */
  lemma FieldsMean(row: Row, events: seq<Members>, l: Location, f: Field, p: Members -> bool)
    requires RowExact(row, events, l) && forall event :: p(event) <==> HasField(Place(event, l), f)
    ensures f in row.fields && row.fields[f] == |Which(events, p)|
  {
    forall event ensures p(event) <==> Holds(At(event, l), Key(f)) {
      FieldAt(event, l, f);
    }
    FieldCount(events, l, f, p);
  }

  // ----- what the verifier notices

  /** An accepted row is refused when the count of a type or of a category is changed by itself. */
  lemma TypeChangesAreNoticed(row: Row, events: nat, t: ValueType)
    requires RowAccepted(row, events)
    ensures t in row.types && !RowAccepted(row.(types := row.types[t := row.types[t] + 1]), events)
  {
  }

  lemma CategoryChangesAreNoticed(row: Row, events: nat, c: Category)
    requires RowAccepted(row, events)
    ensures c in row.categories && !RowAccepted(row.(categories := row.categories[c := row.categories[c] + 1]), events)
  {
  }

  /** Events moved between objects and other values, or between categories, are noticed as well. */
  lemma MovesAreNoticed(row: Row, events: nat, n: nat, m: nat)
    requires RowAccepted(row, events)
    ensures n != row.types[ObjectValue] ==>
              !RowAccepted(row.(types := row.types[ObjectValue := n][NullValue := m]), events)
    ensures n != row.categories[NotObject] ==>
              !RowAccepted(row.(categories := row.categories[NotObject := n][Other := m]), events)
    ensures n != row.categories[Missing] ==>
              !RowAccepted(row.(categories := row.categories[Missing := n][Other := m]), events)
  {
  }

  /** So it is when that of the type field is, or that of any field exceeds the objects. */
  lemma FieldChangesAreNoticed(row: Row, events: nat, f: Field, n: nat)
    requires RowAccepted(row, events)
    ensures n > row.types[ObjectValue] ==> !RowAccepted(row.(fields := row.fields[f := n]), events)
    ensures n != row.fields[Type] ==> !RowAccepted(row.(fields := row.fields[Type := n]), events)
  {
  }

  /** Such a field is compared with what is missing below it. */
  lemma NestedChangesAreNoticed(row: Row, parent: Row, f: Field, events: nat, n: nat)
    requires MissingAccepted(row, parent, f, events)
    ensures n != parent.fields[f] ==> !MissingAccepted(row, parent.(fields := parent.fields[f := n]), f, events)
    ensures n != row.types[MissingValue] ==>
              !MissingAccepted(row.(types := row.types[MissingValue := n]), parent, f, events)
  {
  }
}
