/** `scripts/audit_claude_usage.py`: usage observations counted over a stream of records. */
module UsageAudit {
  import opened Json
  import opened Sorting

  datatype Option<T> = None | Some(value: T)

  datatype Tokens = Tokens(input: int, output: int, cacheRead: int, cacheCreation: int)

  /** The three counters that are summed over messages; output is a placeholder and stays out. */
  datatype InputCache = InputCache(input: int, cacheRead: int, cacheCreation: int)

  const MAX_RECORDS := 100_000
  const LIMIT := 0x8000_0000_0000_0000

  function InputOf(t: Tokens): InputCache { InputCache(t.input, t.cacheRead, t.cacheCreation) }

  function Plus(a: Tokens, b: Tokens): Tokens {
    Tokens(a.input + b.input, a.output + b.output, a.cacheRead + b.cacheRead, a.cacheCreation + b.cacheCreation)
  }

  function PlusInput(a: InputCache, b: InputCache): InputCache {
    InputCache(a.input + b.input, a.cacheRead + b.cacheRead, a.cacheCreation + b.cacheCreation)
  }

  // ----- reading one record

  datatype Names = Names(input: string, output: string, cacheRead: string, cacheCreation: string)

  const TOKEN_FIELDS :=
    Names("input_tokens", "output_tokens", "cache_read_input_tokens", "cache_creation_input_tokens")
  const MODEL_FIELDS :=
    Names("inputTokens", "outputTokens", "cacheReadInputTokens", "cacheCreationInputTokens")

  /** An integer, not a boolean, that fits 63 bits. */
  predicate IsCounter(value: Json) { value.Int? && 0 <= value.n < LIMIT }

  function Counters(value: Json, names: Names): Option<Tokens> {
    if !value.Obj? then None
    else
      var i, o := Get(value.members, names.input), Get(value.members, names.output);
      var r, c := Get(value.members, names.cacheRead), Get(value.members, names.cacheCreation);
      if IsCounter(i) && IsCounter(o) && IsCounter(r) && IsCounter(c) then Some(Tokens(i.n, o.n, r.n, c.n)) else None
  }

  /** The sum over all models, or nothing as soon as one entry is unreadable. */
  function SumOfModels(members: seq<(string, Json)>): Option<Tokens> {
    if members == [] then Some(Tokens(0, 0, 0, 0))
    else
      var total := SumOfModels(members[..|members| - 1]);
      var entry := Counters(members[|members| - 1].1, MODEL_FIELDS);
      if total.Some? && entry.Some? then Some(Plus(total.value, entry.value)) else None
  }

  function ModelCounters(value: Json): Option<Tokens> {
    if !value.Obj? || value.members == [] then None else SumOfModels(value.members)
  }

  lemma {:induction false} OneBadModelSpoilsAll(members: seq<(string, Json)>, i: nat)
    requires i < |members| && Counters(members[i].1, MODEL_FIELDS) == None
    ensures SumOfModels(members) == None
  {
    var n := |members| - 1;
    if i < n {
      assert members[..n][i] == members[i];
      OneBadModelSpoilsAll(members[..n], i);
    }
  }

  method ReadModelCounters(value: Json) returns (r: Option<Tokens>)
    ensures r == ModelCounters(value)
  {
    if !value.Obj? || value.members == [] {
      return None;
    }
    var total := Tokens(0, 0, 0, 0);
    for i := 0 to |value.members|
      invariant SumOfModels(value.members[..i]) == Some(total)
    {
      var counters := Counters(value.members[i].1, MODEL_FIELDS);
      if counters == None {
        OneBadModelSpoilsAll(value.members, i);
        return None;
      }
      assert value.members[..i + 1][..i] == value.members[..i];
      total := Plus(total, counters.value);
    }
    assert value.members[..|value.members|] == value.members;
    r := Some(total);
  }

  datatype Observation = Read(tokens: Tokens) | Missing | Invalid

  function ObservationOf(counters: Option<Tokens>, missing: bool): Observation {
    if counters.Some? then Read(counters.value) else if missing then Missing else Invalid
  }

  /** What a record means to the audit. */
  datatype Effect =
    | Unsupported
    | Ignored
    | Subagent
    | NoIdentity
    | BadUsage
    | Message(id: string, tokens: Tokens)
    | Outcome(error: bool, usage: Observation, model: Observation)

  function ClassifyAssistant(members: seq<(string, Json)>): Effect {
    if Get(members, "parent_tool_use_id") != Null then Subagent
    else
      var message := Get(members, "message");
      var id := if message.Obj? then Get(message.members, "id") else Null;
      if !id.Str? || id.s == "" || |id.s| > 512 then NoIdentity
      else
        var counters := if message.Obj? then Counters(Get(message.members, "usage"), TOKEN_FIELDS) else None;
        if counters == None then BadUsage else Message(id.s, counters.value)
  }

  function ClassifyResult(members: seq<(string, Json)>): Effect {
    var subtype := Get(members, "subtype");
    var usage, model := Get(members, "usage"), Get(members, "modelUsage");
    Outcome(subtype.Str? && "error_" <= subtype.s,
            ObservationOf(Counters(usage, TOKEN_FIELDS), usage == Null),
            ObservationOf(ModelCounters(model), model == Null || model == Obj([])))
  }

  function Classify(record: Json): Effect {
    if !record.Obj? then Unsupported
    else
      var kind := Get(record.members, "type");
      if kind == Str("assistant") then ClassifyAssistant(record.members)
      else if kind == Str("result") then ClassifyResult(record.members)
      else if kind == Str("user") || kind == Str("system") || kind == Str("stream_event") then Ignored
      else Unsupported
  }

  // ----- folding a stream

  datatype Diagnostic =
    | UnsupportedRecord
    | SubagentScopeExcluded
    | MissingAssistantIdentity
    | InvalidAssistantUsage
    | ConflictingAssistantUsage
    | OutputPlaceholderDivergence
    | ErrorResultObserved
    | ResultScopeUnverified
    | NoUsageObservations
    | MissingResultUsage
    | InvalidResultUsage
    | MissingResultModelUsage
    | InvalidResultModelUsage

  /** One of the two series of result observations. */
  datatype Track = Track(count: nat, falls: nat, last: Option<Tokens>)

  datatype State = State(
    seen: map<string, Tokens>,
    order: seq<string>,
    conflicts: set<string>,
    diagnostics: set<Diagnostic>,
    inputComplete: bool,
    records: nat,
    duplicates: nat,
    subagents: nat,
    results: nat,
    errors: nat,
    usage: Track,
    model: Track)

  function Start(): State {
    State(map[], [], {}, {}, true, 0, 0, 0, 0, 0, Track(0, 0, None), Track(0, 0, None))
  }

  predicate SomeFieldFell(now: Tokens, before: Tokens) {
    || now.input < before.input
    || now.output < before.output
    || now.cacheRead < before.cacheRead
    || now.cacheCreation < before.cacheCreation
  }

  /** An incomplete result never inherits the snapshot before it. */
  function Observe(t: Track, o: Observation): Track {
    if !o.Read? then t.(last := None)
    else
      var fell := t.last.Some? && SomeFieldFell(o.tokens, t.last.value);
      Track(t.count + 1, t.falls + if fell then 1 else 0, Some(o.tokens))
  }

  /** The diagnostics a record causes by itself. */
  function Direct(e: Effect): set<Diagnostic> {
    match e
    case Unsupported => {UnsupportedRecord}
    case Ignored => {}
    case Subagent => {SubagentScopeExcluded}
    case NoIdentity => {MissingAssistantIdentity}
    case BadUsage => {InvalidAssistantUsage}
    case Message(_, _) => {}
    case Outcome(error, usage, model) =>
      (if error then {ErrorResultObserved} else {}) + {ResultScopeUnverified}
      + UsageDiagnostic(usage) + ModelDiagnostic(model)
  }

  function UsageDiagnostic(o: Observation): set<Diagnostic> {
    match o
    case Read(_) => {}
    case Missing => {MissingResultUsage}
    case Invalid => {InvalidResultUsage}
  }

  function ModelDiagnostic(o: Observation): set<Diagnostic> {
    match o
    case Read(_) => {}
    case Missing => {MissingResultModelUsage}
    case Invalid => {InvalidResultModelUsage}
  }

  function StepRepeat(s: State, id: string, t: Tokens): State
    requires id in s.seen
  {
    var conflict := InputOf(s.seen[id]) != InputOf(t);
    var diverges := s.seen[id].output != t.output;
    s.(records := s.records + 1,
       duplicates := s.duplicates + 1,
       conflicts := if conflict then s.conflicts + {id} else s.conflicts,
       inputComplete := s.inputComplete && !conflict,
       diagnostics := s.diagnostics
                      + (if conflict then {ConflictingAssistantUsage} else {})
                      + (if diverges then {OutputPlaceholderDivergence} else {}))
  }

  function Step(s: State, e: Effect): State {
    match e
    case Unsupported => s.(diagnostics := s.diagnostics + Direct(e))
    case Ignored => s
    case Subagent =>
      s.(records := s.records + 1, subagents := s.subagents + 1, diagnostics := s.diagnostics + Direct(e))
    case NoIdentity =>
      s.(records := s.records + 1, inputComplete := false, diagnostics := s.diagnostics + Direct(e))
    case BadUsage =>
      s.(records := s.records + 1, inputComplete := false, diagnostics := s.diagnostics + Direct(e))
    case Message(id, t) =>
      if id in s.seen then StepRepeat(s, id, t)
      else s.(records := s.records + 1, seen := s.seen[id := t], order := s.order + [id])
    case Outcome(error, usage, model) =>
      s.(results := s.results + 1,
         errors := s.errors + (if error then 1 else 0),
         usage := Observe(s.usage, usage),
         model := Observe(s.model, model),
         diagnostics := s.diagnostics + Direct(e))
  }

  function Fold(effects: seq<Effect>): State {
    if effects == [] then Start() else Step(Fold(effects[..|effects| - 1]), effects[|effects| - 1])
  }

  // ----- the report

  datatype Assistant = Assistant(
    records: nat, unique: nat, duplicates: nat, conflicting: nat, subagents: nat, inputCache: Option<InputCache>)
  datatype Results = Results(records: nat, errors: nat, usage: Track, model: Track)
  datatype Report = Report(
    observationsOnly: bool, assistant: Assistant, result: Results, diagnostics: set<Diagnostic>)

  datatype Audited = Audited(report: Report) | InputLimitExceeded

  const HARMLESS := {ResultScopeUnverified, SubagentScopeExcluded, OutputPlaceholderDivergence}

  function SumInput(order: seq<string>, seen: map<string, Tokens>): InputCache
    requires forall id | id in order :: id in seen
  {
    if order == [] then InputCache(0, 0, 0)
    else PlusInput(SumInput(order[..|order| - 1], seen), InputOf(seen[order[|order| - 1]]))
  }

  ghost predicate Consistent(s: State) {
    forall id :: id in s.order <==> id in s.seen
  }

  function Diagnosed(s: State): set<Diagnostic> {
    s.diagnostics
    + if s.order == [] && s.usage.count == 0 && s.model.count == 0 then {NoUsageObservations} else {}
  }

  function Finish(s: State): Report
    requires Consistent(s)
  {
    var inputCache := if s.order != [] && s.inputComplete then Some(SumInput(s.order, s.seen)) else None;
    Report(Diagnosed(s) - HARMLESS == {},
           Assistant(s.records, |s.order|, s.duplicates, |s.conflicts|, s.subagents, inputCache),
           Results(s.results, s.errors, s.usage, s.model),
           Diagnosed(s))
  }

  lemma {:induction false} FoldIsConsistent(effects: seq<Effect>)
    ensures Consistent(Fold(effects))
  {
    if effects != [] {
      FoldIsConsistent(effects[..|effects| - 1]);
    }
  }

  function Audit(records: seq<Json>): Audited {
    if |records| > MAX_RECORDS then InputLimitExceeded
    else
      FoldIsConsistent(Map(Classify, records));
      Audited(Finish(Fold(Map(Classify, records))))
  }

  // ----- the loop

  method AuditAssistant(s: State, members: seq<(string, Json)>) returns (s': State)
    ensures s' == Step(s, ClassifyAssistant(members))
  {
    s' := s.(records := s.records + 1);
    if Get(members, "parent_tool_use_id") != Null {
      s' := s'.(subagents := s'.subagents + 1, diagnostics := s'.diagnostics + {SubagentScopeExcluded});
      return;
    }
    var message := Get(members, "message");
    var id := if message.Obj? then Get(message.members, "id") else Null;
    if !id.Str? || id.s == "" || |id.s| > 512 {
      s' := s'.(diagnostics := s'.diagnostics + {MissingAssistantIdentity}, inputComplete := false);
      return;
    }
    var counters := Counters(Get(message.members, "usage"), TOKEN_FIELDS);
    if counters == None {
      s' := s'.(diagnostics := s'.diagnostics + {InvalidAssistantUsage}, inputComplete := false);
      return;
    }
    var t := counters.value;
    if id.s in s.seen {
      s' := AuditRepeat(s, id.s, t);
    } else {
      s' := s'.(seen := s'.seen[id.s := t], order := s'.order + [id.s]);
    }
  }

  /** A further record of an identifier: input counters must agree, output counters may grow. */
  method AuditRepeat(s: State, id: string, t: Tokens) returns (s': State)
    requires id in s.seen
    ensures s' == Step(s, Message(id, t))
  {
    s' := s.(records := s.records + 1, duplicates := s.duplicates + 1);
    if InputOf(s.seen[id]) != InputOf(t) {
      s' := s'.(conflicts := s'.conflicts + {id},
                diagnostics := s'.diagnostics + {ConflictingAssistantUsage},
                inputComplete := false);
    }
    if s.seen[id].output != t.output {
      s' := s'.(diagnostics := s'.diagnostics + {OutputPlaceholderDivergence});
    }
  }

  method AuditResult(s: State, members: seq<(string, Json)>) returns (s': State)
    ensures s' == Step(s, ClassifyResult(members))
  {
    var errors, diagnostics := s.errors, s.diagnostics;
    var subtype := Get(members, "subtype");
    if subtype.Str? && "error_" <= subtype.s {
      errors, diagnostics := errors + 1, diagnostics + {ErrorResultObserved};
    }
    diagnostics := diagnostics + {ResultScopeUnverified};
    var usage := Get(members, "usage");
    var counters := Counters(usage, TOKEN_FIELDS);
    var usageSeen := ObservationOf(counters, usage == Null);
    diagnostics := diagnostics + UsageDiagnostic(usageSeen);
    var model := Get(members, "modelUsage");
    counters := ReadModelCounters(model);
    var modelSeen := ObservationOf(counters, model == Null || model == Obj([]));
    diagnostics := diagnostics + ModelDiagnostic(modelSeen);
    s' := s.(results := s.results + 1, errors := errors, diagnostics := diagnostics,
             usage := Observe(s.usage, usageSeen), model := Observe(s.model, modelSeen));
  }

  lemma FoldStep(records: seq<Json>, i: nat)
    requires i < |records|
    ensures Fold(Map(Classify, records[..i + 1])) == Step(Fold(Map(Classify, records[..i])), Classify(records[i]))
  {
    var longer, shorter := Map(Classify, records[..i + 1]), Map(Classify, records[..i]);
    assert longer[..i] == shorter;
  }

  method AuditMessages(records: seq<Json>) returns (audited: Audited)
    ensures audited == Audit(records)
    ensures audited == InputLimitExceeded <==> |records| > 100_000
  {
    var s := Start();
    for i := 0 to |records|
      invariant i <= MAX_RECORDS
      invariant s == Fold(Map(Classify, records[..i]))
    {
      if i >= MAX_RECORDS {
        return InputLimitExceeded;
      }
      FoldStep(records, i);
      var record := records[i];
      if !record.Obj? {
        s := s.(diagnostics := s.diagnostics + {UnsupportedRecord});
        continue;
      }
      var kind := Get(record.members, "type");
      if kind == Str("assistant") {
        s := AuditAssistant(s, record.members);
      } else if kind == Str("result") {
        s := AuditResult(s, record.members);
      } else if kind != Str("user") && kind != Str("system") && kind != Str("stream_event") {
        s := s.(diagnostics := s.diagnostics + {UnsupportedRecord});
      }
    }
    assert records[..|records|] == records;
    FoldIsConsistent(Map(Classify, records));
    audited := Audited(Finish(s));
  }
}
