/**
 * What the audit reads in a record, key by key, and how that reaches the report. The keys and the limits
 * are written out here once more, so that these laws do not depend on the constants of the audit.
 */
module AuditRecords {
  import opened Json
  import opened Sorting
  import opened UsageAudit
  import opened AuditMeaning

  /** The value is an object that holds the four counters under these keys, each an integer below 2^63. */
  ghost predicate Holds(value: Json, i: string, o: string, r: string, c: string, t: Tokens) {
    && value.Obj?
    && Get(value.members, i) == Int(t.input) && 0 <= t.input < 0x8000_0000_0000_0000
    && Get(value.members, o) == Int(t.output) && 0 <= t.output < 0x8000_0000_0000_0000
    && Get(value.members, r) == Int(t.cacheRead) && 0 <= t.cacheRead < 0x8000_0000_0000_0000
    && Get(value.members, c) == Int(t.cacheCreation) && 0 <= t.cacheCreation < 0x8000_0000_0000_0000
  }

  ghost predicate IsUsage(value: Json, t: Tokens) {
    Holds(value, "input_tokens", "output_tokens", "cache_read_input_tokens", "cache_creation_input_tokens", t)
  }

  ghost predicate IsModelEntry(value: Json, t: Tokens) {
    Holds(value, "inputTokens", "outputTokens", "cacheReadInputTokens", "cacheCreationInputTokens", t)
  }

  function Total(entries: seq<Tokens>, f: Tokens -> int): int {
    if entries == [] then 0 else Total(entries[..|entries| - 1], f) + f(entries[|entries| - 1])
  }

  function In(t: Tokens): int { t.input }

  function Out(t: Tokens): int { t.output }

  function CacheRead(t: Tokens): int { t.cacheRead }

  function CacheCreation(t: Tokens): int { t.cacheCreation }

  /** One readable entry for each model, and at least one; `t` is the sum over them, field by field. */
  ghost predicate IsModelUsage(value: Json, entries: seq<Tokens>, t: Tokens) {
    && value.Obj? && value.members != [] && |entries| == |value.members|
    && (forall k | 0 <= k < |entries| :: IsModelEntry(value.members[k].1, entries[k]))
    && t.input == Total(entries, In) && t.output == Total(entries, Out)
    && t.cacheRead == Total(entries, CacheRead) && t.cacheCreation == Total(entries, CacheCreation)
  }

  // ----- the counters

  lemma UsageIs(value: Json, t: Tokens)
    ensures Counters(value, TOKEN_FIELDS) == Some(t) <==> IsUsage(value, t)
  {
  }

  lemma ModelEntryIs(value: Json, t: Tokens)
    ensures Counters(value, MODEL_FIELDS) == Some(t) <==> IsModelEntry(value, t)
  {
  }

  lemma {:induction false} ModelsAreSummed(members: seq<(string, Json)>, entries: seq<Tokens>)
    requires |entries| == |members|
    requires forall k | 0 <= k < |entries| :: IsModelEntry(members[k].1, entries[k])
    ensures SumOfModels(members) == Some(Tokens(Total(entries, In), Total(entries, Out),
                                                Total(entries, CacheRead), Total(entries, CacheCreation)))
  {
    if members != [] {
      var n := |members| - 1;
      ModelsAreSummed(members[..n], entries[..n]);
      ModelEntryIs(members[n].1, entries[n]);
    }
  }

  lemma {:induction false} SummedModelsAreRead(members: seq<(string, Json)>) returns (entries: seq<Tokens>)
    requires SumOfModels(members).Some?
    ensures |entries| == |members|
    ensures forall k | 0 <= k < |entries| :: IsModelEntry(members[k].1, entries[k])
  {
    if members == [] {
      entries := [];
    } else {
      var n := |members| - 1;
      entries := SummedModelsAreRead(members[..n]);
      var last := Counters(members[n].1, MODEL_FIELDS).value;
      ModelEntryIs(members[n].1, last);
      entries := entries + [last];
    }
  }

  lemma ModelUsageIs(value: Json, t: Tokens)
    ensures ModelCounters(value) == Some(t) <==> exists entries :: IsModelUsage(value, entries, t)
  {
    if ModelCounters(value) == Some(t) {
      var entries := SummedModelsAreRead(value.members);
      ModelsAreSummed(value.members, entries);
      assert IsModelUsage(value, entries, t);
    }
    if entries :| IsModelUsage(value, entries, t) {
      ModelsAreSummed(value.members, entries);
    }
  }

  // ----- the records

  ghost predicate HasType(record: Json, kind: string) {
    record.Obj? && Get(record.members, "type") == Str(kind)
  }

  /** The message of the record is an object with this identifier, which is neither empty nor too long. */
  ghost predicate HasIdentity(members: seq<(string, Json)>, id: string) {
    var message := Get(members, "message");
    message.Obj? && Get(message.members, "id") == Str(id) && 0 < |id| <= 512
  }

  ghost predicate HasMessageUsage(members: seq<(string, Json)>, t: Tokens) {
    var message := Get(members, "message");
    message.Obj? && IsUsage(Get(message.members, "usage"), t)
  }

  /** An assistant record belongs to a subagent, or lacks an identity, or its usage, or is a message. */
  lemma AssistantRecordMeans(record: Json, id: string, t: Tokens)
    requires HasType(record, "assistant")
    ensures var (e, outer) := (Classify(record), Get(record.members, "parent_tool_use_id") == Null);
            && (e == Subagent <==> !outer)
            && (e == NoIdentity <==> outer && !exists x :: HasIdentity(record.members, x))
            && (e == BadUsage <==> && outer && (exists x :: HasIdentity(record.members, x))
                                   && !exists u :: HasMessageUsage(record.members, u))
            && (e == Message(id, t) <==>
                  outer && HasIdentity(record.members, id) && HasMessageUsage(record.members, t))
  {
    var m := record.members;
    var message := Get(m, "message");
    if message.Obj? {
      var usage := Get(message.members, "usage");
      forall u ensures Counters(usage, TOKEN_FIELDS) == Some(u) <==> HasMessageUsage(m, u) {
        UsageIs(usage, u);
      }
      var named := Get(message.members, "id");
      if named.Str? {
        assert HasIdentity(m, named.s) <==> 0 < |named.s| <= 512;
      }
    }
    AssistantEffect(m);
  }

  /** The branches of an assistant record, in order. */
  lemma AssistantEffect(m: seq<(string, Json)>)
    ensures var (e, message) := (ClassifyAssistant(m), Get(m, "message"));
            if Get(m, "parent_tool_use_id") != Null then e == Subagent
            else if !message.Obj? || !Get(message.members, "id").Str? then e == NoIdentity
            else
              var (id, read) := (Get(message.members, "id").s, Counters(Get(message.members, "usage"), TOKEN_FIELDS));
              e == if !(0 < |id| <= 512) then NoIdentity else if read == None then BadUsage else Message(id, read.value)
  {
  }

  /** A result that names an error says so; its two readings are missing, invalid, or the counters they hold. */
  lemma ResultRecordMeans(record: Json, t: Tokens)
    requires HasType(record, "result")
    ensures Classify(record).Outcome?
    ensures Classify(record).error <==> exists rest :: Get(record.members, "subtype") == Str("error_" + rest)
    ensures var (seen, usage) := (Classify(record).usage, Get(record.members, "usage"));
            && (seen == Missing <==> usage == Null)
            && (seen == Invalid <==> usage != Null && !exists u :: IsUsage(usage, u))
            && (seen == Read(t) <==> IsUsage(usage, t))
    ensures var (seen, model) := (Classify(record).model, Get(record.members, "modelUsage"));
            && (seen == Missing <==> model == Null || model == Obj([]))
            && (seen == Invalid <==> && model != Null && model != Obj([])
                                     && !exists entries, u :: IsModelUsage(model, entries, u))
            && (seen == Read(t) <==> exists entries :: IsModelUsage(model, entries, t))
  {
    var m := record.members;
    ErrorSubtype(Get(m, "subtype"));
    forall u ensures Counters(Get(m, "usage"), TOKEN_FIELDS) == Some(u) <==> IsUsage(Get(m, "usage"), u) {
      UsageIs(Get(m, "usage"), u);
    }
    ModelReading(Get(m, "modelUsage"), ModelCounters(Get(m, "modelUsage")), t);
  }

  lemma ErrorSubtype(subtype: Json)
    ensures subtype.Str? && "error_" <= subtype.s <==> exists rest :: subtype == Str("error_" + rest)
  {
    if subtype.Str? && "error_" <= subtype.s {
      assert subtype.s == "error_" + subtype.s[6..];
    }
  }

  lemma ModelReading(model: Json, read: Option<Tokens>, t: Tokens)
    requires read == ModelCounters(model)
    ensures read == Some(t) <==> exists entries :: IsModelUsage(model, entries, t)
    ensures read.Some? <==> exists entries, u :: IsModelUsage(model, entries, u)
    ensures read.Some? ==> model.Obj? && model.members != []
  {
    ModelUsageIs(model, t);
    if read.Some? {
      ModelUsageIs(model, read.value);
      var entries :| IsModelUsage(model, entries, read.value);
    }
    if entries, u :| IsModelUsage(model, entries, u) {
      ModelUsageIs(model, u);
    }
  }

  /** Which records are none of these. */
  lemma OtherRecordMeans(record: Json)
    ensures Classify(record) == Ignored <==>
            HasType(record, "user") || HasType(record, "system") || HasType(record, "stream_event")
    ensures Classify(record) == Unsupported <==>
            && !HasType(record, "assistant") && !HasType(record, "result")
            && !HasType(record, "user") && !HasType(record, "system") && !HasType(record, "stream_event")
  {
    if record.Obj? {
      var kind := Get(record.members, "type");
      var (user, system, stream) := (Str("user"), Str("system"), Str("stream_event"));
      assert |user.s| == 4 && |system.s| == 6 && |stream.s| == 12 && |"assistant"| == 9 && "result"[0] == 'r';
      assert Str("assistant").s != user.s && Str("result").s != system.s;
      if kind == Str("assistant") {
        AssistantEffect(record.members);
      }
    }
  }

  // ----- and the report

  lemma OneEffect(records: seq<Json>, effects: seq<Effect>, s: State)
    requires |records| == 1 && effects == Map(Classify, records) && s == Step(Start(), effects[0])
    ensures Consistent(s) && Audit(records) == Audited(Finish(s))
  {
    FoldIsConsistent(effects);
    assert effects[..0] == [];
    assert Fold(effects[..0]) == Start();
  }

  lemma FinishMessage(s: State, id: string, t: Tokens)
    requires s == Step(Start(), Message(id, t)) && Consistent(s)
    ensures Finish(s).observationsOnly && Finish(s).diagnostics == {}
    ensures Finish(s).assistant == Assistant(1, 1, 0, 0, 0, Some(InputCache(t.input, t.cacheRead, t.cacheCreation)))
  {
    assert s.order == [id] && s.order[..0] == [] && s.seen[id] == t;
    assert SumInput(s.order[..0], s.seen) == InputCache(0, 0, 0);
  }

  lemma FinishOutcome(s: State, e: Effect)
    requires s == Step(Start(), e) && Consistent(s) && e.Outcome? && e.usage.Read? && e.model.Read?
    ensures Finish(s).result.usage == Track(1, 0, Some(e.usage.tokens))
    ensures Finish(s).result.model == Track(1, 0, Some(e.model.tokens))
  {
  }

  /** One message alone: its counters are reported, each in its own place, and the output stays out. */
  lemma OneMessageIsReported(record: Json, id: string, t: Tokens, r: Report)
    requires HasType(record, "assistant") && Get(record.members, "parent_tool_use_id") == Null
    requires HasIdentity(record.members, id) && HasMessageUsage(record.members, t)
    requires Audit([record]) == Audited(r)
    ensures r.observationsOnly && r.diagnostics == {}
    ensures r.assistant == Assistant(1, 1, 0, 0, 0, Some(InputCache(t.input, t.cacheRead, t.cacheCreation)))
  {
    AssistantRecordMeans(record, id, t);
    var s := Step(Start(), Message(id, t));
    OneEffect([record], Map(Classify, [record]), s);
    FinishMessage(s, id, t);
  }

  /** One result alone: both readings are reported as they are, the second summed over its models. */
  lemma OneResultIsReported(record: Json, t: Tokens, entries: seq<Tokens>, u: Tokens, r: Report)
    requires HasType(record, "result") && IsUsage(Get(record.members, "usage"), t)
    requires IsModelUsage(Get(record.members, "modelUsage"), entries, u)
    requires Audit([record]) == Audited(r)
    ensures r.result.usage == Track(1, 0, Some(t)) && r.result.model == Track(1, 0, Some(u))
  {
    ResultRecordMeans(record, t);
    ResultRecordMeans(record, u);
    var e := Classify(record);
    OneEffect([record], Map(Classify, [record]), Step(Start(), e));
    FinishOutcome(Step(Start(), e), e);
  }

  /** The counters of the first usable record of each identifier. */
  function FirstTokens(effects: seq<Effect>): seq<Tokens> {
    if effects == [] then []
    else
      var n := |effects| - 1;
      FirstTokens(effects[..n])
      + if effects[n].Message? && forall m | m in Messages(effects[..n]) :: m.0 != effects[n].id
        then [effects[n].tokens] else []
  }

  lemma TotalGrows(entries: seq<Tokens>, t: Tokens, f: Tokens -> int)
    ensures Total(entries + [t], f) == Total(entries, f) + f(t)
  {
    assert (entries + [t])[..|entries|] == entries;
  }

  function ByField(entries: seq<Tokens>): InputCache {
    InputCache(Total(entries, In), Total(entries, CacheRead), Total(entries, CacheCreation))
  }

  lemma ByFieldGrows(entries: seq<Tokens>, t: Tokens)
    ensures ByField(entries + [t]) == PlusInput(ByField(entries), InputOf(t))
  {
    TotalGrows(entries, t, In);
    TotalGrows(entries, t, CacheRead);
    TotalGrows(entries, t, CacheCreation);
  }

  /** The aggregate, field by field: each is its own sum over the first usable records. */
  lemma {:induction false} FirstSumByField(effects: seq<Effect>)
    ensures FirstSum(effects) == InputCache(Total(FirstTokens(effects), In), Total(FirstTokens(effects), CacheRead),
                                            Total(FirstTokens(effects), CacheCreation))
  {
    if effects != [] {
      var n := |effects| - 1;
      FirstSumByField(effects[..n]);
      var first := FirstTokens(effects[..n]);
      if effects[n].Message? && forall m | m in Messages(effects[..n]) :: m.0 != effects[n].id {
        ByFieldGrows(first, effects[n].tokens);
      } else {
        assert FirstTokens(effects) == first;
      }
    }
  }

  /** Whether an identifier conflicts is a matter of input and cache counters; outputs may differ. */
  lemma ConflictsByField(messages: MessageSet, id: string)
    ensures id in Conflicting(messages) <==>
            exists t, u :: (id, t) in messages && (id, u) in messages &&
                           (t.input != u.input || t.cacheRead != u.cacheRead || t.cacheCreation != u.cacheCreation)
  {
    if t, u :| (id, t) in messages && (id, u) in messages &&
               (t.input != u.input || t.cacheRead != u.cacheRead || t.cacheCreation != u.cacheCreation) {
      assert (id, t).0 in Identifiers(messages);
      assert InputOf(t) != InputOf(u);
    }
  }

  /** The records that give cause for a diagnostic by themselves. */
  ghost predicate Causes(e: Effect, d: Diagnostic) {
    match d
    case UnsupportedRecord => e == Unsupported
    case SubagentScopeExcluded => e == Subagent
    case MissingAssistantIdentity => e == NoIdentity
    case InvalidAssistantUsage => e == BadUsage
    case ErrorResultObserved => e.Outcome? && e.error
    case ResultScopeUnverified => e.Outcome?
    case MissingResultUsage => e.Outcome? && e.usage == Missing
    case InvalidResultUsage => e.Outcome? && e.usage == Invalid
    case MissingResultModelUsage => e.Outcome? && e.model == Missing
    case InvalidResultModelUsage => e.Outcome? && e.model == Invalid
    case _ => false
  }

  predicate ComesOfComparing(d: Diagnostic) {
    d == ConflictingAssistantUsage || d == OutputPlaceholderDivergence || d == NoUsageObservations
  }

  lemma DirectIsCause(e: Effect, d: Diagnostic)
    ensures d in Direct(e) <==> Causes(e, d)
  {
  }

  /** A diagnostic that comes of single records is reported exactly when some record gives cause for it. */
  lemma DiagnosticMeaning(records: seq<Json>, effects: seq<Effect>, r: Report, d: Diagnostic)
    requires |records| <= 100_000 && effects == Map(Classify, records) && r == Audit(records).report
    requires !ComesOfComparing(d)
    ensures d in r.diagnostics <==> exists e :: e in effects && Causes(e, d)
  {
    var s := Fold(effects);
    FoldIsConsistent(effects);
    FoldDiagnoses(effects, s);
    InDirect(effects, d);
    forall e ensures d in Direct(e) <==> Causes(e, d) {
      DirectIsCause(e, d);
    }
    assert d in s.diagnostics <==> d in DirectDiagnostics(effects);
  }

  /** The other three. */
  lemma ComparisonMeaning(records: seq<Json>, effects: seq<Effect>, r: Report)
    requires |records| <= 100_000 && effects == Map(Classify, records) && r == Audit(records).report
    ensures ConflictingAssistantUsage in r.diagnostics <==> Conflicting(Messages(effects)) != {}
    ensures OutputPlaceholderDivergence in r.diagnostics <==> Diverged(Messages(effects))
    ensures NoUsageObservations in r.diagnostics <==>
            Messages(effects) == {} && r.result.usage.count == 0 && r.result.model.count == 0
  {
    var s := Fold(effects);
    FoldIsConsistent(effects);
    FoldMeans(effects, s);
    FoldDiagnoses(effects, s);
    NoRecordCompares(effects);
    FinishCompares(s, Messages(effects), DirectDiagnostics(effects), Finish(s));
  }

  lemma {:induction false} NoRecordCompares(effects: seq<Effect>)
    ensures ConflictingAssistantUsage !in DirectDiagnostics(effects)
    ensures NoUsageObservations !in DirectDiagnostics(effects)
  {
    if effects != [] {
      NoRecordCompares(effects[..|effects| - 1]);
    }
  }

  lemma FinishCompares(s: State, messages: MessageSet, direct: set<Diagnostic>, r: Report)
    requires Consistent(s) && SeenMeans(s, messages) && ConflictsMean(s, messages) && DivergenceMeans(s, messages)
    requires DiagnosticsMean(s, direct) && r == Finish(s)
    requires ConflictingAssistantUsage !in direct && NoUsageObservations !in direct
    ensures ConflictingAssistantUsage in r.diagnostics <==> Conflicting(messages) != {}
    ensures OutputPlaceholderDivergence in r.diagnostics <==> Diverged(messages)
    ensures NoUsageObservations in r.diagnostics <==>
            messages == {} && r.result.usage.count == 0 && r.result.model.count == 0
  {
    ConflictsAreConflicting(s, messages);
    IdentifiersAreSeen(s, messages);
  }
}
