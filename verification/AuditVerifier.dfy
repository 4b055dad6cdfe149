/**
 * What `scripts/verify_claude_cloud.py` demands of an audit report, and when a report that the audit
 * produces meets it. The demands are restated here from the verifier, which was written separately from
 * the audit on purpose; the invariants of the fold that they need follow.
 */
module AuditVerifier {
  import opened Json
  import opened Sorting
  import opened UsageAudit

  // ----- the demands

  predicate Fits(n: int) { 0 <= n < LIMIT }

  predicate TokensFit(t: Tokens) { Fits(t.input) && Fits(t.output) && Fits(t.cacheRead) && Fits(t.cacheCreation) }

  predicate InputFits(t: InputCache) { Fits(t.input) && Fits(t.cacheRead) && Fits(t.cacheCreation) }

  predicate TrackAccepted(t: Track, observationsOnly: bool) {
    && Fits(t.count) && Fits(t.falls)
    && (t.last.Some? ==> TokensFit(t.last.value))
    && (t.last == None || t.count > 0)
    && (observationsOnly ==> t.count == 0 || t.last.Some?)
    && t.falls <= (if t.count > 1 then t.count - 1 else 0)
  }

  predicate CountsFit(r: Report) {
    && Fits(r.assistant.records) && Fits(r.assistant.unique) && Fits(r.assistant.duplicates)
    && Fits(r.assistant.conflicting) && Fits(r.assistant.subagents)
    && Fits(r.result.records) && Fits(r.result.errors)
  }

  predicate AuditAccepted(r: Report) {
    && CountsFit(r)
    && (r.assistant.inputCache.Some? ==> InputFits(r.assistant.inputCache.value))
    && TrackAccepted(r.result.usage, r.observationsOnly)
    && TrackAccepted(r.result.model, r.observationsOnly)
  }

  predicate CountsAccepted(r: Report, events: nat) {
    && r.assistant.records + r.result.records <= events
    && r.assistant.unique <= r.assistant.records
    && r.assistant.duplicates <= r.assistant.records
    && r.assistant.conflicting <= r.assistant.unique
    && r.assistant.subagents <= r.assistant.records
    && r.result.usage.count <= r.result.records
    && r.result.model.count <= r.result.records
    && r.result.errors <= r.result.records
  }

  // ----- what the fold keeps

  /** The counters of a message or of a `usage` are in range; those of a `modelUsage` are sums. */
  predicate Proper(e: Effect) {
    match e
    case Message(_, t) => TokensFit(t)
    case Outcome(_, usage, model) =>
      (usage.Read? ==> TokensFit(usage.tokens)) && (model.Read? ==> NonNegative(model.tokens))
    case _ => true
  }

  predicate NonNegative(t: Tokens) { t.input >= 0 && t.output >= 0 && t.cacheRead >= 0 && t.cacheCreation >= 0 }

  lemma {:induction false} ModelSumsAreNonNegative(members: seq<(string, Json)>)
    ensures SumOfModels(members).Some? ==> NonNegative(SumOfModels(members).value)
  {
    if members != [] {
      ModelSumsAreNonNegative(members[..|members| - 1]);
    }
  }

  lemma ClassifiedIsProper(record: Json)
    ensures Proper(Classify(record))
  {
    if record.Obj? {
      var model := Get(record.members, "modelUsage");
      if model.Obj? {
        ModelSumsAreNonNegative(model.members);
      }
    }
  }

  /** A track counts at most one reading a result, and at most one fall for each reading but the first. */
  ghost predicate TrackKept(t: Track, results: nat, gap: bool) {
    && t.count <= results
    && (t.count == 0 ==> t.falls == 0 && t.last == None)
    && (t.count > 0 ==> t.falls < t.count)
    && (t.count > 0 && t.last == None ==> gap)
  }

  ghost predicate Gap(s: State) { MissingResultUsage in s.diagnostics || InvalidResultUsage in s.diagnostics }

  ghost predicate ModelGap(s: State) {
    MissingResultModelUsage in s.diagnostics || InvalidResultModelUsage in s.diagnostics
  }

  ghost predicate CountsKept(s: State, n: nat) {
    && s.records + s.results <= n
    && s.duplicates + |s.order| + s.subagents <= s.records
    && s.errors <= s.results
  }

  ghost predicate ReadingsFit(s: State) {
    && (s.usage.last.Some? ==> TokensFit(s.usage.last.value))
    && (s.model.last.Some? ==> NonNegative(s.model.last.value))
    && (forall id | id in s.seen :: TokensFit(s.seen[id]))
  }

  /** No identifier is listed twice, and the list covers the keys: `len(seen)` is the length of the list. */
  ghost predicate ConflictsKept(s: State) {
    && Consistent(s)
    && |s.seen| == |s.order|
    && s.conflicts <= s.seen.Keys
  }

  lemma TrackStep(t: Track, o: Observation, results: nat, gap: bool, gap': bool)
    requires TrackKept(t, results, gap) && (gap ==> gap') && (!o.Read? ==> gap')
    ensures TrackKept(Observe(t, o), results + 1, gap')
  {
  }

  lemma CountsStep(s: State, e: Effect, n: nat)
    requires CountsKept(s, n)
    ensures CountsKept(Step(s, e), n + 1)
  {
  }

  lemma TracksStep(s: State, e: Effect, s': State)
    requires TrackKept(s.usage, s.results, Gap(s)) && TrackKept(s.model, s.results, ModelGap(s))
    requires s' == Step(s, e)
    ensures TrackKept(s'.usage, s'.results, Gap(s')) && TrackKept(s'.model, s'.results, ModelGap(s'))
  {
    if e.Outcome? {
      TrackStep(s.usage, e.usage, s.results, Gap(s), Gap(s'));
      TrackStep(s.model, e.model, s.results, ModelGap(s), ModelGap(s'));
    }
  }

  lemma ReadingsStep(s: State, e: Effect, s': State)
    requires ReadingsFit(s) && Proper(e) && s' == Step(s, e)
    ensures ReadingsFit(s')
  {
  }

  lemma OneMoreKey(seen: map<string, Tokens>, id: string, t: Tokens)
    requires id !in seen
    ensures |seen[id := t]| == |seen| + 1
  {
    assert seen[id := t].Keys == seen.Keys + {id};
  }

  lemma ConflictsStep(s: State, e: Effect, s': State)
    requires ConflictsKept(s) && s' == Step(s, e)
    ensures ConflictsKept(s')
  {
    if e.Message? && e.id !in s.seen {
      OneMoreKey(s.seen, e.id, e.tokens);
    }
  }

  lemma {:induction false} FoldKeeps(effects: seq<Effect>, s: State)
    requires s == Fold(effects) && forall i | 0 <= i < |effects| :: Proper(effects[i])
    ensures CountsKept(s, |effects|) && ReadingsFit(s) && ConflictsKept(s)
    ensures TrackKept(s.usage, s.results, Gap(s)) && TrackKept(s.model, s.results, ModelGap(s))
  {
    if effects != [] {
      var n := |effects| - 1;
      var before := Fold(effects[..n]);
      FoldKeeps(effects[..n], before);
      CountsStep(before, effects[n], n);
      TracksStep(before, effects[n], s);
      ReadingsStep(before, effects[n], s);
      ConflictsStep(before, effects[n], s);
    }
  }

  lemma SmallerSet<T>(a: set<T>, b: set<T>)
    requires a <= b
    ensures |a| <= |b|
  {
    assert b == a + (b - a);
  }

  lemma {:induction false} SumIsNonNegative(order: seq<string>, seen: map<string, Tokens>)
    requires forall id | id in order :: id in seen
    requires forall id | id in seen :: TokensFit(seen[id])
    ensures var t := SumInput(order, seen); t.input >= 0 && t.cacheRead >= 0 && t.cacheCreation >= 0
  {
    if order != [] {
      SumIsNonNegative(order[..|order| - 1], seen);
    }
  }

  predicate InputSmall(t: InputCache) { t.input < LIMIT && t.cacheRead < LIMIT && t.cacheCreation < LIMIT }

  predicate TokensSmall(t: Tokens) {
    t.input < LIMIT && t.output < LIMIT && t.cacheRead < LIMIT && t.cacheCreation < LIMIT
  }

  /** The two places where the report holds a sum. */
  predicate SumsSmall(r: Report) {
    && (r.assistant.inputCache.Some? ==> InputSmall(r.assistant.inputCache.value))
    && (r.result.model.last.Some? ==> TokensSmall(r.result.model.last.value))
  }

  lemma GapShows(s: State)
    requires Consistent(s) && Finish(s).observationsOnly
    ensures !Gap(s) && !ModelGap(s)
  {
    var d := Diagnosed(s) - HARMLESS;
    assert MissingResultUsage !in d && InvalidResultUsage !in d;
    assert MissingResultModelUsage !in d && InvalidResultModelUsage !in d;
  }

  lemma CountsAreAccepted(s: State, n: nat, r: Report)
    requires n <= MAX_RECORDS && CountsKept(s, n) && ConflictsKept(s) && r == Finish(s)
    requires s.usage.count <= s.results && s.model.count <= s.results
    ensures CountsFit(r) && CountsAccepted(r, n)
  {
    SmallerSet(s.conflicts, s.seen.Keys);
  }

  lemma InputIsAccepted(s: State, r: Report)
    requires Consistent(s) && ReadingsFit(s) && r == Finish(s) && r.assistant.inputCache.Some?
    ensures InputFits(r.assistant.inputCache.value) <==> InputSmall(r.assistant.inputCache.value)
  {
    SumIsNonNegative(s.order, s.seen);
  }

  lemma TrackIsAccepted(t: Track, results: nat, gap: bool, observationsOnly: bool)
    requires TrackKept(t, results, gap) && results <= MAX_RECORDS && (observationsOnly ==> !gap)
    requires t.last.Some? ==> NonNegative(t.last.value)
    ensures TrackAccepted(t, observationsOnly) <==> (t.last.Some? ==> TokensSmall(t.last.value))
  {
  }

  lemma FinishedIsAccepted(s: State, n: nat, r: Report)
    requires n <= MAX_RECORDS && CountsKept(s, n) && ReadingsFit(s) && ConflictsKept(s) && r == Finish(s)
    requires TrackKept(s.usage, s.results, Gap(s)) && TrackKept(s.model, s.results, ModelGap(s))
    ensures AuditAccepted(r) <==> SumsSmall(r)
    ensures CountsAccepted(r, n)
  {
    CountsAreAccepted(s, n, r);
    if r.assistant.inputCache.Some? {
      InputIsAccepted(s, r);
    }
    if r.observationsOnly {
      GapShows(s);
    }
    TrackIsAccepted(s.usage, s.results, Gap(s), r.observationsOnly);
    TrackIsAccepted(s.model, s.results, ModelGap(s), r.observationsOnly);
  }

  // ----- what the verifier notices

  /** A reading without a count, too many falls, counters out of range, and a clean report without a last reading. */
  lemma TrackChangesAreNoticed(t: Track, observationsOnly: bool, n: nat, reading: Tokens)
    ensures t.last.Some? && t.count == 0 ==> !TrackAccepted(t, observationsOnly)
    ensures t.falls > 0 && t.falls >= t.count ==> !TrackAccepted(t, observationsOnly)
    ensures t.count > 0 && t.last == None ==> !TrackAccepted(t, true)
    ensures n > 0x7fff_ffff_ffff_ffff ==>
              !TrackAccepted(t.(count := n), observationsOnly) && !TrackAccepted(t.(falls := n), observationsOnly)
    ensures (OutOfRange(reading.input) || OutOfRange(reading.output) || OutOfRange(reading.cacheRead)
             || OutOfRange(reading.cacheCreation)) ==> !TrackAccepted(t.(last := Some(reading)), observationsOnly)
  {
  }

  predicate OutOfRange(n: int) { n < 0 || n > 0x7fff_ffff_ffff_ffff }

  /** Aggregates out of range, and a bad track in either place. */
  lemma ReportChangesAreNoticed(r: Report, t: Track, total: InputCache)
    requires AuditAccepted(r)
    ensures OutOfRange(total.input) || OutOfRange(total.cacheRead) || OutOfRange(total.cacheCreation) ==>
              !AuditAccepted(r.(assistant := r.assistant.(inputCache := Some(total))))
    ensures !TrackAccepted(t, r.observationsOnly) ==>
              !AuditAccepted(r.(result := r.result.(usage := t))) && !AuditAccepted(r.(result := r.result.(model := t)))
  {
  }

  /** No count reaches 2^63. */
  lemma HugeCountsAreNoticed(r: Report, n: nat)
    requires n > 0x7fff_ffff_ffff_ffff
    ensures !AuditAccepted(r.(assistant := r.assistant.(records := n)))
    ensures !AuditAccepted(r.(assistant := r.assistant.(unique := n)))
    ensures !AuditAccepted(r.(assistant := r.assistant.(duplicates := n)))
    ensures !AuditAccepted(r.(assistant := r.assistant.(conflicting := n)))
    ensures !AuditAccepted(r.(assistant := r.assistant.(subagents := n)))
    ensures !AuditAccepted(r.(result := r.result.(records := n)))
    ensures !AuditAccepted(r.(result := r.result.(errors := n)))
  {
  }

  /** Counts that are more than what they are a part of. */
  lemma CountChangesAreNoticed(r: Report, events: nat, n: nat)
    requires CountsAccepted(r, events)
    ensures n > r.assistant.records ==>
              && !CountsAccepted(r.(assistant := r.assistant.(unique := n)), events)
              && !CountsAccepted(r.(assistant := r.assistant.(duplicates := n)), events)
              && !CountsAccepted(r.(assistant := r.assistant.(subagents := n)), events)
    ensures n > r.assistant.unique ==> !CountsAccepted(r.(assistant := r.assistant.(conflicting := n)), events)
    ensures n > r.result.records ==>
              && !CountsAccepted(r.(result := r.result.(errors := n)), events)
              && !CountsAccepted(r.(result := r.result.(usage := r.result.usage.(count := n))), events)
              && !CountsAccepted(r.(result := r.result.(model := r.result.model.(count := n))), events)
    ensures n < r.assistant.records + r.result.records ==> !CountsAccepted(r, n)
  {
  }
}
