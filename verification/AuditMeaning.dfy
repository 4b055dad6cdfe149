/** What the fields of an audit report mean, and that the order of the records does not matter. */
module AuditMeaning {
  // All but the two "last" observations and the two counts of falls are the same for every order.

  import opened Json
  import opened Sorting
  import opened UsageAudit
  import opened AuditVerifier

  type MessageSet = set<(string, Tokens)>

  /** The usable assistant messages of a stream. */
  function Messages(effects: seq<Effect>): MessageSet {
    if effects == [] then {}
    else
      var e := effects[|effects| - 1];
      Messages(effects[..|effects| - 1]) + if e.Message? then {(e.id, e.tokens)} else {}
  }

  lemma {:induction false} InMessages(effects: seq<Effect>, id: string, t: Tokens)
    ensures (id, t) in Messages(effects) <==> Message(id, t) in effects
  {
    if effects != [] {
      InMessages(effects[..|effects| - 1], id, t);
      assert effects == effects[..|effects| - 1] + [effects[|effects| - 1]];
    }
  }

  /** Two records of one message disagree on what `f` looks at. */
  ghost predicate Differ<T>(messages: MessageSet, id: string, f: Tokens -> T) {
    exists t, u :: (id, t) in messages && (id, u) in messages && f(t) != f(u)
  }

  function OutputOf(t: Tokens): int { t.output }

  lemma DifferGrows<T>(messages: MessageSet, id: string, f: Tokens -> T, first: Tokens, t: Tokens)
    requires (id, first) in messages
    ensures Differ(messages + {(id, t)}, id, f) <==> Differ(messages, id, f) || f(first) != f(t)
  {
    var more := messages + {(id, t)};
    assert (id, t) in more && (id, first) in more;
    if Differ(more, id, f) && f(first) == f(t) {
      var u, v :| (id, u) in more && (id, v) in more && f(u) != f(v);
      if f(u) != f(first) {
        assert (id, u) in messages;
      } else {
        assert (id, v) in messages;
      }
    }
  }

  lemma DifferElsewhere<T>(messages: MessageSet, id: string, f: Tokens -> T, other: string, t: Tokens)
    requires id != other
    ensures Differ(messages + {(other, t)}, id, f) <==> Differ(messages, id, f)
  {
  }

  lemma NewMessageAgrees<T>(messages: MessageSet, id: string, f: Tokens -> T, t: Tokens)
    requires forall u :: (id, u) !in messages
    ensures !Differ(messages + {(id, t)}, id, f)
  {
  }

  ghost predicate Diverged(messages: MessageSet) {
    exists id :: Differ(messages, id, OutputOf)
  }

  // ----- the identifiers seen and the conflicts

  ghost predicate SeenMeans(s: State, messages: MessageSet) {
    && multiset(s.order) == multiset(s.seen.Keys)
    && (forall id | id in s.seen :: (id, s.seen[id]) in messages)
    && (forall id, t | (id, t) in messages :: id in s.seen)
  }

  ghost predicate ConflictsMean(s: State, messages: MessageSet) {
    forall id :: id in s.conflicts <==> Differ(messages, id, InputOf)
  }

  ghost predicate DivergenceMeans(s: State, messages: MessageSet) {
    OutputPlaceholderDivergence in s.diagnostics <==> Diverged(messages)
  }

  lemma OrderStep(order: seq<string>, seen: set<string>, id: string)
    requires multiset(order) == multiset(seen) && id !in seen
    ensures multiset(order + [id]) == multiset(seen + {id})
  {
  }

  lemma SeenStep(s: State, id: string, t: Tokens, messages: MessageSet, s': State)
    requires SeenMeans(s, messages) && s' == Step(s, Message(id, t))
    ensures SeenMeans(s', messages + {(id, t)})
  {
    if id !in s.seen {
      assert s'.seen.Keys == s.seen.Keys + {id};
      OrderStep(s.order, s.seen.Keys, id);
    }
  }

  lemma ConflictsMeanStep(s: State, id: string, t: Tokens, messages: MessageSet, s': State)
    requires SeenMeans(s, messages) && ConflictsMean(s, messages) && s' == Step(s, Message(id, t))
    ensures ConflictsMean(s', messages + {(id, t)})
  {
    var more := messages + {(id, t)};
    forall x ensures x in s'.conflicts <==> Differ(more, x, InputOf) {
      if x != id {
        DifferElsewhere(messages, x, InputOf, id, t);
      } else if id in s.seen {
        DifferGrows(messages, id, InputOf, s.seen[id], t);
      } else {
        NewMessageAgrees(messages, id, InputOf, t);
        assert !Differ(messages, id, InputOf);
      }
    }
  }

  lemma DivergenceStep(s: State, id: string, t: Tokens, messages: MessageSet, s': State)
    requires SeenMeans(s, messages) && DivergenceMeans(s, messages) && s' == Step(s, Message(id, t))
    ensures DivergenceMeans(s', messages + {(id, t)})
  {
    var more := messages + {(id, t)};
    forall x | x != id ensures Differ(more, x, OutputOf) <==> Differ(messages, x, OutputOf) {
      DifferElsewhere(messages, x, OutputOf, id, t);
    }
    if id in s.seen {
      DifferGrows(messages, id, OutputOf, s.seen[id], t);
    } else {
      NewMessageAgrees(messages, id, OutputOf, t);
      assert !Differ(messages, id, OutputOf);
    }
    assert Diverged(more) <==> Diverged(messages) || Differ(more, id, OutputOf);
  }

  lemma {:induction false} FoldMeans(effects: seq<Effect>, s: State)
    requires s == Fold(effects)
    ensures SeenMeans(s, Messages(effects)) && ConflictsMean(s, Messages(effects))
    ensures DivergenceMeans(s, Messages(effects))
  {
    if effects != [] {
      var n := |effects| - 1;
      var before, messages := Fold(effects[..n]), Messages(effects[..n]);
      FoldMeans(effects[..n], before);
      var e := effects[n];
      if e.Message? {
        assert Messages(effects) == messages + {(e.id, e.tokens)};
        SeenStep(before, e.id, e.tokens, messages, s);
        ConflictsMeanStep(before, e.id, e.tokens, messages, s);
        DivergenceStep(before, e.id, e.tokens, messages, s);
      } else {
        assert Messages(effects) == messages;
        OtherStep(before, e, messages, s);
      }
    }
  }

  lemma OtherStepChanges(s: State, e: Effect, s': State)
    requires !e.Message? && s' == Step(s, e)
    ensures s'.seen == s.seen && s'.order == s.order && s'.conflicts == s.conflicts
    ensures OutputPlaceholderDivergence in s'.diagnostics <==> OutputPlaceholderDivergence in s.diagnostics
  {
  }

  lemma OtherStep(s: State, e: Effect, messages: MessageSet, s': State)
    requires SeenMeans(s, messages) && ConflictsMean(s, messages) && DivergenceMeans(s, messages)
    requires !e.Message? && s' == Step(s, e)
    ensures SeenMeans(s', messages) && ConflictsMean(s', messages) && DivergenceMeans(s', messages)
  {
    OtherStepChanges(s, e, s');
  }

  // ----- diagnostics and completeness

  /** The diagnostics that records cause by themselves. */
  function DirectDiagnostics(effects: seq<Effect>): set<Diagnostic> {
    if effects == [] then {} else DirectDiagnostics(effects[..|effects| - 1]) + Direct(effects[|effects| - 1])
  }

  lemma {:induction false} InDirect(effects: seq<Effect>, d: Diagnostic)
    ensures d in DirectDiagnostics(effects) <==> exists e :: e in effects && d in Direct(e)
  {
    if effects != [] {
      var n := |effects| - 1;
      InDirect(effects[..n], d);
      assert effects == effects[..n] + [effects[n]];
      assert effects[n] in effects;
    }
  }

  function Compared(conflicts: bool, diverged: bool): set<Diagnostic> {
    (if conflicts then {ConflictingAssistantUsage} else {}) + (if diverged then {OutputPlaceholderDivergence} else {})
  }

  ghost predicate DiagnosticsMean(s: State, direct: set<Diagnostic>) {
    s.diagnostics == direct + Compared(s.conflicts != {}, OutputPlaceholderDivergence in s.diagnostics)
  }

  ghost predicate Complete(s: State) {
    && s.conflicts == {}
    && MissingAssistantIdentity !in s.diagnostics
    && InvalidAssistantUsage !in s.diagnostics
  }

  lemma DiagnosticsStep(s: State, e: Effect, direct: set<Diagnostic>, s': State)
    requires DiagnosticsMean(s, direct) && s' == Step(s, e)
    ensures DiagnosticsMean(s', direct + Direct(e))
  {
  }

  lemma CompleteStep(s: State, e: Effect, s': State)
    requires (s.inputComplete <==> Complete(s)) && s' == Step(s, e)
    ensures s'.inputComplete <==> Complete(s')
  {
  }

  lemma {:induction false} FoldDiagnoses(effects: seq<Effect>, s: State)
    requires s == Fold(effects)
    ensures DiagnosticsMean(s, DirectDiagnostics(effects))
    ensures s.inputComplete <==> Complete(s)
  {
    if effects != [] {
      var n := |effects| - 1;
      var before := Fold(effects[..n]);
      FoldDiagnoses(effects[..n], before);
      DiagnosticsStep(before, effects[n], DirectDiagnostics(effects[..n]), s);
      CompleteStep(before, effects[n], s);
    }
  }

  // ----- counting

  function Count(effects: seq<Effect>, p: Effect -> bool): nat {
    if effects == [] then 0
    else Count(effects[..|effects| - 1], p) + if p(effects[|effects| - 1]) then 1 else 0
  }

  predicate IsAssistant(e: Effect) { e.Subagent? || e.NoIdentity? || e.BadUsage? || e.Message? }

  predicate IsMessage(e: Effect) { e.Message? }

  predicate IsSubagent(e: Effect) { e.Subagent? }

  predicate IsOutcome(e: Effect) { e.Outcome? }

  predicate IsError(e: Effect) { e.Outcome? && e.error }

  predicate HasUsage(e: Effect) { e.Outcome? && e.usage.Read? }

  predicate HasModel(e: Effect) { e.Outcome? && e.model.Read? }

  ghost predicate AssistantsMean(s: State, effects: seq<Effect>) {
    && s.records == Count(effects, IsAssistant)
    && s.duplicates + |s.order| == Count(effects, IsMessage)
    && s.subagents == Count(effects, IsSubagent)
  }

  ghost predicate ResultsMean(s: State, effects: seq<Effect>) {
    && s.results == Count(effects, IsOutcome)
    && s.errors == Count(effects, IsError)
    && s.usage.count == Count(effects, HasUsage)
    && s.model.count == Count(effects, HasModel)
  }

  ghost predicate CountsMean(s: State, effects: seq<Effect>) {
    AssistantsMean(s, effects) && ResultsMean(s, effects)
  }

  lemma AssistantsStep(s: State, e: Effect, s': State, before: seq<Effect>, effects: seq<Effect>)
    requires AssistantsMean(s, before) && s' == Step(s, e) && effects != []
    requires effects[..|effects| - 1] == before && effects[|effects| - 1] == e
    ensures AssistantsMean(s', effects)
  {
  }

  lemma ResultsStep(s: State, e: Effect, s': State, before: seq<Effect>, effects: seq<Effect>)
    requires ResultsMean(s, before) && s' == Step(s, e) && effects != []
    requires effects[..|effects| - 1] == before && effects[|effects| - 1] == e
    ensures ResultsMean(s', effects)
  {
  }

  lemma {:induction false} FoldCounts(effects: seq<Effect>, s: State)
    requires s == Fold(effects)
    ensures CountsMean(s, effects)
  {
    if effects != [] {
      var before, e := effects[..|effects| - 1], effects[|effects| - 1];
      FoldCounts(before, Fold(before));
      AssistantsStep(Fold(before), e, s, before, effects);
      ResultsStep(Fold(before), e, s, before, effects);
    }
  }

  lemma {:induction false} CountAppends(a: seq<Effect>, b: seq<Effect>, p: Effect -> bool)
    ensures Count(a + b, p) == Count(a, p) + Count(b, p)
  {
    if b == [] {
      assert a + b == a;
    } else {
      var n := |b| - 1;
      assert (a + b)[..|a| + n] == a + b[..n];
      CountAppends(a, b[..n], p);
    }
  }

  lemma {:induction false} CountIgnoresOrder(a: seq<Effect>, b: seq<Effect>, p: Effect -> bool)
    requires multiset(a) == multiset(b)
    ensures Count(a, p) == Count(b, p)
  {
    SameElements(a, b);
    if a != [] {
      var n := |a| - 1;
      var k := TakeOut(a, b);
      CountIgnoresOrder(a[..n], Without(b, k), p);
      assert b == b[..k] + [b[k]] + b[k + 1..];
      CountAppends(b[..k], [b[k]], p);
      CountAppends(b[..k] + [b[k]], b[k + 1..], p);
      CountAppends(b[..k], b[k + 1..], p);
    }
  }

  // ----- the aggregate

  /** Each identifier contributes the counters of its first usable record. */
  function FirstSum(effects: seq<Effect>): InputCache {
    if effects == [] then InputCache(0, 0, 0)
    else
      var n := |effects| - 1;
      var before := FirstSum(effects[..n]);
      if effects[n].Message? && forall m | m in Messages(effects[..n]) :: m.0 != effects[n].id
      then PlusInput(before, InputOf(effects[n].tokens)) else before
  }

  lemma {:induction false} SumUnaffected(order: seq<string>, seen: map<string, Tokens>, more: map<string, Tokens>)
    requires forall id | id in order :: id in seen && id in more && InputOf(seen[id]) == InputOf(more[id])
    ensures SumInput(order, seen) == SumInput(order, more)
  {
    if order != [] {
      SumUnaffected(order[..|order| - 1], seen, more);
    }
  }

  lemma SumOfNew(s: State, id: string, t: Tokens)
    requires Consistent(s) && id !in s.seen
    ensures SumInput(s.order + [id], s.seen[id := t]) == PlusInput(SumInput(s.order, s.seen), InputOf(t))
  {
    SumUnaffected(s.order, s.seen, s.seen[id := t]);
    assert (s.order + [id])[..|s.order|] == s.order;
  }

  lemma SumStep(s: State, e: Effect, s': State)
    requires Consistent(s) && Consistent(s') && s' == Step(s, e)
    ensures SumInput(s'.order, s'.seen) == if e.Message? && e.id !in s.seen
              then PlusInput(SumInput(s.order, s.seen), InputOf(e.tokens)) else SumInput(s.order, s.seen)
  {
    if e.Message? && e.id !in s.seen {
      assert s'.order == s.order + [e.id] && s'.seen == s.seen[e.id := e.tokens];
      SumOfNew(s, e.id, e.tokens);
    } else if e.Message? {
      assert s'.order == s.order && s'.seen == s.seen;
    } else {
      OtherStepChanges(s, e, s');
    }
  }

  lemma {:induction false} FoldSums(effects: seq<Effect>, s: State)
    requires s == Fold(effects) && Consistent(s)
    ensures SumInput(s.order, s.seen) == FirstSum(effects)
  {
    if effects != [] {
      var n := |effects| - 1;
      var before, e := Fold(effects[..n]), effects[n];
      FoldIsConsistent(effects[..n]);
      FoldSums(effects[..n], before);
      FoldMeans(effects[..n], before);
      SumStep(before, e, s);
      if e.Message? {
        FirstIsNew(before, Messages(effects[..n]), e.id);
      }
    }
  }

  lemma FirstIsNew(s: State, messages: MessageSet, id: string)
    requires SeenMeans(s, messages)
    ensures id !in s.seen <==> forall m | m in messages :: m.0 != id
  {
    if id in s.seen {
      var m := (id, s.seen[id]);
      assert m in messages && m.0 == id;
    }
    if m :| m in messages && m.0 == id {
      assert (id, m.1) in messages;
    }
  }

  lemma {:induction false} SumIgnoresOrder(a: seq<string>, b: seq<string>, seen: map<string, Tokens>)
    requires multiset(a) == multiset(b)
    requires forall id | id in a :: id in seen
    requires forall id | id in b :: id in seen
    ensures SumInput(a, seen) == SumInput(b, seen)
  {
    SameElements(a, b);
    if a != [] {
      var n := |a| - 1;
      var k := TakeOut(a, b);
      SumIgnoresOrder(a[..n], Without(b, k), seen);
      SumWithout(b, k, seen);
    }
  }

  lemma {:induction false} SumWithout(b: seq<string>, k: nat, seen: map<string, Tokens>)
    requires k < |b| && forall id | id in b :: id in seen
    ensures SumInput(b, seen) == PlusInput(SumInput(Without(b, k), seen), InputOf(seen[b[k]]))
  {
    var n := |b| - 1;
    if k < n {
      SumWithout(b[..n], k, seen);
      var rest := Without(b, k);
      assert rest[..|rest| - 1] == Without(b[..n], k);
      assert rest[|rest| - 1] == b[n];
    } else {
      assert Without(b, k) == b[..n];
    }
  }

  // ----- the order of the records does not matter

  lemma SameMessages(a: seq<Effect>, b: seq<Effect>)
    requires multiset(a) == multiset(b)
    ensures Messages(a) == Messages(b) && DirectDiagnostics(a) == DirectDiagnostics(b)
  {
    SameElements(a, b);
    forall m ensures m in Messages(a) <==> m in Messages(b) {
      InMessages(a, m.0, m.1);
      InMessages(b, m.0, m.1);
    }
    forall d ensures d in DirectDiagnostics(a) <==> d in DirectDiagnostics(b) {
      InDirect(a, d);
      InDirect(b, d);
    }
  }

  lemma SameSeen(s: State, t: State, messages: MessageSet)
    requires SeenMeans(s, messages) && SeenMeans(t, messages)
    ensures s.seen.Keys == t.seen.Keys && multiset(s.order) == multiset(t.order) && |s.order| == |t.order|
  {
    forall id ensures id in s.seen <==> id in t.seen {
      if id in s.seen {
        assert (id, s.seen[id]) in messages;
      }
      if id in t.seen {
        assert (id, t.seen[id]) in messages;
      }
    }
    assert s.seen.Keys == t.seen.Keys;
    SameElements(s.order, t.order);
  }

  lemma SameDiagnostics(s: State, t: State, messages: MessageSet, direct: set<Diagnostic>)
    requires ConflictsMean(s, messages) && ConflictsMean(t, messages)
    requires DivergenceMeans(s, messages) && DivergenceMeans(t, messages)
    requires DiagnosticsMean(s, direct) && DiagnosticsMean(t, direct)
    requires (s.inputComplete <==> Complete(s)) && (t.inputComplete <==> Complete(t))
    ensures s.conflicts == t.conflicts && s.diagnostics == t.diagnostics && s.inputComplete == t.inputComplete
  {
    assert s.conflicts == t.conflicts;
  }

  lemma SameSums(s: State, t: State, messages: MessageSet)
    requires Consistent(s) && Consistent(t) && SeenMeans(s, messages) && SeenMeans(t, messages)
    requires ConflictsMean(s, messages) && s.conflicts == {}
    ensures SumInput(s.order, s.seen) == SumInput(t.order, t.seen)
  {
    SameSeen(s, t, messages);
    forall id | id in s.order ensures InputOf(s.seen[id]) == InputOf(t.seen[id]) {
      assert (id, s.seen[id]) in messages && (id, t.seen[id]) in messages;
      assert !Differ(messages, id, InputOf);
    }
    SumUnaffected(s.order, s.seen, t.seen);
    SumIgnoresOrder(s.order, t.order, t.seen);
  }

  lemma SameCounts(a: seq<Effect>, b: seq<Effect>, s: State, t: State)
    requires multiset(a) == multiset(b) && CountsMean(s, a) && CountsMean(t, b) && |s.order| == |t.order|
    ensures s.records == t.records && s.duplicates == t.duplicates && s.subagents == t.subagents
    ensures s.results == t.results && s.errors == t.errors
    ensures s.usage.count == t.usage.count && s.model.count == t.model.count
  {
    CountIgnoresOrder(a, b, IsAssistant);
    CountIgnoresOrder(a, b, IsMessage);
    CountIgnoresOrder(a, b, IsSubagent);
    CountIgnoresOrder(a, b, IsOutcome);
    CountIgnoresOrder(a, b, IsError);
    CountIgnoresOrder(a, b, HasUsage);
    CountIgnoresOrder(a, b, HasModel);
  }

  /** A report without the two "last" observations and the two counts of falls. */
  function OrderFree(r: Report): Report {
    r.(result := Results(r.result.records, r.result.errors,
                         Track(r.result.usage.count, 0, None), Track(r.result.model.count, 0, None)))
  }

  lemma SameReport(s: State, t: State)
    requires Consistent(s) && Consistent(t)
    requires |s.order| == |t.order| && s.conflicts == t.conflicts && s.diagnostics == t.diagnostics
    requires s.inputComplete == t.inputComplete
    requires s.inputComplete ==> SumInput(s.order, s.seen) == SumInput(t.order, t.seen)
    requires s.records == t.records && s.duplicates == t.duplicates && s.subagents == t.subagents
    requires s.results == t.results && s.errors == t.errors
    requires s.usage.count == t.usage.count && s.model.count == t.model.count
    ensures OrderFree(Finish(s)) == OrderFree(Finish(t))
  {
    assert Diagnosed(s) == Diagnosed(t);
  }

  lemma FoldIgnoresOrder(a: seq<Effect>, b: seq<Effect>, s: State, t: State)
    requires multiset(a) == multiset(b) && s == Fold(a) && t == Fold(b) && Consistent(s) && Consistent(t)
    ensures OrderFree(Finish(s)) == OrderFree(Finish(t))
  {
    var messages, direct := Messages(a), DirectDiagnostics(a);
    SameMessages(a, b);
    FoldMeans(a, s);
    FoldMeans(b, t);
    FoldDiagnoses(a, s);
    FoldDiagnoses(b, t);
    FoldCounts(a, s);
    FoldCounts(b, t);
    SameSeen(s, t, messages);
    SameDiagnostics(s, t, messages, direct);
    if s.inputComplete {
      SameSums(s, t, messages);
    }
    SameCounts(a, b, s, t);
    SameReport(s, t);
  }

  /** Neither first nor last wins: the same records in any order give the same report, order-bound fields aside. */
  lemma OrderDoesNotMatter(a: seq<Json>, b: seq<Json>)
    requires multiset(a) == multiset(b) && |a| <= 100_000
    ensures Audit(a).Audited? && Audit(b).Audited?
    ensures OrderFree(Audit(a).report) == OrderFree(Audit(b).report)
  {
    var ea, eb := Map(Classify, a), Map(Classify, b);
    SameElements(a, b);
    MapKeepsElements(Classify, a, b);
    FoldIsConsistent(ea);
    FoldIsConsistent(eb);
    FoldIgnoresOrder(ea, eb, Fold(ea), Fold(eb));
  }

  // ----- what the fields say

  ghost function Identifiers(messages: MessageSet): set<string> {
    set m | m in messages :: m.0
  }

  ghost function Conflicting(messages: MessageSet): set<string> {
    set id | id in Identifiers(messages) && Differ(messages, id, InputOf)
  }

  /** Every assistant record outside subagents is usable, and no identifier reports two different inputs. */
  ghost predicate Clean(effects: seq<Effect>) {
    && NoIdentity !in effects && BadUsage !in effects
    && Conflicting(Messages(effects)) == {}
  }

  ghost function Aggregate(effects: seq<Effect>): Option<InputCache> {
    if Messages(effects) != {} && Clean(effects) then Some(FirstSum(effects)) else None
  }

  lemma IdentifiersAreSeen(s: State, messages: MessageSet)
    requires SeenMeans(s, messages)
    ensures Identifiers(messages) == s.seen.Keys && |s.order| == |Identifiers(messages)|
    ensures messages == {} <==> s.order == []
  {
    forall id ensures id in Identifiers(messages) <==> id in s.seen {
      FirstIsNew(s, messages, id);
    }
    assert |multiset(s.order)| == |s.order| && |multiset(s.seen.Keys)| == |s.seen.Keys|;
    if m :| m in messages {
      assert (m.0, m.1) in messages;
    }
    if s.order != [] {
      assert s.order[0] in multiset(s.order);
      assert s.order[0] in s.seen.Keys;
    }
  }

  lemma ConflictsAreConflicting(s: State, messages: MessageSet)
    requires SeenMeans(s, messages) && ConflictsMean(s, messages)
    ensures s.conflicts == Conflicting(messages)
  {
    forall id ensures id in s.conflicts <==> id in Conflicting(messages) {
      if Differ(messages, id, InputOf) {
        var t, u :| (id, t) in messages && (id, u) in messages && InputOf(t) != InputOf(u);
        assert (id, t).0 in Identifiers(messages);
      }
    }
  }

  lemma DirectCause(effects: seq<Effect>, d: Diagnostic, e: Effect)
    requires (d == MissingAssistantIdentity && e == NoIdentity) || (d == InvalidAssistantUsage && e == BadUsage)
    ensures d in DirectDiagnostics(effects) <==> e in effects
  {
    InDirect(effects, d);
  }

  lemma CleanIsComplete(effects: seq<Effect>, s: State)
    requires s == Fold(effects)
    ensures s.inputComplete <==> Clean(effects)
  {
    FoldMeans(effects, s);
    FoldDiagnoses(effects, s);
    ConflictsAreConflicting(s, Messages(effects));
    DirectCause(effects, MissingAssistantIdentity, NoIdentity);
    DirectCause(effects, InvalidAssistantUsage, BadUsage);
  }

  lemma FinishAggregates(effects: seq<Effect>, s: State)
    requires s == Fold(effects) && Consistent(s)
    ensures Finish(s).assistant.inputCache == Aggregate(effects)
  {
    FoldMeans(effects, s);
    CleanIsComplete(effects, s);
    IdentifiersAreSeen(s, Messages(effects));
    FoldSums(effects, s);
  }

  /** The counts of the report, and the aggregate: one usable record for each identifier, or nothing. */
  lemma ReportMeaning(records: seq<Json>, effects: seq<Effect>, r: Report)
    requires |records| <= 100_000 && effects == Map(Classify, records) && r == Audit(records).report
    ensures r.assistant.records == Count(effects, IsAssistant) && r.assistant.subagents == Count(effects, IsSubagent)
    ensures r.assistant.unique == |Identifiers(Messages(effects))|
    ensures r.assistant.unique + r.assistant.duplicates == Count(effects, IsMessage)
    ensures r.assistant.conflicting == |Conflicting(Messages(effects))|
    ensures r.assistant.inputCache == Aggregate(effects)
    ensures r.result.records == Count(effects, IsOutcome) && r.result.errors == Count(effects, IsError)
    ensures r.result.usage.count == Count(effects, HasUsage) && r.result.model.count == Count(effects, HasModel)
  {
    var s := Fold(effects);
    FoldIsConsistent(effects);
    FoldCounts(effects, s);
    FoldMeans(effects, s);
    IdentifiersAreSeen(s, Messages(effects));
    ConflictsAreConflicting(s, Messages(effects));
    FinishAggregates(effects, s);
  }

  // ----- the verifier accepts

  /** The model usage of the last result, if it was readable. */
  function LastModel(effects: seq<Effect>): Option<Tokens> {
    if effects == [] then None
    else
      var e := effects[|effects| - 1];
      if !e.Outcome? then LastModel(effects[..|effects| - 1])
      else if e.model.Read? then Some(e.model.tokens) else None
  }

  lemma {:induction false} FoldLast(effects: seq<Effect>)
    ensures Fold(effects).model.last == LastModel(effects)
  {
    if effects != [] {
      FoldLast(effects[..|effects| - 1]);
    }
  }

  /**
   * The verifier accepts a report exactly when the two sums it holds stay below 2^63: over the
   * distinct messages, and over the models of the last result. The bounds across counts always hold.
   */
  lemma AcceptedExactlyWhen(records: seq<Json>, effects: seq<Effect>, r: Report)
    requires |records| <= 100_000 && effects == Map(Classify, records) && r == Audit(records).report
    ensures AuditAccepted(r) <==>
              && (Aggregate(effects).Some? ==> InputSmall(Aggregate(effects).value))
              && (LastModel(effects).Some? ==> TokensSmall(LastModel(effects).value))
    ensures CountsAccepted(r, |records|)
  {
    var s := Fold(effects);
    FoldIsConsistent(effects);
    forall i | 0 <= i < |effects| ensures Proper(effects[i]) {
      ClassifiedIsProper(records[i]);
    }
    FoldKeeps(effects, s);
    FinishedIsAccepted(s, |records|, r);
    FinishAggregates(effects, s);
    FoldLast(effects);
  }

  function AssistantRecord(id: string, input: int): Json {
    Obj([("type", Str("assistant")),
         ("message", Obj([("id", Str(id)), ("usage", UsageOf(input))]))])
  }

  function UsageOf(input: int): Json {
    Obj([("input_tokens", Int(input)), ("output_tokens", Int(0)),
         ("cache_read_input_tokens", Int(0)), ("cache_creation_input_tokens", Int(0))])
  }

  lemma {:induction false} GetAt(members: seq<(string, Json)>, k: nat)
    requires k < |members| && forall j | 0 <= j < k :: members[j].0 != members[k].0
    ensures Get(members, members[k].0) == members[k].1
  {
    if k > 0 {
      assert members[0].0 != members[k].0;
      GetAt(members[1..], k - 1);
    }
  }

  lemma {:induction false} GetMissing(members: seq<(string, Json)>, key: string)
    requires forall j | 0 <= j < |members| :: members[j].0 != key
    ensures Get(members, key) == Null
  {
    if members != [] {
      assert members[0].0 != key;
      GetMissing(members[1..], key);
    }
  }

  lemma UsageIsRead(input: int)
    requires Fits(input)
    ensures Counters(UsageOf(input), TOKEN_FIELDS) == Some(Tokens(input, 0, 0, 0))
  {
    var m := UsageOf(input).members;
    assert |m[0].0| == 12 && |m[1].0| == 13 && |m[2].0| == 23 && |m[3].0| == 27;
    GetAt(m, 0);
    GetAt(m, 1);
    GetAt(m, 2);
    GetAt(m, 3);
  }

  lemma AssistantIsMessage(id: string, input: int)
    requires Fits(input) && 0 < |id| <= 512
    ensures Classify(AssistantRecord(id, input)) == Message(id, Tokens(input, 0, 0, 0))
  {
    var m := AssistantRecord(id, input).members;
    assert |m[0].0| == 4 && |m[1].0| == 7 && |"parent_tool_use_id"| == 18;
    GetAt(m, 0);
    GetAt(m, 1);
    GetMissing(m, "parent_tool_use_id");
    var inner := m[1].1.members;
    assert |inner[0].0| == 2 && |inner[1].0| == 5;
    GetAt(inner, 0);
    GetAt(inner, 1);
    UsageIsRead(input);
  }

  /** Two messages whose counters are in range can add up to a report that is out of range. */
  lemma NotEveryReportIsAccepted(records: seq<Json>)
    requires records == [AssistantRecord("a", LIMIT - 1), AssistantRecord("b", 1)]
    ensures !AuditAccepted(Audit(records).report)
  {
    var effects := Map(Classify, records);
    var a, b := Message("a", Tokens(LIMIT - 1, 0, 0, 0)), Message("b", Tokens(1, 0, 0, 0));
    AssistantIsMessage("a", LIMIT - 1);
    AssistantIsMessage("b", 1);
    assert effects == [a, b];
    FoldTwo(effects, a, b);
    FoldIsConsistent(effects);
  }

  lemma FoldTwo(effects: seq<Effect>, a: Effect, b: Effect)
    requires effects == [a, b] && a.Message? && b.Message? && a.id != b.id
    requires a.tokens.input == LIMIT - 1 && b.tokens.input == 1
    ensures var s := Fold(effects);
            s.order == [a.id, b.id] && s.seen == map[a.id := a.tokens, b.id := b.tokens] && s.inputComplete
    ensures SumInput(Fold(effects).order, Fold(effects).seen).input == LIMIT
  {
    assert effects[..1] == [a] && effects[..1][..0] == [];
    var s1 := Step(Start(), a);
    assert Fold(effects[..1]) == s1;
    var s := Step(s1, b);
    assert s.order == [a.id, b.id] && s.order[..1] == [a.id] && s.order[..1][..0] == [];
    assert SumInput(s.order[..1], s.seen).input == LIMIT - 1;
  }

  // ----- the fields that do depend on the order

  function Readings(effects: seq<Effect>, f: Effect -> Observation): seq<Observation> {
    if effects == [] then []
    else Readings(effects[..|effects| - 1], f)
         + if effects[|effects| - 1].Outcome? then [f(effects[|effects| - 1])] else []
  }

  function UsageReading(e: Effect): Observation { if e.Outcome? then e.usage else Missing }

  function ModelReading(e: Effect): Observation { if e.Outcome? then e.model else Missing }

  predicate FallsAt(readings: seq<Observation>, i: nat) {
    && 0 < i < |readings|
    && readings[i - 1].Read? && readings[i].Read?
    && var (now, before) := (readings[i].tokens, readings[i - 1].tokens);
       || now.input < before.input || now.output < before.output
       || now.cacheRead < before.cacheRead || now.cacheCreation < before.cacheCreation
  }

  ghost function Falls(readings: seq<Observation>): set<nat> {
    set i: nat | i < |readings| && FallsAt(readings, i)
  }

  /** The last observation is that of the last result; a fall is a reading below that of the result before it. */
  ghost predicate TrackMeans(t: Track, readings: seq<Observation>) {
    && t.falls == |Falls(readings)|
    && t.last == if readings != [] && readings[|readings| - 1].Read?
                 then Some(readings[|readings| - 1].tokens) else None
  }

  lemma ObserveMeans(t: Track, readings: seq<Observation>, o: Observation)
    requires TrackMeans(t, readings)
    ensures TrackMeans(Observe(t, o), readings + [o])
  {
    var more, n := readings + [o], |readings|;
    forall i: nat | i < n ensures FallsAt(more, i) <==> FallsAt(readings, i) {
    }
    if FallsAt(more, n) {
      assert Falls(more) == Falls(readings) + {n};
    } else {
      assert Falls(more) == Falls(readings);
    }
  }

  lemma {:induction false} TracksMean(effects: seq<Effect>, s: State)
    requires s == Fold(effects)
    ensures TrackMeans(s.usage, Readings(effects, UsageReading))
    ensures TrackMeans(s.model, Readings(effects, ModelReading))
  {
    if effects != [] {
      var n := |effects| - 1;
      var before, e := Fold(effects[..n]), effects[n];
      TracksMean(effects[..n], before);
      if e.Outcome? {
        assert Readings(effects, UsageReading) == Readings(effects[..n], UsageReading) + [e.usage];
        assert Readings(effects, ModelReading) == Readings(effects[..n], ModelReading) + [e.model];
        ObserveMeans(before.usage, Readings(effects[..n], UsageReading), e.usage);
        ObserveMeans(before.model, Readings(effects[..n], ModelReading), e.model);
      } else {
        assert s.usage == before.usage && s.model == before.model;
        assert Readings(effects, UsageReading) == Readings(effects[..n], UsageReading);
        assert Readings(effects, ModelReading) == Readings(effects[..n], ModelReading);
      }
    }
  }

  /** Records that do not make a report incomplete by themselves: results must be free of errors and readable. */
  predicate Harmless(e: Effect) {
    match e
    case Unsupported => false
    case NoIdentity => false
    case BadUsage => false
    case Outcome(error, usage, model) => !error && usage.Read? && model.Read?
    case _ => true
  }

  lemma HarmlessByItself(e: Effect)
    ensures Direct(e) <= HARMLESS <==> Harmless(e)
  {
    var d := if e.Unsupported? then UnsupportedRecord
             else if e.NoIdentity? then MissingAssistantIdentity
             else if e.BadUsage? then InvalidAssistantUsage
             else if e.Outcome? && e.error then ErrorResultObserved
             else if e.Outcome? && e.usage.Missing? then MissingResultUsage
             else if e.Outcome? && e.usage.Invalid? then InvalidResultUsage
             else if e.Outcome? && e.model.Missing? then MissingResultModelUsage
             else InvalidResultModelUsage;
    assert d !in HARMLESS;
    assert !Harmless(e) ==> d in Direct(e);
  }

  /** The status is clean exactly when no record and no comparison gave cause for doubt and something was observed. */
  lemma StatusMeaning(records: seq<Json>, effects: seq<Effect>, r: Report)
    requires |records| <= 100_000 && effects == Map(Classify, records) && r == Audit(records).report
    ensures r.observationsOnly <==>
              && (forall e | e in effects :: Harmless(e))
              && Conflicting(Messages(effects)) == {}
              && (Messages(effects) != {} || r.result.usage.count > 0 || r.result.model.count > 0)
  {
    var s := Fold(effects);
    FoldIsConsistent(effects);
    FoldMeans(effects, s);
    FoldDiagnoses(effects, s);
    IdentifiersAreSeen(s, Messages(effects));
    ConflictsAreConflicting(s, Messages(effects));
    DirectHarmless(effects);
    HarmlessExactlyWhen(s, DirectDiagnostics(effects));
  }

  lemma DirectHarmless(effects: seq<Effect>)
    ensures DirectDiagnostics(effects) <= HARMLESS <==> forall e | e in effects :: Harmless(e)
  {
    forall e ensures Direct(e) <= HARMLESS <==> Harmless(e) {
      HarmlessByItself(e);
    }
    forall d ensures d in DirectDiagnostics(effects) <==> exists e :: e in effects && d in Direct(e) {
      InDirect(effects, d);
    }
  }

  lemma HarmlessExactlyWhen(s: State, direct: set<Diagnostic>)
    requires DiagnosticsMean(s, direct)
    ensures Diagnosed(s) - HARMLESS == {} <==>
              direct <= HARMLESS && s.conflicts == {} && !(s.order == [] && s.usage.count == 0 && s.model.count == 0)
  {
    assert Diagnosed(s) - HARMLESS == {} <==> Diagnosed(s) <= HARMLESS;
    assert ConflictingAssistantUsage !in HARMLESS && NoUsageObservations !in HARMLESS;
    if s.conflicts != {} {
      assert ConflictingAssistantUsage in Diagnosed(s);
    }
    if s.order == [] && s.usage.count == 0 && s.model.count == 0 {
      assert NoUsageObservations in Diagnosed(s);
    }
    assert direct <= Diagnosed(s);
  }
}
