/**
 * `scripts/verify_claude_chat_fixture.py` against the reports that `app/services/claude_chat_fixture.py`
 * publishes: whatever happens during an attempt, its report is accepted.
 */
module ChatVerifier {
  import opened Json
  import opened ChatEvidence

  datatype Stage = AtSource | AtAccount | AtOrganizations | AtConversation | AtComplete

  datatype Outcome =
    | WasObserved | Busy | SourceUnavailable | SourceIneligible | UnsupportedSource | SourceChanged | Expired
    | IdentityMismatch | IdentityUnavailable | OrganizationMismatch | TargetMismatch | Challenge | Rejected
    | RateLimited | Unavailable | Timeout | ResponseLimit | Unsupported

  datatype Report = Report(
    outcome: Outcome, stage: Stage, requests: nat, http: Option<int>,
    account: bool, organization: bool, target: bool, conversation: Conversation)

  function NoConversation(): Conversation {
    Conversation(0, Roles(0, 0, 0), Identities(0, 0, 0, 0), EmptyScope(), EmptyScope())
  }

  function EmptyReport(): Report {
    Report(SourceUnavailable, AtSource, 0, None, false, false, false, NoConversation())
  }

  // ----- what the verifier demands

  predicate Small(n: int) { 0 <= n <= 500 }

  predicate ShapesComplete(s: map<Shape, nat>) {
    && MissingShape in s && NullShape in s && EmptyObject in s && ObjectShape in s && ArrayShape in s
    && StringShape in s && BooleanShape in s && NumberShape in s
  }

  function SumShapes(s: map<Shape, nat>): nat
    requires ShapesComplete(s)
  {
    s[MissingShape] + s[NullShape] + s[EmptyObject] + s[ObjectShape] + s[ArrayShape] + s[StringShape]
    + s[BooleanShape] + s[NumberShape]
  }

  predicate CountsComplete(c: map<CounterShape, nat>) {
    && MissingCount in c && NullCount in c && Zero in c && PositiveInteger in c && InvalidNumber in c
    && BooleanCount in c && StringCount in c && ArrayCount in c && ObjectCount in c
  }

  function SumCounts(c: map<CounterShape, nat>): nat
    requires CountsComplete(c)
  {
    c[MissingCount] + c[NullCount] + c[Zero] + c[PositiveInteger] + c[InvalidNumber] + c[BooleanCount]
    + c[StringCount] + c[ArrayCount] + c[ObjectCount]
  }

  predicate ShapesAccepted(s: map<Shape, nat>, records: nat) {
    ShapesComplete(s) && SumShapes(s) == records && forall k | k in s :: Small(s[k])
  }

  predicate CountsAccepted(c: map<CounterShape, nat>, records: nat) {
    CountsComplete(c) && SumCounts(c) == records && forall k | k in c :: Small(c[k])
  }

  /** A row without a usage object misses every field. */
  predicate FieldAccepted(scope: Scope, f: Field) {
    && f in scope.fields && CountsAccepted(scope.fields[f], scope.records)
    && ObjectShape in scope.shapes
    && scope.fields[f][MissingCount] >= scope.records - scope.shapes[ObjectShape]
  }

  ghost predicate ScopeAccepted(scope: Scope) {
    && Small(scope.records)
    && ShapesAccepted(scope.shapes, scope.records)
    && (forall f: Field :: FieldAccepted(scope, f))
    && CountsAccepted(scope.context, scope.records)
  }

  ghost predicate ConversationAccepted(c: Conversation) {
    && Small(c.messages)
    && c.roles.human + c.roles.assistant + c.roles.unknown == c.messages
    && c.identities.present + c.identities.missing + c.identities.invalid == c.messages
    && c.identities.duplicate <= c.identities.present
    && ScopeAccepted(c.whole) && ScopeAccepted(c.each) && c.each.records == c.messages
  }

  predicate StatusAccepted(r: Report) {
    && r.requests <= 3
    && (r.http.Some? ==> 100 <= r.http.value <= 599)
    && (r.requests == 0 ==> r.http == None)
  }

  predicate FlagsAccepted(r: Report) {
    && (r.account ==> r.requests >= 1)
    && (r.organization ==> r.account && r.requests >= 2)
    && (if r.outcome == WasObserved then
          && r.stage == AtComplete && r.requests == 3 && r.http == Some(200)
          && r.account && r.organization && r.target
          && r.conversation.whole.records == 1
        else
          && !r.target && r.conversation.messages == 0 && r.conversation.whole.records == 0
          && r.stage != AtComplete)
    && (r.outcome == SourceChanged || r.outcome == SourceUnavailable || r.outcome == Timeout ==>
          !r.account && !r.organization && r.stage == AtSource)
  }

  ghost predicate ReportAccepted(r: Report) {
    StatusAccepted(r) && ConversationAccepted(r.conversation) && FlagsAccepted(r)
  }

  // ----- exact counters are accepted

  lemma {:induction false} ShapesAddUp(rows: seq<Members>)
    ensures CountShape(rows, MissingShape) + CountShape(rows, NullShape) + CountShape(rows, EmptyObject)
            + CountShape(rows, ObjectShape) + CountShape(rows, ArrayShape) + CountShape(rows, StringShape)
            + CountShape(rows, BooleanShape) + CountShape(rows, NumberShape) == |rows|
  {
    if rows != [] {
      ShapesAddUp(rows[..|rows| - 1]);
    }
  }

  function One(b: bool): nat { if b then 1 else 0 }

  lemma ExactlyOneShape(c: CounterShape)
    ensures One(c == MissingCount) + One(c == NullCount) + One(c == Zero) + One(c == PositiveInteger)
            + One(c == InvalidNumber) + One(c == BooleanCount) + One(c == StringCount) + One(c == ArrayCount)
            + One(c == ObjectCount) == 1
  {
  }

  lemma FieldStep(rows: seq<Members>, f: Field, c: CounterShape)
    requires rows != []
    ensures CountField(rows, f, c) == CountField(rows[..|rows| - 1], f, c) + One(CountOf(rows[|rows| - 1], f) == c)
  {
  }

  lemma {:induction false} FieldAddsUp(rows: seq<Members>, f: Field)
    ensures CountField(rows, f, MissingCount) + CountField(rows, f, NullCount) + CountField(rows, f, Zero)
            + CountField(rows, f, PositiveInteger) + CountField(rows, f, InvalidNumber)
            + CountField(rows, f, BooleanCount) + CountField(rows, f, StringCount) + CountField(rows, f, ArrayCount)
            + CountField(rows, f, ObjectCount) == |rows|
  {
    if rows != [] {
      FieldAddsUp(rows[..|rows| - 1], f);
      forall c ensures CountField(rows, f, c) ==
        CountField(rows[..|rows| - 1], f, c) + One(CountOf(rows[|rows| - 1], f) == c) {
        FieldStep(rows, f, c);
      }
      ExactlyOneShape(CountOf(rows[|rows| - 1], f));
    }
  }

  lemma ContextStep(rows: seq<Members>, c: CounterShape)
    requires rows != []
    ensures CountContext(rows, c) == CountContext(rows[..|rows| - 1], c) + One(ContextOf(rows[|rows| - 1]) == c)
  {
  }

  lemma {:induction false} ContextAddsUp(rows: seq<Members>)
    ensures CountContext(rows, MissingCount) + CountContext(rows, NullCount) + CountContext(rows, Zero)
            + CountContext(rows, PositiveInteger) + CountContext(rows, InvalidNumber)
            + CountContext(rows, BooleanCount) + CountContext(rows, StringCount) + CountContext(rows, ArrayCount)
            + CountContext(rows, ObjectCount) == |rows|
  {
    if rows != [] {
      ContextAddsUp(rows[..|rows| - 1]);
      forall c ensures CountContext(rows, c) ==
        CountContext(rows[..|rows| - 1], c) + One(ContextOf(rows[|rows| - 1]) == c) {
        ContextStep(rows, c);
      }
      ExactlyOneShape(ContextOf(rows[|rows| - 1]));
    }
  }

  lemma NoUsageNoField(row: Members, f: Field)
    requires ShapeOf(UsageOf(row)) != ObjectShape
    ensures CountOf(row, f) == MissingCount
  {
    var usage := UsageOf(row);
    if usage.Here? && usage.value.Obj? {
      assert usage.value.members == [];
    }
  }

  lemma {:induction false} MissingWithoutUsage(rows: seq<Members>, f: Field)
    ensures CountField(rows, f, MissingCount) >= |rows| - CountShape(rows, ObjectShape)
  {
    if rows != [] {
      MissingWithoutUsage(rows[..|rows| - 1], f);
      if ShapeOf(UsageOf(rows[|rows| - 1])) != ObjectShape {
        NoUsageNoField(rows[|rows| - 1], f);
      }
    }
  }

  lemma {:induction false} CountsBounded(rows: seq<Members>, s: Shape, f: Field, c: CounterShape)
    ensures CountShape(rows, s) <= |rows| && CountField(rows, f, c) <= |rows| && CountContext(rows, c) <= |rows|
  {
    if rows != [] {
      CountsBounded(rows[..|rows| - 1], s, f, c);
    }
  }

  lemma ShapesAreAccepted(scope: Scope, rows: seq<Members>)
    requires ScopeExact(scope, rows) && |rows| <= 500
    ensures ShapesAccepted(scope.shapes, scope.records)
  {
    ShapesAddUp(rows);
    forall s: Shape ensures s in scope.shapes && Small(scope.shapes[s]) {
      CountsBounded(rows, s, InputTokens, Zero);
    }
  }

  lemma FieldIsAccepted(scope: Scope, rows: seq<Members>, f: Field)
    requires ScopeExact(scope, rows) && |rows| <= 500
    ensures FieldAccepted(scope, f)
  {
    FieldAddsUp(rows, f);
    MissingWithoutUsage(rows, f);
    assert f in scope.fields && FieldExact(scope.fields[f], rows, f);
    forall c: CounterShape ensures c in scope.fields[f] && Small(scope.fields[f][c]) {
      CountsBounded(rows, MissingShape, f, c);
    }
  }

  lemma ContextIsAccepted(scope: Scope, rows: seq<Members>)
    requires ScopeExact(scope, rows) && |rows| <= 500
    ensures CountsAccepted(scope.context, scope.records)
  {
    ContextAddsUp(rows);
    forall c: CounterShape ensures c in scope.context && Small(scope.context[c]) {
      CountsBounded(rows, MissingShape, InputTokens, c);
    }
  }

  lemma ScopeIsAccepted(scope: Scope, rows: seq<Members>)
    requires ScopeExact(scope, rows) && |rows| <= 500
    ensures ScopeAccepted(scope)
  {
    ShapesAreAccepted(scope, rows);
    forall f: Field ensures FieldAccepted(scope, f) {
      FieldIsAccepted(scope, rows, f);
    }
    ContextIsAccepted(scope, rows);
  }

  lemma {:induction false} RolesAddUp(rows: seq<Members>)
    ensures var r := CountRoles(rows); r.human + r.assistant + r.unknown == |rows|
  {
    if rows != [] {
      RolesAddUp(rows[..|rows| - 1]);
    }
  }

  lemma {:induction false} IdentitiesAddUp(rows: seq<Members>, uuid: Canonicalizer)
    ensures |Canonicals(rows, uuid)| + CountIdentity(rows, uuid, NoIdentity) + CountIdentity(rows, uuid, BadIdentity)
         == |rows|
  {
    if rows != [] {
      IdentitiesAddUp(rows[..|rows| - 1], uuid);
    }
  }

  /** What was observed of a conversation is accepted. */
  lemma ConversationIsAccepted(c: Conversation, payload: Members, rows: seq<Members>, uuid: Canonicalizer)
    requires ConversationExact(c, payload, rows, uuid) && |rows| <= MAX_MESSAGES
    ensures ConversationAccepted(c) && c.whole.records == 1
  {
    RolesAddUp(rows);
    IdentitiesAddUp(rows, uuid);
    ScopeIsAccepted(c.whole, [payload]);
    ScopeIsAccepted(c.each, rows);
  }

  lemma NoConversationIsAccepted(c: Conversation)
    requires c == NoConversation()
    ensures ConversationAccepted(c)
  {
    EmptyScopeIsExact();
    ScopeIsAccepted(EmptyScope(), []);
  }

  // ----- an attempt, step by step

  /** How far the attempt has come; `Stuck` waits for the error that a bad reply raises. */
  datatype Progress =
    | Loading | Account | AccountRead | Organizations | OrganizationsRead | ReadingConversation | ConversationRead
    | Finished | Stuck | Ended

  datatype Attempt = Attempt(progress: Progress, report: Report)

  datatype Action =
    | Begin
    | Send(status: Option<int>)
    | VerifyAccount
    | VerifyOrganization
    | Observe(payload: Members, conversation: Conversation)
    | Publish
    | Fail(outcome: Outcome)

  function AwaitsReply(p: Progress): bool { p == Account || p == Organizations || p == ReadingConversation }

  function Replied(p: Progress): Progress
    requires AwaitsReply(p)
  {
    if p == Account then AccountRead else if p == Organizations then OrganizationsRead else ConversationRead
  }

  /** Once everything is observed, only a late check, the database or the clock can still object. */
  predicate Late(o: Outcome) { o == SourceChanged || o == SourceUnavailable || o == Timeout }

  ghost predicate Allowed(a: Attempt, action: Action, uuid: Canonicalizer) {
    match action
    case Begin => a.progress == Loading
    case Send(_) => AwaitsReply(a.progress) && a.report.requests < 3
    case VerifyAccount => a.progress == AccountRead
    case VerifyOrganization => a.progress == OrganizationsRead
    case Observe(payload, c) =>
      && a.progress == ConversationRead
      && Supported(Get(payload, "chat_messages"))
      && ConversationExact(c, payload, RowsOf(Get(payload, "chat_messages").items), uuid)
    case Publish => a.progress == Finished
    case Fail(o) => a.progress != Ended && o != WasObserved && (a.progress == Finished ==> Late(o))
  }

  function Apply(a: Attempt, action: Action): Attempt {
    var r := a.report;
    match action
    case Begin => Attempt(Account, r.(stage := AtAccount))
    case Send(status) =>
      var sent := r.(requests := r.requests + 1, http := if status.Some? then status else r.http);
      Attempt(if status == Some(200) && AwaitsReply(a.progress) then Replied(a.progress) else Stuck, sent)
    case VerifyAccount => Attempt(Organizations, r.(account := true, stage := AtOrganizations))
    case VerifyOrganization => Attempt(ReadingConversation, r.(organization := true, stage := AtConversation))
    case Observe(_, c) =>
      Attempt(Finished, r.(conversation := c, target := true, stage := AtComplete, outcome := WasObserved))
    case Publish => Attempt(Ended, r)
    case Fail(o) =>
      if Late(o) then Attempt(Ended, EmptyReport().(outcome := o, requests := r.requests, http := r.http))
      else Attempt(Ended, r.(outcome := o))
  }

  function Run(a: Attempt, actions: seq<Action>): Attempt {
    if actions == [] then a else Apply(Run(a, actions[..|actions| - 1]), actions[|actions| - 1])
  }

  ghost predicate Feasible(a: Attempt, actions: seq<Action>, uuid: Canonicalizer) {
    forall i | 0 <= i < |actions| :: Allowed(Run(a, actions[..i]), actions[i], uuid)
  }

  function Fresh(): Attempt { Attempt(Loading, EmptyReport()) }

  /** The stage, the flags and the number of requests at each point of the attempt. */
  ghost predicate Tracks(a: Attempt) {
    var r := a.report;
    && (r.requests == 0 ==> r.http == None)
    && match a.progress
       case Loading => r == EmptyReport()
       case Account => Position(r, AtAccount, 0)
       case AccountRead => Position(r, AtAccount, 1)
       case Organizations => Position(r, AtOrganizations, 1)
       case OrganizationsRead => Position(r, AtOrganizations, 2)
       case ReadingConversation => Position(r, AtConversation, 2)
       case ConversationRead => Position(r, AtConversation, 3) && r.http == Some(200)
       case Finished => FlagsAccepted(r) && r.outcome == WasObserved && ConversationAccepted(r.conversation)
       case Stuck => Failing(r)
       case Ended => r.requests <= 3 && FlagsAccepted(r) && ConversationAccepted(r.conversation)
  }

  ghost predicate Position(r: Report, stage: Stage, requests: nat) {
    && r.stage == stage && r.requests == requests
    && (r.account <==> stage == AtOrganizations || stage == AtConversation)
    && (r.organization <==> stage == AtConversation)
    && !r.target && r.conversation == NoConversation() && r.outcome == SourceUnavailable
  }

  ghost predicate Failing(r: Report) {
    && r.requests <= 3 && r.stage != AtComplete && !r.target && r.conversation == NoConversation()
    && (r.account ==> r.requests >= 1) && (r.organization ==> r.account && r.requests >= 2)
  }

  lemma UnfinishedIsFailing(a: Attempt)
    requires Tracks(a) && a.progress != Finished && a.progress != Ended
    ensures Failing(a.report) && (a.report.requests == 0 ==> a.report.http == None)
  {
  }

  lemma FailedIsFlagged(r: Report, o: Outcome)
    requires Failing(r) && o != WasObserved && !Late(o)
    ensures FlagsAccepted(r.(outcome := o))
  {
  }

  lemma ClearedIsFlagged(r: Report, o: Outcome)
    requires Late(o)
    ensures FlagsAccepted(EmptyReport().(outcome := o, requests := r.requests, http := r.http))
  {
  }

  lemma RequestsBounded(a: Attempt)
    requires Tracks(a)
    ensures a.report.requests <= 3 && (a.report.requests == 0 ==> a.report.http == None)
  {
  }

  lemma EndTracks(a: Attempt)
    requires a.progress == Ended && a.report.requests <= 3 && (a.report.requests == 0 ==> a.report.http == None)
    requires FlagsAccepted(a.report) && ConversationAccepted(a.report.conversation)
    ensures Tracks(a)
  {
  }

  lemma FailTracks(a: Attempt, o: Outcome, uuid: Canonicalizer, a': Attempt)
    requires Tracks(a) && Allowed(a, Fail(o), uuid) && a' == Apply(a, Fail(o))
    ensures Tracks(a')
  {
    RequestsBounded(a);
    if Late(o) {
      ClearedIsFlagged(a.report, o);
    } else {
      UnfinishedIsFailing(a);
      FailedIsFlagged(a.report, o);
    }
    NoConversationIsAccepted(a'.report.conversation);
    EndTracks(a');
  }

  lemma ObserveTracks(a: Attempt, payload: Members, c: Conversation, uuid: Canonicalizer)
    requires Tracks(a) && Allowed(a, Observe(payload, c), uuid)
    ensures Tracks(Apply(a, Observe(payload, c)))
  {
    ConversationIsAccepted(c, payload, RowsOf(Get(payload, "chat_messages").items), uuid);
  }

  lemma SendTracks(a: Attempt, status: Option<int>, uuid: Canonicalizer)
    requires Tracks(a) && Allowed(a, Send(status), uuid)
    ensures Tracks(Apply(a, Send(status)))
  {
  }

  lemma StepTracks(a: Attempt, action: Action, uuid: Canonicalizer, a': Attempt)
    requires Tracks(a) && Allowed(a, action, uuid) && a' == Apply(a, action)
    ensures Tracks(a')
  {
    match action
    case Fail(o) => FailTracks(a, o, uuid, a');
    case Observe(payload, c) => ObserveTracks(a, payload, c, uuid);
    case Begin =>
    case Send(status) => SendTracks(a, status, uuid);
    case VerifyAccount =>
    case VerifyOrganization =>
    case Publish =>
  }

  lemma FeasiblePrefix(actions: seq<Action>, uuid: Canonicalizer, n: nat)
    requires Feasible(Fresh(), actions, uuid) && n <= |actions|
    ensures Feasible(Fresh(), actions[..n], uuid)
    ensures n < |actions| ==> Allowed(Run(Fresh(), actions[..n]), actions[n], uuid)
  {
    forall i | 0 <= i < n ensures Allowed(Run(Fresh(), actions[..n][..i]), actions[..n][i], uuid) {
      assert actions[..n][..i] == actions[..i];
    }
  }

  lemma {:induction false} RunTracks(actions: seq<Action>, uuid: Canonicalizer, a: Attempt)
    requires Feasible(Fresh(), actions, uuid) && a == Run(Fresh(), actions)
    ensures Tracks(a)
  {
    if actions != [] {
      var n := |actions| - 1;
      var before := Run(Fresh(), actions[..n]);
      FeasiblePrefix(actions, uuid, n);
      RunTracks(actions[..n], uuid, before);
      StepTracks(before, actions[n], uuid, a);
    }
  }

  // ----- an attempt that succeeds

  lemma RunMore(actions: seq<Action>, action: Action, uuid: Canonicalizer, a: Attempt)
    requires Feasible(Fresh(), actions, uuid) && a == Run(Fresh(), actions) && Allowed(a, action, uuid)
    ensures Feasible(Fresh(), actions + [action], uuid)
    ensures Run(Fresh(), actions + [action]) == Apply(a, action)
  {
    var more := actions + [action];
    assert more[..|actions|] == actions;
    forall i | 0 <= i < |more| ensures Allowed(Run(Fresh(), more[..i]), more[i], uuid) {
      if i < |actions| {
        assert more[..i] == actions[..i];
      }
    }
  }

  /** Every supported conversation can be observed and published, with three requests that are answered with 200. */
  lemma AttemptCanSucceed(payload: Members, c: Conversation, uuid: Canonicalizer) returns (actions: seq<Action>)
    requires Supported(Get(payload, "chat_messages"))
    requires ConversationExact(c, payload, RowsOf(Get(payload, "chat_messages").items), uuid)
    ensures Feasible(Fresh(), actions, uuid)
    ensures Run(Fresh(), actions)
         == Attempt(Ended, Report(WasObserved, AtComplete, 3, Some(200), true, true, true, c))
  {
    actions := [];
    RunMore(actions, Begin, uuid, Fresh());
    actions := actions + [Begin];
    RunMore(actions, Send(Some(200)), uuid, Run(Fresh(), actions));
    actions := actions + [Send(Some(200))];
    RunMore(actions, VerifyAccount, uuid, Run(Fresh(), actions));
    actions := actions + [VerifyAccount];
    RunMore(actions, Send(Some(200)), uuid, Run(Fresh(), actions));
    actions := actions + [Send(Some(200))];
    RunMore(actions, VerifyOrganization, uuid, Run(Fresh(), actions));
    actions := actions + [VerifyOrganization];
    RunMore(actions, Send(Some(200)), uuid, Run(Fresh(), actions));
    actions := actions + [Send(Some(200))];
    RunMore(actions, Observe(payload, c), uuid, Run(Fresh(), actions));
    actions := actions + [Observe(payload, c)];
    RunMore(actions, Publish, uuid, Run(Fresh(), actions));
    actions := actions + [Publish];
  }

  // ----- what the report says of the attempt

  function CountSends(actions: seq<Action>): nat {
    if actions == [] then 0
    else CountSends(actions[..|actions| - 1]) + if actions[|actions| - 1].Send? then 1 else 0
  }

  /** The status of the last reply that came. */
  function LastStatus(actions: seq<Action>): Option<int> {
    if actions == [] then None
    else
      var last := actions[|actions| - 1];
      if last.Send? && last.status.Some? then last.status else LastStatus(actions[..|actions| - 1])
  }

  /** Every request is counted and the last status is on record, however the attempt ends. */
  lemma {:induction false} RequestsAreCounted(actions: seq<Action>)
    ensures Run(Fresh(), actions).report.requests == CountSends(actions)
    ensures Run(Fresh(), actions).report.http == LastStatus(actions)
  {
    if actions != [] {
      RequestsAreCounted(actions[..|actions| - 1]);
    }
  }

  /** The conversation that was observed last. */
  function LastObserved(actions: seq<Action>): Conversation {
    if actions == [] then NoConversation()
    else
      var last := actions[|actions| - 1];
      if last.Observe? then last.conversation else LastObserved(actions[..|actions| - 1])
  }

  lemma {:induction false} ObservationIsKept(actions: seq<Action>, uuid: Canonicalizer, a: Attempt)
    requires Feasible(Fresh(), actions, uuid) && a == Run(Fresh(), actions)
    ensures a.progress != Ended ==> a.report.conversation == LastObserved(actions)
    ensures a.progress == Finished ==> a.report.outcome == WasObserved
  {
    if actions != [] {
      var n := |actions| - 1;
      FeasiblePrefix(actions, uuid, n);
      ObservationIsKept(actions[..n], uuid, Run(Fresh(), actions[..n]));
    }
  }

  /** What the flags and the stage say of an attempt that has begun and passed these checks. */
  ghost predicate Recorded(r: Report, begun: bool, account: bool, organization: bool) {
    && r.account == account && r.organization == organization
    && if r.target then r.stage == AtComplete
       else r.stage == if organization then AtConversation else if account then AtOrganizations
                       else if begun then AtAccount else AtSource
  }

  lemma RecordStep(a: Attempt, action: Action, uuid: Canonicalizer, a': Attempt, begun: bool, account: bool,
                   organization: bool)
    requires Tracks(a) && Allowed(a, action, uuid) && a' == Apply(a, action) && a'.progress != Ended
    requires Recorded(a.report, begun, account, organization)
    ensures Recorded(a'.report, begun || action == Begin, account || action == VerifyAccount,
                     organization || action == VerifyOrganization)
  {
  }

  predicate Did(actions: seq<Action>, what: Action) {
    actions != [] && (actions[|actions| - 1] == what || Did(actions[..|actions| - 1], what))
  }

  lemma RecordNext(actions: seq<Action>, uuid: Canonicalizer, earlier: seq<Action>, last: Action, begun: bool,
                   account: bool, organization: bool)
    requires Feasible(Fresh(), actions, uuid) && actions != [] && Run(Fresh(), actions).progress != Ended
    requires earlier == actions[..|actions| - 1] && last == actions[|actions| - 1]
    requires Recorded(Run(Fresh(), earlier).report, begun, account, organization)
    ensures Recorded(Run(Fresh(), actions).report, begun || last == Begin, account || last == VerifyAccount,
                     organization || last == VerifyOrganization)
  {
    FeasiblePrefix(actions, uuid, |actions| - 1);
    RunTracks(earlier, uuid, Run(Fresh(), earlier));
    RecordStep(Run(Fresh(), earlier), last, uuid, Run(Fresh(), actions), begun, account, organization);
  }

  lemma EarlierStillRuns(actions: seq<Action>, uuid: Canonicalizer, earlier: seq<Action>)
    requires Feasible(Fresh(), actions, uuid) && actions != [] && earlier == actions[..|actions| - 1]
    ensures Feasible(Fresh(), earlier, uuid) && Run(Fresh(), earlier).progress != Ended
  {
    FeasiblePrefix(actions, uuid, |actions| - 1);
  }

  /** While the attempt lasts, its flags say which checks were passed, and its stage which was the last. */
  lemma {:induction false} ChecksAreRecorded(actions: seq<Action>, uuid: Canonicalizer)
    requires Feasible(Fresh(), actions, uuid) && Run(Fresh(), actions).progress != Ended
    ensures Recorded(Run(Fresh(), actions).report, Did(actions, Begin), Did(actions, VerifyAccount),
                     Did(actions, VerifyOrganization))
  {
    if actions != [] {
      var earlier, last := actions[..|actions| - 1], actions[|actions| - 1];
      EarlierStillRuns(actions, uuid, earlier);
      ChecksAreRecorded(earlier, uuid);
      RecordNext(actions, uuid, earlier, last, Did(earlier, Begin), Did(earlier, VerifyAccount),
                 Did(earlier, VerifyOrganization));
    }
  }

  /**
   * How an attempt ends decides what it reports: what was observed, if it is published; the reason, and
   * how far it came, if it fails; and nothing but the reason and the requests, if it is one of three.
   */
  lemma EndingIsReported(actions: seq<Action>, uuid: Canonicalizer, r: Report)
    requires Feasible(Fresh(), actions, uuid) && Run(Fresh(), actions) == Attempt(Ended, r)
    ensures actions != [] && (actions[|actions| - 1] == Publish || actions[|actions| - 1].Fail?)
    ensures actions[|actions| - 1] == Publish ==>
              r.outcome == WasObserved && r.conversation == LastObserved(actions) && r.target
    ensures actions[|actions| - 1].Fail? ==>
              var o := actions[|actions| - 1].outcome;
              && r.outcome == o
              && (o != SourceChanged && o != SourceUnavailable && o != Timeout ==>
                    r == Run(Fresh(), actions[..|actions| - 1]).report.(outcome := o))
              && (o == SourceChanged || o == SourceUnavailable || o == Timeout ==>
                    r == Report(o, AtSource, CountSends(actions), LastStatus(actions), false, false, false,
                                NoConversation()))
  {
    if actions != [] {
      var n := |actions| - 1;
      var before := Run(Fresh(), actions[..n]);
      FeasiblePrefix(actions, uuid, n);
      RunTracks(actions[..n], uuid, before);
      ObservationIsKept(actions[..n], uuid, before);
      RequestsAreCounted(actions);
    }
  }

  // ----- the statuses of the replies

  predicate KnownStatus(status: Option<int>) { status.None? || 100 <= status.value <= 599 }

  predicate UnknownReply(action: Action) { action.Send? && !KnownStatus(action.status) }

  predicate AllKnown(actions: seq<Action>) {
    actions == [] || (AllKnown(actions[..|actions| - 1]) && !UnknownReply(actions[|actions| - 1]))
  }

  lemma {:induction false} AllKnownMeans(actions: seq<Action>)
    ensures AllKnown(actions) <==>
              forall i | 0 <= i < |actions| :: actions[i].Send? && actions[i].status.Some? ==>
                100 <= actions[i].status.value <= 599
  {
    if actions != [] {
      var before := actions[..|actions| - 1];
      AllKnownMeans(before);
      assert forall i | 0 <= i < |before| :: before[i] == actions[i];
    }
  }

  /** A reply with an unknown status ends the requests, so that its status is the one on record. */
  lemma {:induction false} UnknownReplyIsLast(actions: seq<Action>, uuid: Canonicalizer, a: Attempt)
    requires Feasible(Fresh(), actions, uuid) && a == Run(Fresh(), actions)
    ensures KnownStatus(a.report.http) <==> AllKnown(actions)
    ensures !KnownStatus(a.report.http) ==> a.progress == Stuck || a.progress == Ended
  {
    if actions != [] {
      var n := |actions| - 1;
      var before := Run(Fresh(), actions[..n]);
      FeasiblePrefix(actions, uuid, n);
      UnknownReplyIsLast(actions[..n], uuid, before);
      StatusStep(before, actions[n], uuid, a);
    }
  }

  lemma StatusStep(a: Attempt, action: Action, uuid: Canonicalizer, a': Attempt)
    requires Allowed(a, action, uuid) && a' == Apply(a, action)
    requires !KnownStatus(a.report.http) ==> a.progress == Stuck || a.progress == Ended
    ensures KnownStatus(a'.report.http) <==> KnownStatus(a.report.http) && !UnknownReply(action)
    ensures !KnownStatus(a'.report.http) ==> a'.progress == Stuck || a'.progress == Ended
  {
  }

  /**
   * Whatever the replies and failures are, the report that an attempt ends with is accepted, provided
   * every reply had a status that HTTP knows.
   */
  lemma EveryAttemptIsAccepted(actions: seq<Action>, uuid: Canonicalizer, r: Report)
    requires Feasible(Fresh(), actions, uuid) && Run(Fresh(), actions) == Attempt(Ended, r)
    ensures ReportAccepted(r) <==>
              forall i | 0 <= i < |actions| :: actions[i].Send? && actions[i].status.Some? ==>
                100 <= actions[i].status.value <= 599
  {
    RunTracks(actions, uuid, Attempt(Ended, r));
    UnknownReplyIsLast(actions, uuid, Attempt(Ended, r));
    AllKnownMeans(actions);
    StatusDecides(r);
  }

  lemma StatusDecides(r: Report)
    requires Tracks(Attempt(Ended, r))
    ensures ReportAccepted(r) <==> KnownStatus(r.http)
  {
  }

  // ----- what the verifier notices

  /** A count of a histogram that is changed by itself is noticed, and so is the number of rows. */
  lemma ShapeChangesAreNoticed(shapes: map<Shape, nat>, records: nat, s: Shape, n: nat)
    requires ShapesAccepted(shapes, records)
    ensures s in shapes && !ShapesAccepted(shapes[s := shapes[s] + 1], records)
    ensures n != records ==> !ShapesAccepted(shapes, n)
  {
  }

  lemma CounterChangesAreNoticed(counts: map<CounterShape, nat>, records: nat, c: CounterShape)
    requires CountsAccepted(counts, records)
    ensures c in counts && !CountsAccepted(counts[c := counts[c] + 1], records)
  {
  }

  /** A scope is refused when one of its histograms is, or when rows without usage have a field. */
  lemma ScopeChangesAreNoticed(scope: Scope, f: Field, counts: map<CounterShape, nat>, shapes: map<Shape, nat>)
    ensures !CountsAccepted(counts, scope.records) ==>
              && !ScopeAccepted(scope.(context := counts))
              && !FieldAccepted(scope.(fields := scope.fields[f := counts]), f)
    ensures MissingCount in counts && ObjectShape in scope.shapes &&
            counts[MissingCount] + scope.shapes[ObjectShape] < scope.records ==>
              !FieldAccepted(scope.(fields := scope.fields[f := counts]), f)
    ensures !FieldAccepted(scope, f) ==> !ScopeAccepted(scope)
    ensures !ShapesAccepted(shapes, scope.records) ==> !ScopeAccepted(scope.(shapes := shapes))
  {
  }

  /** A conversation is refused with a scope that is, or with one of another number of rows. */
  lemma ScopesAreChecked(c: Conversation, scope: Scope)
    ensures !ScopeAccepted(scope) ==>
              !ConversationAccepted(c.(whole := scope)) && !ConversationAccepted(c.(each := scope))
    ensures scope.records != c.messages ==> !ConversationAccepted(c.(each := scope))
  {
  }

  /** An accepted report is refused when one of its counters is changed by itself. */
  lemma CountChangesAreNoticed(r: Report, n: nat)
    requires ReportAccepted(r)
    ensures var c := r.conversation;
            && !ConversationAccepted(c.(messages := c.messages + 1))
            && !ConversationAccepted(c.(roles := c.roles.(human := c.roles.human + 1)))
            && !ConversationAccepted(c.(roles := c.roles.(assistant := c.roles.assistant + 1)))
            && !ConversationAccepted(c.(roles := c.roles.(unknown := c.roles.unknown + 1)))
            && !ConversationAccepted(c.(identities := c.identities.(present := c.identities.present + 1)))
            && !ConversationAccepted(c.(identities := c.identities.(missing := c.identities.missing + 1)))
            && !ConversationAccepted(c.(identities := c.identities.(invalid := c.identities.invalid + 1)))
            && (n > c.identities.present ==> !ConversationAccepted(c.(identities := c.identities.(duplicate := n))))
    ensures n > 3 || (n == 0 && (r.http.Some? || r.account || r.organization || r.target)) ==>
              !ReportAccepted(r.(requests := n))
    ensures n < 100 || n > 599 ==> !ReportAccepted(r.(http := Some(n)))
  {
  }

  /** Only an observed conversation may be reported, and it is one. */
  lemma ConversationsAreNoticed(r: Report, c: Conversation)
    ensures r.outcome == WasObserved && c.whole.records != 1 ==> !ReportAccepted(r.(conversation := c))
    ensures r.outcome != WasObserved && (c.messages > 0 || c.whole.records > 0) ==>
              !ReportAccepted(r.(conversation := c))
  {
  }

  /** And when its flags, its stage and its outcome do not go together. */
  lemma FlagChangesAreNoticed(r: Report, o: Outcome)
    requires ReportAccepted(r)
    ensures !ReportAccepted(r.(target := !r.target))
    ensures r.outcome == WasObserved ==>
              && !ReportAccepted(r.(account := false)) && !ReportAccepted(r.(organization := false))
              && !ReportAccepted(r.(http := None)) && !ReportAccepted(r.(requests := 2))
              && !ReportAccepted(r.(stage := AtConversation))
              && (o != WasObserved ==> !ReportAccepted(r.(outcome := o)))
    ensures r.outcome != WasObserved ==>
              && !ReportAccepted(r.(outcome := WasObserved)) && !ReportAccepted(r.(stage := AtComplete))
    ensures o == SourceChanged || o == SourceUnavailable || o == Timeout ==>
              (r.account || r.organization || r.stage != AtSource ==> !ReportAccepted(r.(outcome := o)))
    ensures r.organization ==> !ReportAccepted(r.(account := false))
    ensures r.account && r.requests > 0 ==> !ReportAccepted(r.(requests := 0))
  {
  }
}
