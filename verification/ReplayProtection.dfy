/** Signed sidecar envelopes: a clock-skew check, then a single-use receipt. */
module ReplayProtection {
  // Modelled are `app/core/security.py` and `app/core/replay.py`. Keyed digests are symbolic: two are
  // equal exactly when key and message are. Byte strings are written as `string`.

  const PAST := 300.0
  const FUTURE := 60.0
  const RECEIPT_TTL := 360.0
  const BODY_LIMIT := 8 * 1024 * 1024

  datatype Option<+T> = None | Some(value: T)

  /** The X-Signature header: the digest of some message under some key, or any other text. */
  datatype Signature = Hmac(key: string, message: string) | Forged(text: string)

  /** The primary key of a receipt row, a domain-separated digest of the signature. */
  datatype ReceiptId = ReceiptId(apiKey: string, signature: Signature)

  type Receipts = map<ReceiptId, real>

  datatype HttpError = HttpError(status: int, reason: Reason)

  datatype Reason =
    | NotConfigured | MissingHeaders | BadTimestamp | TimestampExpired | TimestampFuture | OutsideWindow
    | BadContentLength | BodyTooLarge | UnknownDevice | SignatureMismatch
    | ReplayedRequest | StorageUnavailable

  datatype Result<+T> = Ok(value: T) | Err(error: HttpError)

  // ----- claim_signature

  function Unexpired(rows: Receipts, now: real): Receipts {
    map id | id in rows && rows[id] >= now :: rows[id]
  }

  /**
   * One transaction: delete expired receipts, insert this one, commit. A duplicate key or a failing
   * database rolls everything back, the deletions included.
   */
  function ClaimStep(rows: Receipts, id: ReceiptId, now: real, ttl: real, available: bool)
    : (Receipts, Option<HttpError>)
  {
    if !available then (rows, Some(HttpError(503, StorageUnavailable)))
    else if id in Unexpired(rows, now) then (rows, Some(HttpError(409, ReplayedRequest)))
    else (Unexpired(rows, now)[id := now + ttl], None)
  }

  class ReceiptStore {
    var rows: Receipts

    constructor ()
      ensures rows == map[]
    {
      rows := map[];
    }

    method ClaimSignature(apiKey: string, signature: Signature, now: real, available: bool)
      returns (refused: Option<HttpError>)
      modifies this
      ensures (rows, refused) == ClaimStep(old(rows), ReceiptId(apiKey, signature), now, RECEIPT_TTL, available)
      ensures refused.Some? ==> rows == old(rows)
      ensures refused.None? ==> ReceiptId(apiKey, signature) in rows
    {
      var receiptId := ReceiptId(apiKey, signature);
      if !available {
        return Some(HttpError(503, StorageUnavailable));
      }
      var session := map id | id in rows && !(rows[id] < now) :: rows[id];
      assert session == Unexpired(rows, now);
      if receiptId in session {
        return Some(HttpError(409, ReplayedRequest));
      }
      rows := session[receiptId := now + RECEIPT_TTL];
      return None;
    }
  }

  // ----- validate_ingest_auth

  datatype Timestamp = NotANumber | NotFinite | Finite(seconds: real)

  datatype ContentLength = Absent | Malformed | Length(bytes: int)

  datatype Settings = Settings(ingestKey: string, insecureDefault: bool)

  /** What one request carries; `deviceKey` is the key on file for `deviceId`, if any. */
  datatype Request = Request(signature: Option<Signature>, timestamp: string, contentLength: ContentLength,
                             chunks: seq<string>, deviceId: Option<string>, deviceKey: Option<string>,
                             purpose: string)

  /** A request that passed every check but has not yet claimed its receipt. */
  datatype Ticket = Ticket(key: string, signature: Signature, timestamp: real, checkedAt: real) {
    function Receipt(): ReceiptId { ReceiptId(key, signature) }

    predicate InWindow() {
      -FUTURE <= checkedAt - timestamp <= PAST
    }

    predicate SameEnvelope(other: Ticket) {
      key == other.key && signature == other.signature && timestamp == other.timestamp
    }
  }

  /** The ticket of a request signed with the key and message in `input`. */
  function TicketFor(input: (string, string), seconds: real, now: real): Ticket {
    Ticket(input.0, Hmac(input.0, input.1), seconds, now)
  }

  function Concat(chunks: seq<string>): string {
    if chunks == [] then "" else Concat(chunks[..|chunks| - 1]) + chunks[|chunks| - 1]
  }

  lemma {:induction false} ConcatGrows(chunks: seq<string>, n: nat)
    requires n <= |chunks|
    ensures |Concat(chunks[..n])| <= |Concat(chunks)|
  {
    if n < |chunks| {
      assert chunks[..|chunks| - 1][..n] == chunks[..n];
      ConcatGrows(chunks[..|chunks| - 1], n);
    } else {
      assert chunks[..n] == chunks;
    }
  }

  /** The body is received chunk by chunk and refused as soon as it would exceed the cap. */
  method ReceiveBody(chunks: seq<string>) returns (r: Result<string>)
    ensures |Concat(chunks)| <= BODY_LIMIT ==> r == Ok(Concat(chunks))
    ensures |Concat(chunks)| > BODY_LIMIT ==> r == Err(HttpError(413, BodyTooLarge))
  {
    var body := "";
    for n := 0 to |chunks|
      invariant body == Concat(chunks[..n]) && |body| <= BODY_LIMIT
    {
      assert chunks[..n + 1][..n] == chunks[..n];
      ConcatGrows(chunks, n + 1);
      if |body| + |chunks[n]| > BODY_LIMIT {
        return Err(HttpError(413, BodyTooLarge));
      }
      body := body + chunks[n];
    }
    assert chunks[..|chunks|] == chunks;
    return Ok(body);
  }

  function DeviceMessage(device: string, timestamp: string, purpose: string, body: string): string {
    "DEVICEv1|" + device + "|" + timestamp + "|" + purpose + "|" + body
  }

  /** The key a request must be signed with, and the message it must have signed. */
  function SigningInput(settings: Settings, r: Request, body: string): Option<(string, string)> {
    match r.deviceId
    case None => Some((settings.ingestKey, r.timestamp + body))
    case Some(device) =>
      if r.deviceKey.None? then None
      else Some((r.deviceKey.value, DeviceMessage(device, r.timestamp, r.purpose, body)))
  }

  /** `not x_signature or not x_timestamp`; an empty signature header counts as missing. */
  predicate HeadersPresent(r: Request) {
    r.signature.Some? && r.signature.value != Forged("") && r.timestamp != ""
  }

  /** When the checks up to the signature comparison let a request through, independently of their order. */
  ghost predicate Authentic(settings: Settings, parse: string -> Timestamp, now: real, r: Request) {
    && settings.ingestKey != "" && !settings.insecureDefault
    && HeadersPresent(r)
    && parse(r.timestamp).Finite?
    && -FUTURE <= now - parse(r.timestamp).seconds <= PAST
    && (r.contentLength.Absent? || (r.contentLength.Length? && 0 <= r.contentLength.bytes <= BODY_LIMIT))
    && |Concat(r.chunks)| <= BODY_LIMIT
    && var input := SigningInput(settings, r, Concat(r.chunks));
       input.Some? && r.signature.value == Hmac(input.value.0, input.value.1)
  }

  /** Which error a request is answered with: the first check that fails, in the documented order. */
  function Verdict(settings: Settings, parse: string -> Timestamp, now: real, r: Request): Option<HttpError> {
    var ts := parse(r.timestamp);
    if settings.ingestKey == "" || settings.insecureDefault then Some(HttpError(503, NotConfigured))
    else if !HeadersPresent(r) then Some(HttpError(401, MissingHeaders))
    else if !ts.Finite? then Some(HttpError(401, BadTimestamp))
    else if now - ts.seconds < -FUTURE then Some(HttpError(400, TimestampFuture))
    else if now - ts.seconds > PAST then Some(HttpError(400, TimestampExpired))
    else if r.contentLength.Malformed? || (r.contentLength.Length? && r.contentLength.bytes < 0) then
      Some(HttpError(400, BadContentLength))
    else if (r.contentLength.Length? && r.contentLength.bytes > BODY_LIMIT) || |Concat(r.chunks)| > BODY_LIMIT then
      Some(HttpError(413, BodyTooLarge))
    else
      var input := SigningInput(settings, r, Concat(r.chunks));
      if input.None? then Some(HttpError(401, UnknownDevice))
      else if r.signature.value != Hmac(input.value.0, input.value.1) then Some(HttpError(401, SignatureMismatch))
      else None
  }

  /** The pre-flight up to, but not including, the claim. */
  method PreFlight(settings: Settings, parse: string -> Timestamp, now: real, r: Request)
    returns (result: Result<(Ticket, string)>)
    ensures result.Ok? <==> Authentic(settings, parse, now, r)
    ensures result.Err? ==> Some(result.error) == Verdict(settings, parse, now, r)
    ensures result.Ok? ==>
              && result.value.1 == Concat(r.chunks)
              && var (ticket, input) := (result.value.0, SigningInput(settings, r, Concat(r.chunks)).value);
                 && ticket == TicketFor(input, parse(r.timestamp).seconds, now)
                 && ticket.InWindow()
  {
    if settings.ingestKey == "" || settings.insecureDefault {
      return Err(HttpError(503, NotConfigured));
    }
    if !HeadersPresent(r) {
      return Err(HttpError(401, MissingHeaders));
    }
    var ts := parse(r.timestamp);
    if !ts.Finite? {
      return Err(HttpError(401, BadTimestamp));
    }
    var skew := now - ts.seconds;
    if skew < -FUTURE || skew > PAST {
      return Err(HttpError(400, if skew > 0.0 then TimestampExpired else TimestampFuture));
    }
    match r.contentLength {
      case Absent =>
      case Malformed => return Err(HttpError(400, BadContentLength));
      case Length(n) =>
        if n < 0 {
          return Err(HttpError(400, BadContentLength));
        }
        if n > BODY_LIMIT {
          return Err(HttpError(413, BodyTooLarge));
        }
    }
    var body := ReceiveBody(r.chunks);
    if body.Err? {
      return Err(body.error);
    }
    var input := SigningInput(settings, r, body.value);
    if input.None? {
      return Err(HttpError(401, UnknownDevice));
    }
    var (key, message) := input.value;
    if r.signature.value != Hmac(key, message) {
      return Err(HttpError(401, SignatureMismatch));
    }
    return Ok((TicketFor(input.value, ts.seconds, now), body.value));
  }

  /** The whole of `validate_ingest_auth`: the clock is read once for the check and once for the claim. */
  method ValidateIngestAuth(settings: Settings, parse: string -> Timestamp, store: ReceiptStore, r: Request,
                            checkedAt: real, claimedAt: real, available: bool)
    returns (result: Result<string>)
    modifies store
    ensures !Authentic(settings, parse, checkedAt, r) ==>
              && result.Err? && Some(result.error) == Verdict(settings, parse, checkedAt, r)
              && store.rows == old(store.rows)
    ensures Authentic(settings, parse, checkedAt, r) ==>
              && var input := SigningInput(settings, r, Concat(r.chunks)).value;
                 var id := ReceiptId(input.0, Hmac(input.0, input.1));
                 var (rows, refused) := ClaimStep(old(store.rows), id, claimedAt, RECEIPT_TTL, available);
                 store.rows == rows && result == if refused.Some? then Err(refused.value) else Ok(Concat(r.chunks))
  {
    var checked := PreFlight(settings, parse, checkedAt, r);
    if checked.Err? {
      return Err(checked.error);
    }
    var (ticket, body) := checked.value;
    var refused := store.ClaimSignature(ticket.key, ticket.signature, claimedAt, available);
    if refused.Some? {
      return Err(refused.value);
    }
    return Ok(body);
  }

  // ----- verify_config_signature

  datatype ConfigView = Redacted | Verified

  /** `GET /fleet/config`: the query string is signed in place of a body. */
  function ConfigSigningInput(settings: Settings, r: Request, query: string): Option<(string, string)> {
    match r.deviceId
    case None => Some((settings.ingestKey, r.timestamp + "GET:" + query))
    case Some(device) =>
      if r.deviceKey.None? then None
      else Some((r.deviceKey.value, DeviceMessage(device, r.timestamp, "config", query)))
  }

  /** Whether the request asks for the full view, and whether there is a key to check it with. */
  predicate SignedForConfig(settings: Settings, r: Request) {
    HeadersPresent(r) && settings.ingestKey != "" && !settings.insecureDefault
  }

  /** When a signed request is let through to its claim, independently of the order of the checks. */
  ghost predicate ConfigAuthentic(settings: Settings, parse: string -> Timestamp, now: real, r: Request, query: string)
    requires HeadersPresent(r)
  {
    && parse(r.timestamp).Finite?
    && -FUTURE <= now - parse(r.timestamp).seconds <= PAST
    && var input := ConfigSigningInput(settings, r, query);
       input.Some? && r.signature.value == Hmac(input.value.0, input.value.1)
  }

  /** The first check that a signed request fails. */
  function ConfigVerdict(settings: Settings, parse: string -> Timestamp, now: real, r: Request,
                         query: string): Option<HttpError>
    requires HeadersPresent(r)
  {
    var (ts, input) := (parse(r.timestamp), ConfigSigningInput(settings, r, query));
    if !ts.Finite? then Some(HttpError(401, BadTimestamp))
    else if !(-FUTURE <= now - ts.seconds <= PAST) then Some(HttpError(400, OutsideWindow))
    else if input.None? then Some(HttpError(401, UnknownDevice))
    else if r.signature.value != Hmac(input.value.0, input.value.1) then Some(HttpError(401, SignatureMismatch))
    else None
  }

  /** An unsigned request is served the redacted view; one that is signed must verify, and claims. */
  method VerifyConfigSignature(settings: Settings, parse: string -> Timestamp, store: ReceiptStore, r: Request,
                               query: string, checkedAt: real, claimedAt: real, available: bool)
    returns (result: Result<ConfigView>)
    modifies store
    ensures result == Ok(Redacted) <==> !SignedForConfig(settings, r)
    ensures SignedForConfig(settings, r) && !ConfigAuthentic(settings, parse, checkedAt, r, query) ==>
              result.Err? && Some(result.error) == ConfigVerdict(settings, parse, checkedAt, r, query)
    ensures SignedForConfig(settings, r) && ConfigAuthentic(settings, parse, checkedAt, r, query) ==>
              var id := ReceiptId(ConfigSigningInput(settings, r, query).value.0, r.signature.value);
              var (rows, refused) := ClaimStep(old(store.rows), id, claimedAt, RECEIPT_TTL, available);
              store.rows == rows && result == if refused.Some? then Err(refused.value) else Ok(Verified)
    ensures result != Ok(Verified) ==> store.rows == old(store.rows)
  {
    if !HeadersPresent(r) || settings.ingestKey == "" || settings.insecureDefault {
      return Ok(Redacted);
    }
    var ts := parse(r.timestamp);
    if !ts.Finite? {
      return Err(HttpError(401, BadTimestamp));
    }
    var skew := checkedAt - ts.seconds;
    if skew < -FUTURE || skew > PAST {
      return Err(HttpError(400, OutsideWindow));
    }
    var input := ConfigSigningInput(settings, r, query);
    if input.None? {
      return Err(HttpError(401, UnknownDevice));
    }
    var (key, message) := input.value;
    if r.signature.value != Hmac(key, message) {
      return Err(HttpError(401, SignatureMismatch));
    }
    var refused := store.ClaimSignature(key, r.signature.value, claimedAt, available);
    if refused.Some? {
      return Err(refused.value);
    }
    return Ok(Verified);
  }

  // ----- the tickets that requests are given

  /** How the server is set up: its settings, how it reads header numbers, and the keys of enrolled devices. */
  datatype Site = Site(settings: Settings, parse: string -> Timestamp, keyOf: string -> Option<string>)

  /**
   * Numbers hold no bar and neither do the ids of devices, which are 32 hexadecimal digits; no device
   * has the shared key.
   */
  ghost predicate WellSet(site: Site) {
    && (forall s: string | site.parse(s).Finite? :: '|' !in s)
    && (forall d | site.keyOf(d).Some? :: '|' !in d && site.keyOf(d).value != site.settings.ingestKey)
  }

  predicate Registered(site: Site, r: Request) {
    r.deviceId.Some? ==> r.deviceKey == site.keyOf(r.deviceId.value)
  }

  /** What `PreFlight` gives an authentic request. */
  ghost predicate FromIngest(site: Site, ticket: Ticket, r: Request) {
    && Registered(site, r) && Authentic(site.settings, site.parse, ticket.checkedAt, r)
    && var input := SigningInput(site.settings, r, Concat(r.chunks)).value;
       ticket == TicketFor(input, site.parse(r.timestamp).seconds, ticket.checkedAt)
  }

  /** What an authentic request for the configuration claims with. */
  ghost predicate FromConfig(site: Site, ticket: Ticket, r: Request, query: string) {
    && Registered(site, r) && SignedForConfig(site.settings, r)
    && ConfigAuthentic(site.settings, site.parse, ticket.checkedAt, r, query)
    && var input := ConfigSigningInput(site.settings, r, query).value;
       ticket == TicketFor(input, site.parse(r.timestamp).seconds, ticket.checkedAt)
  }

  ghost predicate Issues(site: Site, ticket: Ticket) {
    (exists r :: FromIngest(site, ticket, r)) || (exists r, query :: FromConfig(site, ticket, r, query))
  }

  /** The request passes at the very instant its timestamp names. */
  ghost predicate Sends(site: Site, r: Request, x: real) {
    Registered(site, r) && site.parse(r.timestamp) == Finite(x) && Authentic(site.settings, site.parse, x, r)
  }

  ghost function TicketAt(site: Site, r: Request, x: real, now: real): Ticket
    requires Sends(site, r, x)
  {
    TicketFor(SigningInput(site.settings, r, Concat(r.chunks)).value, x, now)
  }

  /** Such a request passes at any instant of the window around its timestamp. */
  lemma PassesInWindow(site: Site, r: Request, x: real, now: real)
    requires Sends(site, r, x) && -FUTURE <= now - x <= PAST
    ensures var t := TicketAt(site, r, x, now); FromIngest(site, t, r) && Issues(site, t) && t.InWindow()
  {
    assert FromIngest(site, TicketAt(site, r, x, now), r);
  }

  lemma IssuedInWindow(site: Site, ticket: Ticket)
    requires Issues(site, ticket)
    ensures ticket.InWindow()
  {
  }

  // ----- every interleaved run

  /**
   * A request passes its pre-flight, or a request that did so claims its receipt. A claim reads the
   * clock at `at`, and its transaction takes effect when it is `committed`.
   */
  datatype Event =
    | Check(who: nat, ticket: Ticket)
    | Claim(who: nat, at: real, committed: real, available: bool)
  {
    function Time(): real {
      if Check? then ticket.checkedAt else committed
    }
  }

  datatype Acceptance = Acceptance(ticket: Ticket, at: real)

  datatype State = State(pending: map<nat, Ticket>, rows: Receipts, accepted: seq<Acceptance>)

  function Step(s: State, e: Event, ttl: real): State {
    match e
    case Check(who, ticket) => s.(pending := s.pending[who := ticket])
    case Claim(who, at, _, available) =>
      if who !in s.pending then s
      else
        var ticket := s.pending[who];
        var (rows, refused) := ClaimStep(s.rows, ticket.Receipt(), at, ttl, available);
        State(s.pending - {who}, rows,
              if refused.Some? then s.accepted else s.accepted + [Acceptance(ticket, at)])
  }

  /** From an empty receipt table, with any number of requests and workers interleaved. */
  function Run(events: seq<Event>, ttl: real): State {
    if events == [] then State(map[], map[], [])
    else Step(Run(events[..|events| - 1], ttl), events[|events| - 1], ttl)
  }

  /**
   * The clock never goes back, every check saw a timestamp inside the window, every claim reads the
   * clock at most `delay` after its check (while the body arrives and the signature is compared), and
   * commits at most `lag` after that.
   */
  ghost predicate Feasible(events: seq<Event>, ttl: real, delay: real, lag: real) {
    events == [] ||
    var n := |events| - 1;
    && Feasible(events[..n], ttl, delay, lag)
    && (n > 0 ==> events[n - 1].Time() <= events[n].Time())
    && match events[n]
       case Check(_, ticket) => ticket.InWindow()
       case Claim(who, at, committed, _) =>
         var s := Run(events[..n], ttl);
         && at <= committed <= at + lag
         && (who in s.pending ==> s.pending[who].checkedAt <= at <= s.pending[who].checkedAt + delay)
  }

  /** Every check is that of a request that passes. */
  ghost predicate Issued(site: Site, events: seq<Event>) {
    forall i | 0 <= i < |events| && events[i].Check? :: Issues(site, events[i].ticket)
  }

  ghost predicate AtMostOnce(s: State) {
    forall i, j | 0 <= i < j < |s.accepted| :: !s.accepted[i].ticket.SameEnvelope(s.accepted[j].ticket)
  }

  /** The receipt of an acceptance is still there, unless the clock has passed its expiry. */
  ghost predicate ReceiptsOutlive(s: State, ttl: real, clock: real) {
    forall a | a in s.accepted ::
      clock > a.at + ttl || (a.ticket.Receipt() in s.rows && s.rows[a.ticket.Receipt()] >= a.at + ttl)
  }

  /** Every receipt was written by an acceptance of that signature. */
  ghost predicate ReceiptsAreEarned(s: State, ttl: real) {
    forall id | id in s.rows :: exists a :: a in s.accepted && a.ticket.Receipt() == id && s.rows[id] == a.at + ttl
  }

  ghost predicate TicketsInWindow(s: State) {
    && (forall who | who in s.pending :: s.pending[who].InWindow())
    && (forall a | a in s.accepted :: a.ticket.InWindow() && a.ticket.checkedAt <= a.at)
  }

  ghost predicate Inv(s: State, ttl: real, clock: real) {
    ReceiptsOutlive(s, ttl, clock) && ReceiptsAreEarned(s, ttl) && TicketsInWindow(s)
  }

  function Clock(events: seq<Event>): real
    requires events != []
  {
    events[|events| - 1].Time()
  }

  /** What one claim does to the invariant, whether it is granted or not. */
  lemma ClaimKeepsInv(s: State, clock: real, e: Event, ttl: real)
    requires Inv(s, ttl, clock) && e.Claim? && clock <= e.committed && e.at <= e.committed
    requires e.who in s.pending ==> s.pending[e.who].checkedAt <= e.at
    ensures Inv(Step(s, e, ttl), ttl, e.committed)
  {
    if e.who in s.pending {
      var ticket := s.pending[e.who];
      var id := ticket.Receipt();
      var s' := Step(s, e, ttl);
      if e.available && id !in Unexpired(s.rows, e.at) {
        GrantOutlives(s, clock, e, ttl, Acceptance(ticket, e.at), s');
        GrantIsEarned(s, e, ttl, Acceptance(ticket, e.at), s');
      }
    }
  }

  lemma GrantOutlives(s: State, clock: real, e: Event, ttl: real, granted: Acceptance, s': State)
    requires ReceiptsOutlive(s, ttl, clock) && e.Claim? && clock <= e.committed && e.at <= e.committed
    requires granted.at == e.at && granted.ticket.Receipt() !in Unexpired(s.rows, e.at)
    requires s'.rows == Unexpired(s.rows, e.at)[granted.ticket.Receipt() := e.at + ttl]
    requires s'.accepted == s.accepted + [granted]
    ensures ReceiptsOutlive(s', ttl, e.committed)
  {
    forall a | a in s'.accepted
      ensures e.committed > a.at + ttl || (a.ticket.Receipt() in s'.rows && s'.rows[a.ticket.Receipt()] >= a.at + ttl)
    {
      assert a == granted || a in s.accepted;
    }
  }

  lemma GrantIsEarned(s: State, e: Event, ttl: real, granted: Acceptance, s': State)
    requires ReceiptsAreEarned(s, ttl) && e.Claim? && granted.at == e.at
    requires s'.rows == Unexpired(s.rows, e.at)[granted.ticket.Receipt() := e.at + ttl]
    requires s'.accepted == s.accepted + [granted]
    ensures ReceiptsAreEarned(s', ttl)
  {
    forall i | i in s'.rows
      ensures exists a :: a in s'.accepted && a.ticket.Receipt() == i && s'.rows[i] == a.at + ttl
    {
      if i == granted.ticket.Receipt() {
        assert granted in s'.accepted;
      } else {
        assert i in s.rows && s'.rows[i] == s.rows[i];
        var a :| a in s.accepted && a.ticket.Receipt() == i && s.rows[i] == a.at + ttl;
        assert a in s'.accepted;
      }
    }
  }

  lemma {:induction false} RunKeepsInv(events: seq<Event>, ttl: real, delay: real, lag: real)
    requires events != [] && Feasible(events, ttl, delay, lag)
    ensures Inv(Run(events, ttl), ttl, Clock(events))
  {
    var n := |events| - 1;
    var s, e := Run(events[..n], ttl), events[n];
    if n > 0 {
      RunKeepsInv(events[..n], ttl, delay, lag);
    }
    if e.Claim? {
      ClaimKeepsInv(s, if n > 0 then Clock(events[..n]) else e.committed, e, ttl);
    }
  }

  /**
   * When a claim is refused as a replay: exactly when the same signature was accepted no longer than
   * the receipt lifetime ago. So a fresh signature is never refused, whatever else happened.
   */
  lemma {:induction false} RefusedExactlyAfterRecentAcceptance(events: seq<Event>, ttl: real, delay: real, lag: real,
                                                               id: ReceiptId, now: real)
    requires Feasible(events, ttl, delay, lag)
    requires events != [] ==> Clock(events) <= now
    ensures var s := Run(events, ttl);
            ClaimStep(s.rows, id, now, ttl, true).1 == Some(HttpError(409, ReplayedRequest)) <==>
            exists a :: a in s.accepted && a.ticket.Receipt() == id && now <= a.at + ttl
  {
    if events != [] {
      RunKeepsInv(events, ttl, delay, lag);
      var s := Run(events, ttl);
      if id in Unexpired(s.rows, now) {
        var a :| a in s.accepted && a.ticket.Receipt() == id && s.rows[id] == a.at + ttl;
      }
    }
  }

  // ----- long enough lifetimes

  /**
   * While receipts outlive window, delay, lag and the shift between two timestamps under one
   * signature, a signature that was accepted cannot claim again.
   */
  lemma SecondClaimRefused(s: State, clock: real, a: Acceptance, ticket: Ticket, e: Event, ttl: real, delay: real,
                           lag: real, shift: real)
    requires ttl >= PAST + FUTURE + delay + lag + shift && Inv(s, ttl, clock) && a in s.accepted
    requires ticket.InWindow() && a.ticket.Receipt() == ticket.Receipt()
    requires ticket.timestamp - a.ticket.timestamp <= shift
    requires e.Claim? && clock <= e.committed <= e.at + lag && e.at <= e.committed && e.at <= ticket.checkedAt + delay
    ensures ClaimStep(s.rows, ticket.Receipt(), e.at, ttl, true).1.Some?
  {
    assert e.committed <= a.at + ttl;
  }

  /** No signed envelope is accepted twice when receipts outlive the window, the delay and the lag together. */
  lemma {:induction false} NoReplay(events: seq<Event>, ttl: real, delay: real, lag: real)
    requires ttl >= PAST + FUTURE + delay + lag && Feasible(events, ttl, delay, lag)
    ensures AtMostOnce(Run(events, ttl))
  {
    if events != [] {
      var n := |events| - 1;
      NoReplay(events[..n], ttl, delay, lag);
      var s, e := Run(events[..n], ttl), events[n];
      if Run(events, ttl).accepted != s.accepted {
        var ticket := s.pending[e.who];
        forall a | a in s.accepted ensures !a.ticket.SameEnvelope(ticket) {
          RunKeepsInv(events[..n], ttl, delay, lag);
          if a.ticket.SameEnvelope(ticket) {
            SecondClaimRefused(s, Clock(events[..n]), a, ticket, e, ttl, delay, lag, 0.0);
          }
        }
        AddAcceptance(s, Acceptance(ticket, e.at), Run(events, ttl));
      }
    }
  }

  lemma AddAcceptance(s: State, a: Acceptance, s': State)
    requires AtMostOnce(s) && s'.accepted == s.accepted + [a]
    requires forall b | b in s.accepted :: !b.ticket.SameEnvelope(a.ticket)
    ensures AtMostOnce(s')
  {
  }

  /** Made with the key all sidecars share, or with that of a device. */
  predicate Under(site: Site, shared: bool, ticket: Ticket) {
    ticket.key == site.settings.ingestKey <==> shared
  }

  /** No signature of the kind is accepted twice, whatever timestamps it comes with. */
  ghost predicate OncePerSignature(site: Site, shared: bool, s: State) {
    forall i, j | 0 <= i < j < |s.accepted| && Under(site, shared, s.accepted[j].ticket) ::
      s.accepted[i].ticket.Receipt() != s.accepted[j].ticket.Receipt()
  }

  ghost predicate Checked(events: seq<Event>, ticket: Ticket) {
    exists i | 0 <= i < |events| :: events[i].Check? && events[i].ticket == ticket
  }

  /** The timestamps checked under one signature of the kind are at most `shift` apart. */
  ghost predicate ShiftedBy(site: Site, shared: bool, events: seq<Event>, shift: real) {
    forall a, b | Checked(events, a) && Checked(events, b) && a.Receipt() == b.Receipt() && Under(site, shared, b) ::
      b.timestamp - a.timestamp <= shift
  }

  lemma CheckedBefore(events: seq<Event>, n: nat, ticket: Ticket)
    requires n <= |events| && Checked(events[..n], ticket)
    ensures Checked(events, ticket)
  {
    var i :| 0 <= i < n && events[..n][i].Check? && events[..n][i].ticket == ticket;
    assert events[i] == events[..n][i];
  }

  lemma ShiftedBefore(site: Site, shared: bool, events: seq<Event>, n: nat, shift: real)
    requires n <= |events| && ShiftedBy(site, shared, events, shift)
    ensures ShiftedBy(site, shared, events[..n], shift)
  {
    forall ticket | Checked(events[..n], ticket) ensures Checked(events, ticket) {
      CheckedBefore(events, n, ticket);
    }
  }

  lemma {:induction false} TicketsAreChecked(events: seq<Event>, ttl: real)
    ensures forall who | who in Run(events, ttl).pending :: Checked(events, Run(events, ttl).pending[who])
    ensures forall a | a in Run(events, ttl).accepted :: Checked(events, a.ticket)
  {
    if events != [] {
      var n := |events| - 1;
      TicketsAreChecked(events[..n], ttl);
      forall ticket | Checked(events[..n], ticket) ensures Checked(events, ticket) {
        CheckedBefore(events, n, ticket);
      }
      assert events[n].Check? ==> Checked(events, events[n].ticket);
    }
  }

  lemma AddSignature(site: Site, shared: bool, s: State, a: Acceptance, s': State)
    requires OncePerSignature(site, shared, s) && s'.accepted == s.accepted + [a]
    requires Under(site, shared, a.ticket) ==> forall b | b in s.accepted :: b.ticket.Receipt() != a.ticket.Receipt()
    ensures OncePerSignature(site, shared, s')
  {
  }

  /** No signature is accepted twice when receipts outlive window, delay, lag and shift together. */
  lemma {:induction false} NoSignatureTwice(site: Site, shared: bool, events: seq<Event>, ttl: real, delay: real,
                                            lag: real, shift: real)
    requires ttl >= PAST + FUTURE + delay + lag + shift
    requires Feasible(events, ttl, delay, lag) && ShiftedBy(site, shared, events, shift)
    ensures OncePerSignature(site, shared, Run(events, ttl))
  {
    if events != [] {
      var before, e := events[..|events| - 1], events[|events| - 1];
      ShiftedBefore(site, shared, events, |events| - 1, shift);
      NoSignatureTwice(site, shared, before, ttl, delay, lag, shift);
      var s := Run(before, ttl);
      if Run(events, ttl).accepted != s.accepted {
        var ticket := s.pending[e.who];
        TicketsAreChecked(before, ttl);
        forall a | a in s.accepted && Under(site, shared, ticket) ensures a.ticket.Receipt() != ticket.Receipt() {
          RunKeepsInv(before, ttl, delay, lag);
          if a.ticket.Receipt() == ticket.Receipt() {
            SecondClaimRefused(s, Clock(before), a, ticket, e, ttl, delay, lag, shift);
          }
        }
        AddSignature(site, shared, s, Acceptance(ticket, e.at), Run(events, ttl));
      }
    }
  }

  // ----- lifetimes that are too short

  lemma Extend(events: seq<Event>, e: Event, ttl: real, delay: real, lag: real)
    requires Feasible(events, ttl, delay, lag) && (events != [] ==> Clock(events) <= e.Time())
    requires e.Check? ==> e.ticket.InWindow()
    requires e.Claim? ==> e.at <= e.committed <= e.at + lag
    requires e.Claim? && e.who in Run(events, ttl).pending ==>
               var t := Run(events, ttl).pending[e.who].checkedAt; t <= e.at <= t + delay
    ensures Feasible(events + [e], ttl, delay, lag)
    ensures Run(events + [e], ttl) == Step(Run(events, ttl), e, ttl)
    ensures Clock(events + [e]) == e.Time()
  {
    assert (events + [e])[..|events|] == events;
  }

  /** No other tickets are checked. */
  ghost predicate ChecksAmong(events: seq<Event>, tickets: set<Ticket>) {
    forall i | 0 <= i < |events| && events[i].Check? :: events[i].ticket in tickets
  }

  /** The first claim of a run, at the instant of its check, followed by the check of a second request. */
  lemma FirstClaim(t0: Ticket, t1: Ticket, ttl: real, delay: real, lag: real) returns (events: seq<Event>)
    requires t0.InWindow() && t1.InWindow() && t0.checkedAt <= t1.checkedAt && 0.0 <= delay && 0.0 <= lag
    ensures |events| == 3 && events[0] == Check(0, t0) && events[2] == Check(1, t1) && ChecksAmong(events, {t0, t1})
    ensures Feasible(events, ttl, delay, lag) && Clock(events) == t1.checkedAt
    ensures var s := Run(events, ttl);
            && s.pending == map[1 := t1] && s.rows == map[t0.Receipt() := t0.checkedAt + ttl]
            && s.accepted == [Acceptance(t0, t0.checkedAt)]
  {
    events := [];
    Extend(events, Check(0, t0), ttl, delay, lag);
    events := events + [Check(0, t0)];
    assert Run(events, ttl) == State(map[0 := t0], map[], []);
    Extend(events, Claim(0, t0.checkedAt, t0.checkedAt, true), ttl, delay, lag);
    events := events + [Claim(0, t0.checkedAt, t0.checkedAt, true)];
    assert Run(events, ttl).pending == map[] && Run(events, ttl).rows == map[t0.Receipt() := t0.checkedAt + ttl];
    Extend(events, Check(1, t1), ttl, delay, lag);
    events := events + [Check(1, t1)];
  }

  /** The second claim comes when the receipt of the first has expired. */
  lemma TwoClaims(t0: Ticket, t1: Ticket, late: real, ttl: real, delay: real, lag: real) returns (events: seq<Event>)
    requires t0.InWindow() && t1.InWindow() && t0.checkedAt <= t1.checkedAt && 0.0 <= delay && 0.0 <= lag
    requires t1.checkedAt <= late <= t1.checkedAt + delay && t0.checkedAt + ttl < late
    ensures |events| == 4 && events[0] == Check(0, t0) && events[2] == Check(1, t1) && ChecksAmong(events, {t0, t1})
    ensures Feasible(events, ttl, delay, lag)
    ensures Run(events, ttl).accepted == [Acceptance(t0, t0.checkedAt), Acceptance(t1, late)]
  {
    events := FirstClaim(t0, t1, ttl, delay, lag);
    assert t1.Receipt() !in Unexpired(Run(events, ttl).rows, late);
    Extend(events, Claim(1, late, late, true), ttl, delay, lag);
    events := events + [Claim(1, late, late, true)];
  }

  /** A third request is checked and claims at once, and the receipt of the first goes. */
  lemma Overtake(events: seq<Event>, t1: Ticket, other: Ticket, ttl: real, delay: real, lag: real)
    returns (longer: seq<Event>)
    requires Feasible(events, ttl, delay, lag) && events != [] && Clock(events) <= other.checkedAt && other.InWindow()
    requires 0.0 <= delay && 0.0 <= lag
    requires var s := Run(events, ttl); s.pending == map[1 := t1] && Unexpired(s.rows, other.checkedAt) == map[]
    ensures Feasible(longer, ttl, delay, lag) && longer != [] && Clock(longer) == other.checkedAt
    ensures |longer| == |events| + 2 && longer[..|events|] == events && longer[|events|] == Check(2, other)
    ensures longer[|events| + 1].Claim?
    ensures var (s, s') := (Run(events, ttl), Run(longer, ttl));
            && s'.pending == map[1 := t1] && s'.rows == map[other.Receipt() := other.checkedAt + ttl]
            && s'.accepted == s.accepted + [Acceptance(other, other.checkedAt)]
  {
    var end := other.checkedAt;
    var s := Run(events, ttl);
    Extend(events, Check(2, other), ttl, delay, lag);
    var checked := events + [Check(2, other)];
    assert Run(checked, ttl) == s.(pending := map[1 := t1, 2 := other]);
    Extend(checked, Claim(2, end, end, true), ttl, delay, lag);
    longer := checked + [Claim(2, end, end, true)];
    assert Run(longer, ttl).pending == map[1 := t1];
    assert Run(longer, ttl).rows == map[other.Receipt() := end + ttl];
  }

  /**
   * The second claim reads the clock in time, but before it commits, the claim of another request
   * reads a later clock, and takes the expired receipt of the first away.
   */
  lemma ThreeClaims(t0: Ticket, t1: Ticket, other: Ticket, late: real, ttl: real, delay: real, lag: real)
    returns (events: seq<Event>)
    requires t0.InWindow() && t1.InWindow() && other.InWindow() && t0.checkedAt <= t1.checkedAt && 0.0 <= delay
    requires t1.checkedAt <= late <= t1.checkedAt + delay && late <= other.checkedAt <= late + lag
    requires t0.checkedAt + ttl < other.checkedAt && t0.Receipt() == t1.Receipt() != other.Receipt()
    ensures Feasible(events, ttl, delay, lag) && ChecksAmong(events, {t0, t1, other})
    ensures var accepted := Run(events, ttl).accepted;
            |accepted| == 3 && accepted[0].ticket == t0 && accepted[2].ticket == t1
  {
    var first := FirstClaim(t0, t1, ttl, delay, lag);
    var longer := Overtake(first, t1, other, ttl, delay, lag);
    var last := Claim(1, late, other.checkedAt, true);
    Extend(longer, last, ttl, delay, lag);
    events := longer + [last];
    forall i | 0 <= i < |events| && events[i].Check? ensures events[i].ticket in {t0, t1, other} {
      assert i < |first| ==> events[i] == first[i];
    }
  }

  lemma AmongAreIssued(site: Site, events: seq<Event>, tickets: set<Ticket>)
    requires ChecksAmong(events, tickets) && forall ticket | ticket in tickets :: Issues(site, ticket)
    ensures Issued(site, events)
  {
  }

  lemma AcceptedTwice(s: State, j: nat)
    requires 0 < j < |s.accepted| && s.accepted[0].ticket.SameEnvelope(s.accepted[j].ticket)
    ensures !AtMostOnce(s)
  {
  }

  lemma SignatureAcceptedTwice(site: Site, shared: bool, s: State, j: nat)
    requires 0 < j < |s.accepted| && s.accepted[0].ticket.Receipt() == s.accepted[j].ticket.Receipt()
    requires Under(site, shared, s.accepted[j].ticket)
    ensures !OncePerSignature(site, shared, s)
  {
  }

  /** Another request, with another signature, passes at the instant. */
  ghost predicate Bystander(site: Site, other: Ticket, id: ReceiptId, at: real) {
    Issues(site, other) && other.checkedAt == at && other.Receipt() != id
  }

  /**
   * A run of requests that pass which accepts one of them twice, when receipts die too early for
   * delay and lag. It takes another request only if claims take time to commit.
   */
  lemma ReplayWhenReceiptsDieEarly(site: Site, r: Request, x: real, other: Ticket, ttl: real, delay: real, lag: real)
    returns (events: seq<Event>)
    requires Sends(site, r, x) && 0.0 <= delay && 0.0 <= lag && ttl < PAST + FUTURE + delay + lag
    requires lag > 0.0 ==> Bystander(site, other, TicketAt(site, r, x, x).Receipt(), x + PAST + delay + lag)
    ensures Feasible(events, ttl, delay, lag) && Issued(site, events) && !AtMostOnce(Run(events, ttl))
    ensures var accepted := Run(events, ttl).accepted;
            exists j | 0 < j < |accepted| ::
              && accepted[0].ticket.SameEnvelope(accepted[j].ticket)
              && accepted[j].ticket.key == TicketAt(site, r, x, x).key
  {
    var t0, t1 := TicketAt(site, r, x, x - FUTURE), TicketAt(site, r, x, x + PAST);
    PassesInWindow(site, r, x, x - FUTURE);
    PassesInWindow(site, r, x, x + PAST);
    var late := x + PAST + delay;
    if ttl < PAST + FUTURE + delay {
      events := TwoClaims(t0, t1, late, ttl, delay, lag);
      AmongAreIssued(site, events, {t0, t1});
      AcceptedTwice(Run(events, ttl), 1);
    } else {
      IssuedInWindow(site, other);
      events := ThreeClaims(t0, t1, other, late, ttl, delay, lag);
      AmongAreIssued(site, events, {t0, t1, other});
      AcceptedTwice(Run(events, ttl), 2);
    }
  }

  // ----- the exact lifetimes

  /**
   * The exact requirement on the receipt lifetime, for every bound on delay and lag, over the runs of
   * requests that pass.
   */
  lemma AtMostOnceExactlyWhen(site: Site, r: Request, x: real, other: Ticket, ttl: real, delay: real, lag: real)
    requires Sends(site, r, x) && 0.0 <= delay && 0.0 <= lag
    requires lag > 0.0 ==> Bystander(site, other, TicketAt(site, r, x, x).Receipt(), x + PAST + delay + lag)
    ensures (forall events | Feasible(events, ttl, delay, lag) && Issued(site, events) :: AtMostOnce(Run(events, ttl)))
            <==> ttl >= PAST + FUTURE + delay + lag
  {
    if ttl >= PAST + FUTURE + delay + lag {
      forall events | Feasible(events, ttl, delay, lag) ensures AtMostOnce(Run(events, ttl)) {
        NoReplay(events, ttl, delay, lag);
      }
    } else {
      var events := ReplayWhenReceiptsDieEarly(site, r, x, other, ttl, delay, lag);
    }
  }

  /**
   * The lifetime in the code is exactly enough for claims that read the clock and commit at the instant
   * of their check.
   */
  lemma CodeLifetimeIsTight(site: Site, r: Request, x: real, other: Ticket, delay: real, lag: real)
    requires Sends(site, r, x) && 0.0 <= delay && 0.0 <= lag
    requires lag > 0.0 ==> Bystander(site, other, TicketAt(site, r, x, x).Receipt(), x + PAST + delay + lag)
    ensures (forall events | Feasible(events, RECEIPT_TTL, delay, lag) && Issued(site, events) ::
               AtMostOnce(Run(events, RECEIPT_TTL)))
            <==> delay == 0.0 && lag == 0.0
  {
    AtMostOnceExactlyWhen(site, r, x, other, RECEIPT_TTL, delay, lag);
  }

  // ----- one signature under a device key

  function UpToBar(m: string): string {
    if m == [] || m[0] == '|' then [] else [m[0]] + UpToBar(m[1..])
  }

  lemma {:induction false} UpToBarIs(t: string, x: string)
    requires '|' !in t
    ensures UpToBar(t + "|" + x) == t
  {
    if t != [] {
      assert (t + "|" + x)[1..] == t[1..] + "|" + x;
      UpToBarIs(t[1..], x);
    }
  }

  lemma SplitAtBar(t: string, x: string, t': string, x': string)
    requires t + "|" + x == t' + "|" + x' && '|' !in t && '|' !in t'
    ensures t == t' && x == x'
  {
    UpToBarIs(t, x);
    UpToBarIs(t', x');
    var m := t + "|" + x;
    assert x == m[|t| + 1..] && x' == m[|t'| + 1..];
  }

  /**
   * A device message determines device and timestamp, as neither can hold the separator, and of two
   * with the same purpose, or with purposes that do not hold it either, purpose and body.
   */
  lemma DeviceMessageBinds(d: string, t: string, p: string, b: string, d': string, t': string, p': string, b': string)
    requires DeviceMessage(d, t, p, b) == DeviceMessage(d', t', p', b')
    requires '|' !in d && '|' !in t && '|' !in d' && '|' !in t'
    ensures d == d' && t == t'
    ensures p == p' || ('|' !in p && '|' !in p') ==> p == p' && b == b'
  {
    var head := "DEVICEv1|";
    var (m, m') := (d + "|" + (t + "|" + (p + "|" + b)), d' + "|" + (t' + "|" + (p' + "|" + b')));
    assert DeviceMessage(d, t, p, b) == head + m && DeviceMessage(d', t', p', b') == head + m';
    assert m == (head + m)[|head|..] && m' == (head + m')[|head|..];
    SplitAtBar(d, t + "|" + (p + "|" + b), d', t' + "|" + (p' + "|" + b'));
    SplitAtBar(t, p + "|" + b, t', p' + "|" + b');
    if p == p' {
      assert b == (p + "|" + b)[|p| + 1..] && b' == (p' + "|" + b')[|p'| + 1..];
    } else if '|' !in p && '|' !in p' {
      SplitAtBar(p, b, p', b');
    }
  }

  /** The ticket was issued for this device message. */
  ghost predicate ForDevice(site: Site, ticket: Ticket, d: string, t: string, p: string, b: string) {
    && '|' !in d && '|' !in t && site.parse(t) == Finite(ticket.timestamp)
    && ticket.signature == Hmac(ticket.key, DeviceMessage(d, t, p, b))
  }

  lemma IssuedToDevice(site: Site, ticket: Ticket) returns (d: string, t: string, p: string, b: string)
    requires WellSet(site) && Issues(site, ticket) && ticket.key != site.settings.ingestKey
    ensures ForDevice(site, ticket, d, t, p, b)
  {
    if r :| FromIngest(site, ticket, r) {
      d, t, p, b := r.deviceId.value, r.timestamp, r.purpose, Concat(r.chunks);
    } else {
      var r, query :| FromConfig(site, ticket, r, query);
      d, t, p, b := r.deviceId.value, r.timestamp, "config", query;
    }
  }

  lemma DeviceSignatureFixesTimestamp(site: Site, a: Ticket, b: Ticket)
    requires WellSet(site) && Issues(site, a) && Issues(site, b)
    requires a.Receipt() == b.Receipt() && a.key != site.settings.ingestKey
    ensures a.timestamp == b.timestamp
  {
    var d, t, p, body := IssuedToDevice(site, a);
    var d', t', p', body' := IssuedToDevice(site, b);
    DeviceMessageBinds(d, t, p, body, d', t', p', body');
  }

  /** One signature under device keys stands for one device, one timestamp, one purpose and one body. */
  lemma DeviceSignatureCoversBody(site: Site, now: real, r: Request, now': real, r': Request)
    requires WellSet(site) && Registered(site, r) && Registered(site, r') && r.signature == r'.signature
    requires Authentic(site.settings, site.parse, now, r) && Authentic(site.settings, site.parse, now', r')
    requires r.deviceId.Some? && r'.deviceId.Some?
    ensures r.deviceId == r'.deviceId && r.timestamp == r'.timestamp
    ensures r.purpose == r'.purpose || ('|' !in r.purpose && '|' !in r'.purpose) ==>
              r.purpose == r'.purpose && Concat(r.chunks) == Concat(r'.chunks)
  {
    DeviceMessageBinds(r.deviceId.value, r.timestamp, r.purpose, Concat(r.chunks),
                       r'.deviceId.value, r'.timestamp, r'.purpose, Concat(r'.chunks));
  }

  /** And for one query. */
  lemma DeviceSignatureCoversQuery(site: Site, now: real, r: Request, query: string, now': real, r': Request,
                                   query': string)
    requires WellSet(site) && Registered(site, r) && Registered(site, r') && r.signature == r'.signature
    requires HeadersPresent(r) && ConfigAuthentic(site.settings, site.parse, now, r, query)
    requires HeadersPresent(r') && ConfigAuthentic(site.settings, site.parse, now', r', query')
    requires r.deviceId.Some? && r'.deviceId.Some?
    ensures r.deviceId == r'.deviceId && r.timestamp == r'.timestamp && query == query'
  {
    DeviceMessageBinds(r.deviceId.value, r.timestamp, "config", query,
                       r'.deviceId.value, r'.timestamp, "config", query');
  }

  /** What a device signed for its configuration passes for nothing else, and the other way round. */
  lemma PurposesAreApart(site: Site, now: real, r: Request, now': real, r': Request, query: string)
    requires WellSet(site) && Registered(site, r) && Registered(site, r')
    requires Authentic(site.settings, site.parse, now, r)
    requires HeadersPresent(r') && ConfigAuthentic(site.settings, site.parse, now', r', query)
    requires r.deviceId.Some? && r'.deviceId.Some? && '|' !in r.purpose && r.purpose != "config"
    ensures r.signature != r'.signature
  {
    var config := "config";
    assert '|' !in config;
    if r.signature == r'.signature {
      DeviceMessageBinds(r.deviceId.value, r.timestamp, r.purpose, Concat(r.chunks),
                         r'.deviceId.value, r'.timestamp, config, query);
    }
  }

  /** A request whose headers are in order, to a server that is set up, with a body that is not too long. */
  predicate WellFormed(site: Site, r: Request, x: real) {
    && site.settings.ingestKey != "" && !site.settings.insecureDefault
    && r.timestamp != "" && site.parse(r.timestamp) == Finite(x)
    && (r.contentLength.Absent? || (r.contentLength.Length? && 0 <= r.contentLength.bytes <= 8388608))
    && |Concat(r.chunks)| <= 8388608
  }

  /**
   * Written out, what such a request must have signed, and when: under the key of its device, the
   * device, the timestamp, the purpose and the body, no later than five minutes before now and no
   * earlier than one minute after.
   */
  lemma DevicePassesExactlyWhen(site: Site, r: Request, d: string, key: string, x: real, now: real)
    requires WellFormed(site, r, x) && r.deviceId == Some(d) && r.deviceKey == Some(key)
    ensures Authentic(site.settings, site.parse, now, r) <==>
            && r.signature
               == Some(Hmac(key, "DEVICEv1|" + d + "|" + r.timestamp + "|" + r.purpose + "|" + Concat(r.chunks)))
            && -60.0 <= now - x <= 300.0
  {
    assert BODY_LIMIT == 8388608;
  }

  /** Without a device, the timestamp and the body, under the shared key. */
  lemma SharedPassesExactlyWhen(site: Site, r: Request, x: real, now: real)
    requires WellFormed(site, r, x) && r.deviceId == None
    ensures Authentic(site.settings, site.parse, now, r) <==>
            && r.signature == Some(Hmac(site.settings.ingestKey, r.timestamp + Concat(r.chunks)))
            && -60.0 <= now - x <= 300.0
  {
    assert BODY_LIMIT == 8388608;
  }

  /** What is wrong with the request, each thing by itself. */
  ghost predicate Defect(settings: Settings, parse: string -> Timestamp, now: real, r: Request, reason: Reason) {
    match reason
    case NotConfigured => settings.ingestKey == "" || settings.insecureDefault
    case MissingHeaders => r.signature == None || r.signature == Some(Forged("")) || r.timestamp == ""
    case BadTimestamp => forall x :: parse(r.timestamp) != Finite(x)
    case TimestampFuture => exists x :: parse(r.timestamp) == Finite(x) && x > now + 60.0
    case TimestampExpired => exists x :: parse(r.timestamp) == Finite(x) && x < now - 300.0
    case BadContentLength => r.contentLength == Malformed || exists n :: n < 0 && r.contentLength == Length(n)
    case BodyTooLarge =>
      |Concat(r.chunks)| > 8388608 || exists n :: n > 8388608 && r.contentLength == Length(n)
    case UnknownDevice => r.deviceId != None && r.deviceKey == None
    case _ => false
  }

  /** The order in which they are reported, and the status of each. */
  const DEFECTS: seq<(Reason, int)> :=
    [(NotConfigured, 503), (MissingHeaders, 401), (BadTimestamp, 401), (TimestampFuture, 400),
     (TimestampExpired, 400), (BadContentLength, 400), (BodyTooLarge, 413), (UnknownDevice, 401)]

  /** The first defect is reported, and of a request without any, only that its signature is not right. */
  lemma FirstDefectIsReported(settings: Settings, parse: string -> Timestamp, now: real, r: Request, k: nat)
    requires k <= |DEFECTS| && forall j | 0 <= j < k :: !Defect(settings, parse, now, r, DEFECTS[j].0)
    ensures k < |DEFECTS| && Defect(settings, parse, now, r, DEFECTS[k].0) ==>
              Verdict(settings, parse, now, r) == Some(HttpError(DEFECTS[k].1, DEFECTS[k].0))
    ensures k == |DEFECTS| ==>
              Verdict(settings, parse, now, r)
              == if Authentic(settings, parse, now, r) then None else Some(HttpError(401, SignatureMismatch))
  {
    assert |DEFECTS| == 8 && BODY_LIMIT == 8388608;
    DefectsInOrder(k);
  }

  /** The same of requests for the configuration: redacted without key or headers, else timestamp, window and device. */
  lemma FirstConfigDefectIsReported(site: Site, now: real, r: Request, query: string)
    ensures var bad := (reason: Reason) => Defect(site.settings, site.parse, now, r, reason);
            && (SignedForConfig(site.settings, r) <==> !bad(NotConfigured) && !bad(MissingHeaders))
            && (SignedForConfig(site.settings, r) ==>
                  ConfigVerdict(site.settings, site.parse, now, r, query) ==
                    if bad(BadTimestamp) then Some(HttpError(401, BadTimestamp))
                    else if bad(TimestampFuture) || bad(TimestampExpired) then Some(HttpError(400, OutsideWindow))
                    else if bad(UnknownDevice) then Some(HttpError(401, UnknownDevice))
                    else if ConfigAuthentic(site.settings, site.parse, now, r, query) then None
                    else Some(HttpError(401, SignatureMismatch)))
  {
  }

  /** One claim: what it is refused with, that a refusal changes nothing, and what a grant leaves in the table. */
  lemma ClaimMeans(rows: Receipts, id: ReceiptId, now: real, ttl: real, available: bool, rows': Receipts,
                   refused: Option<HttpError>)
    requires (rows', refused) == ClaimStep(rows, id, now, ttl, available)
    ensures refused == Some(HttpError(503, StorageUnavailable)) <==> !available
    ensures refused == Some(HttpError(409, ReplayedRequest)) <==> available && id in rows && now <= rows[id]
    ensures refused.Some? ==> rows' == rows && (refused.value.status == 503 || refused.value.status == 409)
    ensures refused.None? ==> forall other ::
              && (other in rows' <==> other == id || (other in rows && now <= rows[other]))
              && (other in rows' ==> rows'[other] == if other == id then now + ttl else rows[other])
  {
  }

  lemma DefectsInOrder(k: nat)
    requires k <= 8
    ensures k > 0 ==> DEFECTS[0].0 == NotConfigured
    ensures k > 1 ==> DEFECTS[1].0 == MissingHeaders
    ensures k > 2 ==> DEFECTS[2].0 == BadTimestamp
    ensures k > 3 ==> DEFECTS[3].0 == TimestampFuture
    ensures k > 4 ==> DEFECTS[4].0 == TimestampExpired
    ensures k > 5 ==> DEFECTS[5].0 == BadContentLength
    ensures k > 6 ==> DEFECTS[6].0 == BodyTooLarge
    ensures k > 7 ==> DEFECTS[7].0 == UnknownDevice
  {
  }

  /** A request for the configuration signs the query. */
  lemma ConfigPassesExactlyWhen(site: Site, r: Request, query: string, x: real, now: real)
    requires HeadersPresent(r) && site.parse(r.timestamp) == Finite(x)
    requires r.deviceId.Some? ==> r.deviceKey.Some?
    ensures ConfigAuthentic(site.settings, site.parse, now, r, query) <==>
            && -60.0 <= now - x <= 300.0
            && r.signature == Some(
                 if r.deviceId.None? then Hmac(site.settings.ingestKey, r.timestamp + "GET:" + query)
                 else Hmac(r.deviceKey.value,
                           "DEVICEv1|" + r.deviceId.value + "|" + r.timestamp + "|" + "config" + "|" + query))
  {
  }

  lemma CheckedIsIssued(site: Site, events: seq<Event>, ticket: Ticket)
    requires Issued(site, events) && Checked(events, ticket)
    ensures Issues(site, ticket)
  {
  }

  lemma DeviceSignaturesDoNotShift(site: Site, events: seq<Event>)
    requires WellSet(site) && Issued(site, events)
    ensures ShiftedBy(site, false, events, 0.0)
  {
    forall a, b | Checked(events, a) && Checked(events, b) && a.Receipt() == b.Receipt() && Under(site, false, b)
      ensures b.timestamp - a.timestamp <= 0.0
    {
      CheckedIsIssued(site, events, a);
      CheckedIsIssued(site, events, b);
      DeviceSignatureFixesTimestamp(site, a, b);
    }
  }

  /** For signatures under device keys the requirement is that for envelopes, whatever timestamps they come with. */
  lemma OncePerDeviceSignatureExactlyWhen(site: Site, r: Request, x: real, other: Ticket, ttl: real, delay: real,
                                          lag: real)
    requires WellSet(site) && Sends(site, r, x) && r.deviceId.Some? && 0.0 <= delay && 0.0 <= lag
    requires lag > 0.0 ==> Bystander(site, other, TicketAt(site, r, x, x).Receipt(), x + PAST + delay + lag)
    ensures (forall events | Feasible(events, ttl, delay, lag) && Issued(site, events) ::
               OncePerSignature(site, false, Run(events, ttl)))
            <==> ttl >= PAST + FUTURE + delay + lag
  {
    if ttl >= PAST + FUTURE + delay + lag {
      forall events | Feasible(events, ttl, delay, lag) && Issued(site, events)
        ensures OncePerSignature(site, false, Run(events, ttl))
      {
        DeviceSignaturesDoNotShift(site, events);
        NoSignatureTwice(site, false, events, ttl, delay, lag, 0.0);
      }
    } else {
      var events := ReplayWhenReceiptsDieEarly(site, r, x, other, ttl, delay, lag);
      var accepted := Run(events, ttl).accepted;
      var j :| 0 < j < |accepted| && accepted[0].ticket.SameEnvelope(accepted[j].ticket)
               && accepted[j].ticket.key == TicketAt(site, r, x, x).key;
      SignatureAcceptedTwice(site, false, Run(events, ttl), j);
    }
  }

  // ----- one signature under the shared key

  /** What may stand behind the timestamp: a body within the limit, or a signed query. */
  predicate Presentable(rest: string) {
    |rest| <= BODY_LIMIT || "GET:" <= rest
  }

  /** Some split of the message into timestamp and rest reads as the time `x`. */
  ghost predicate ReadsAs(parse: string -> Timestamp, message: string, x: real) {
    exists n | 0 < n <= |message| :: parse(message[..n]) == Finite(x) && Presentable(message[n..])
  }

  predicate Ready(settings: Settings) {
    settings.ingestKey != "" && !settings.insecureDefault
  }

  function SharedTicket(site: Site, message: string, x: real, now: real): Ticket {
    TicketFor((site.settings.ingestKey, message), x, now)
  }

  /** A request under the shared key with this timestamp and this body. */
  function SharedRequest(site: Site, timestamp: string, body: string): Request {
    Request(Some(Hmac(site.settings.ingestKey, timestamp + body)), timestamp, Absent, [body], None, None, "ingest")
  }

  lemma SharedRequestPasses(site: Site, timestamp: string, body: string, x: real, now: real)
    requires Ready(site.settings) && timestamp != "" && site.parse(timestamp) == Finite(x) && |body| <= BODY_LIMIT
    requires -FUTURE <= now - x <= PAST
    ensures var r := SharedRequest(site, timestamp, body);
            && Authentic(site.settings, site.parse, now, r)
            && FromIngest(site, SharedTicket(site, timestamp + body, x, now), r)
  {
    assert [body][..0] == [] && Concat([]) == "" && "" + body == body;
    assert Concat([body]) == body;
  }

  lemma SharedQueryPasses(site: Site, timestamp: string, query: string, x: real, now: real)
    requires Ready(site.settings) && timestamp != "" && site.parse(timestamp) == Finite(x) && -FUTURE <= now - x <= PAST
    ensures Issues(site, SharedTicket(site, timestamp + "GET:" + query, x, now))
  {
    var signature := Hmac(site.settings.ingestKey, timestamp + "GET:" + query);
    var r := Request(Some(signature), timestamp, Absent, [], None, None, "");
    assert FromConfig(site, SharedTicket(site, timestamp + "GET:" + query, x, now), r, query);
  }

  /** Every reading of a message can be presented while its time is in the window. */
  lemma ReadingPasses(site: Site, message: string, x: real, now: real)
    requires Ready(site.settings) && ReadsAs(site.parse, message, x) && -FUTURE <= now - x <= PAST
    ensures Issues(site, SharedTicket(site, message, x, now)) && SharedTicket(site, message, x, now).InWindow()
  {
    var n :| 0 < n <= |message| && site.parse(message[..n]) == Finite(x) && Presentable(message[n..]);
    var t, rest := message[..n], message[n..];
    assert message == t + rest;
    if |rest| <= BODY_LIMIT {
      SharedRequestPasses(site, t, rest, x, now);
    } else {
      SharedQueryPasses(site, t, rest[4..], x, now);
      assert t + "GET:" + rest[4..] == message;
    }
  }

  /** And nothing else can. */
  lemma IssuedIsReading(site: Site, ticket: Ticket)
    requires WellSet(site) && Issues(site, ticket) && ticket.key == site.settings.ingestKey
    ensures ticket.signature.Hmac? && ReadsAs(site.parse, ticket.signature.message, ticket.timestamp)
  {
    if r :| FromIngest(site, ticket, r) {
      SplitReads(site.parse, r.timestamp, Concat(r.chunks), ticket.timestamp);
    } else {
      var r, query :| FromConfig(site, ticket, r, query);
      assert "GET:" <= "GET:" + query;
      SplitReads(site.parse, r.timestamp, "GET:" + query, ticket.timestamp);
      assert r.timestamp + ("GET:" + query) == r.timestamp + "GET:" + query;
    }
  }

  lemma SplitReads(parse: string -> Timestamp, t: string, rest: string, x: real)
    requires t != "" && parse(t) == Finite(x) && Presentable(rest)
    ensures ReadsAs(parse, t + rest, x)
  {
    var message := t + rest;
    assert message[..|t|] == t && message[|t|..] == rest;
  }

  /** The lifetime covers the shift between any two readings of one message. */
  ghost predicate CoversReadings(parse: string -> Timestamp, ttl: real, delay: real) {
    forall message, x, y | ReadsAs(parse, message, x) && ReadsAs(parse, message, y) ::
      ttl >= PAST + FUTURE + delay + (y - x)
  }

  lemma SharedSignaturesShift(site: Site, events: seq<Event>, ttl: real, delay: real)
    requires WellSet(site) && Issued(site, events) && CoversReadings(site.parse, ttl, delay)
    ensures ShiftedBy(site, true, events, ttl - PAST - FUTURE - delay)
  {
    forall a, b | Checked(events, a) && Checked(events, b) && a.Receipt() == b.Receipt() && Under(site, true, b)
      ensures b.timestamp - a.timestamp <= ttl - PAST - FUTURE - delay
    {
      CheckedIsIssued(site, events, a);
      CheckedIsIssued(site, events, b);
      IssuedIsReading(site, a);
      IssuedIsReading(site, b);
    }
  }

  /** Two readings of one message are both accepted, when the receipt of the earlier dies too early. */
  lemma ReadingsAcceptedTwice(site: Site, message: string, x: real, y: real, ttl: real, delay: real)
    returns (events: seq<Event>)
    requires Ready(site.settings) && ReadsAs(site.parse, message, x) && ReadsAs(site.parse, message, y)
    requires x <= y && 0.0 <= delay && ttl < PAST + FUTURE + delay + (y - x)
    ensures Feasible(events, ttl, delay, 0.0) && Issued(site, events) && !OncePerSignature(site, true, Run(events, ttl))
    ensures forall i | 0 <= i < |events| && events[i].Check? :: x - FUTURE <= events[i].ticket.checkedAt <= y + PAST
  {
    var t0, t1 := SharedTicket(site, message, x, x - FUTURE), SharedTicket(site, message, y, y + PAST);
    ReadingPasses(site, message, x, x - FUTURE);
    ReadingPasses(site, message, y, y + PAST);
    events := TwoClaims(t0, t1, y + PAST + delay, ttl, delay, 0.0);
    AmongAreIssued(site, events, {t0, t1});
    SignatureAcceptedTwice(site, true, Run(events, ttl), 1);
  }

  /**
   * For signatures under the shared key, which leaves open where the timestamp ends, the lifetime has
   * to cover the shift between any two readings of one message as well, and no more.
   */
  lemma OncePerSharedSignatureExactlyWhen(site: Site, ttl: real, delay: real)
    requires WellSet(site) && Ready(site.settings) && 0.0 <= delay
    ensures (forall events | Feasible(events, ttl, delay, 0.0) && Issued(site, events) ::
               OncePerSignature(site, true, Run(events, ttl)))
            <==> CoversReadings(site.parse, ttl, delay)
  {
    if CoversReadings(site.parse, ttl, delay) {
      forall events | Feasible(events, ttl, delay, 0.0) && Issued(site, events)
        ensures OncePerSignature(site, true, Run(events, ttl))
      {
        SharedSignaturesShift(site, events, ttl, delay);
        NoSignatureTwice(site, true, events, ttl, delay, 0.0, ttl - PAST - FUTURE - delay);
      }
    } else {
      var message, x, y :| ReadsAs(site.parse, message, x) && ReadsAs(site.parse, message, y)
                           && ttl < PAST + FUTURE + delay + (y - x);
      var events := ReadingsAcceptedTwice(site, message, if x <= y then x else y, y, ttl, delay);
    }
  }

  /**
   * The code's lifetime is too short by any digits that can move from the body into the timestamp:
   * two authentic requests under one signature, both accepted although claims come at once.
   */
  lemma MovedDigitsAcceptedTwice(site: Site, t: string, digits: string, body: string, x: real, y: real)
    returns (r0: Request, r1: Request, events: seq<Event>)
    requires Ready(site.settings) && t != "" && site.parse(t) == Finite(x) && site.parse(t + digits) == Finite(y)
    requires x < y && |digits + body| <= BODY_LIMIT
    ensures r0.timestamp == t && r1.timestamp == t + digits && r0.signature == r1.signature
    ensures Authentic(site.settings, site.parse, x - FUTURE, r0) && Authentic(site.settings, site.parse, y + PAST, r1)
    ensures |events| == 4 && events[0].Check? && events[2].Check?
    ensures FromIngest(site, events[0].ticket, r0) && FromIngest(site, events[2].ticket, r1)
    ensures Feasible(events, RECEIPT_TTL, 0.0, 0.0) && Issued(site, events)
    ensures !OncePerSignature(site, true, Run(events, RECEIPT_TTL)) && |Run(events, RECEIPT_TTL).accepted| == 2
  {
    r0, r1 := SharedRequest(site, t, digits + body), SharedRequest(site, t + digits, body);
    assert t + digits + body == t + (digits + body);
    SharedRequestPasses(site, t, digits + body, x, x - FUTURE);
    SharedRequestPasses(site, t + digits, body, y, y + PAST);
    var t0 := SharedTicket(site, t + (digits + body), x, x - FUTURE);
    var t1 := SharedTicket(site, t + digits + body, y, y + PAST);
    events := TwoClaims(t0, t1, y + PAST, RECEIPT_TTL, 0.0, 0.0);
    AmongAreIssued(site, events, {t0, t1});
    SignatureAcceptedTwice(site, true, Run(events, RECEIPT_TTL), 1);
  }
}
