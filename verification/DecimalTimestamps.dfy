/** Timestamps in plain decimal notation, and the receipt lifetime that signatures under the shared key need. */
module DecimalTimestamps {
  // A number is digits, and then possibly a point and more digits. While timestamps have ten digits in
  // front of the point (from September 2001 to November 2286), two readings of one signed message
  // differ only behind it, by less than a second.

  import opened ReplayProtection

  predicate IsDigit(c: char) { '0' <= c <= '9' }

  predicate AllDigits(s: string) { forall i | 0 <= i < |s| :: IsDigit(s[i]) }

  function Digit(c: char): (d: int)
    requires IsDigit(c)
    ensures 0 <= d <= 9
  {
    c as int - '0' as int
  }

  function Whole(s: string): (n: nat)
    requires AllDigits(s)
  {
    if s == [] then 0 else 10 * Whole(s[..|s| - 1]) + Digit(s[|s| - 1])
  }

  function Fraction(s: string): (x: real)
    requires AllDigits(s)
    ensures 0.0 <= x < 1.0
  {
    if s == [] then 0.0 else (Digit(s[0]) as real + Fraction(s[1..])) / 10.0
  }

  /** The number of digits in front of the first other character. */
  function LeadingDigits(s: string): (n: nat)
    ensures n <= |s| && AllDigits(s[..n]) && (n < |s| ==> !IsDigit(s[n]))
  {
    if s == [] || !IsDigit(s[0]) then 0
    else
      var n := LeadingDigits(s[1..]);
      assert s[..n + 1] == [s[0]] + s[1..][..n];
      n + 1
  }

  predicate IsDecimal(s: string) {
    var n := LeadingDigits(s);
    n > 0 && (n == |s| || (s[n] == '.' && AllDigits(s[n + 1..])))
  }

  function Value(s: string): real
    requires IsDecimal(s)
  {
    var n := LeadingDigits(s);
    Whole(s[..n]) as real + if n == |s| then 0.0 else Fraction(s[n + 1..])
  }

  function Read(s: string): Timestamp {
    if IsDecimal(s) then Finite(Value(s)) else NotANumber
  }

  /** 1, 0.1, 0.01, ... */
  function Tenth(n: nat): (x: real)
    ensures 0.0 < x <= 1.0
  {
    if n == 0 then 1.0 else Tenth(n - 1) / 10.0
  }

  lemma {:induction false} FractionBelow(s: string)
    requires AllDigits(s)
    ensures Fraction(s) <= 1.0 - Tenth(|s|)
  {
    if s != [] {
      FractionBelow(s[1..]);
    }
  }

  /** More digits behind the point add less than one unit. */
  lemma {:induction false} FractionGrows(s: string, more: string)
    requires AllDigits(s) && AllDigits(more) && AllDigits(s + more)
    ensures Fraction(s) <= Fraction(s + more) <= Fraction(s) + 1.0 - Tenth(|more|)
  {
    if s == [] {
      assert s + more == more;
      FractionBelow(more);
    } else {
      assert (s + more)[1..] == s[1..] + more;
      FractionGrows(s[1..], more);
    }
  }

  lemma {:induction false} WholeGrows(s: string, more: string)
    requires AllDigits(s) && AllDigits(s + more) && more != []
    ensures Whole(s + more) >= 10 * Whole(s)
  {
    var n := |s + more| - 1;
    if |more| == 1 {
      assert (s + more)[..n] == s;
    } else {
      assert (s + more)[..n] == s + more[..|more| - 1];
      WholeGrows(s, more[..|more| - 1]);
    }
  }

  predicate TenDigits(x: real) { 1_000_000_000.0 <= x < 10_000_000_000.0 }

  /** A decimal is what stands in front of the point and what stands behind it. */
  lemma ValueOf(s: string, whole: string, fraction: string)
    requires AllDigits(whole) && whole != [] && AllDigits(fraction)
    requires (s == whole + "." + fraction || (s == whole && fraction == []))
    ensures IsDecimal(s) && LeadingDigits(s) == |whole| && Value(s) == Whole(whole) as real + Fraction(fraction)
  {
    LeadingDigitsOf(s, |whole|);
    assert s[..|whole|] == whole;
    assert |whole| < |s| ==> s[|whole| + 1..] == fraction;
  }

  lemma {:induction false} LeadingDigitsOf(s: string, n: nat)
    requires n <= |s| && (forall i | 0 <= i < n :: IsDigit(s[i])) && (n < |s| ==> !IsDigit(s[n]))
    ensures LeadingDigits(s) == n
  {
    if n > 0 {
      LeadingDigitsOf(s[1..], n - 1);
    }
  }

  /** The parts of a decimal; there is a point unless it ends with the whole part. */
  lemma Parts(s: string) returns (whole: string, fraction: string)
    requires IsDecimal(s)
    ensures AllDigits(whole) && whole != [] && AllDigits(fraction)
    ensures whole <= s && (if |whole| < |s| then s == whole + "." + fraction else s == whole && fraction == [])
    ensures Value(s) == Whole(whole) as real + Fraction(fraction)
  {
    var n := LeadingDigits(s);
    whole, fraction := s[..n], if n == |s| then [] else s[n + 1..];
  }

  lemma DigitAt(whole: string, fraction: string, s: string, i: nat)
    requires AllDigits(whole) && AllDigits(fraction) && s == whole + "." + fraction && i < |s|
    ensures IsDigit(s[i]) <==> i != |whole|
  {
    assert i > |whole| ==> s[i] == fraction[i - |whole| - 1];
  }

  /** Both have a point: it is the same one. */
  lemma SamePoint(p: string, q: string, whole: string, f: string, whole': string, f': string)
    requires p <= q && p == whole + "." + f && q == whole' + "." + f'
    requires AllDigits(whole) && AllDigits(f) && AllDigits(whole') && AllDigits(f')
    ensures whole == whole' && |f| <= |f'| && |f'| - |f| == |q| - |p|
    ensures Fraction(f) <= Fraction(f') <= Fraction(f) + 1.0 - Tenth(|f'| - |f|)
  {
    DigitAt(whole, f, p, |whole|);
    DigitAt(whole', f', q, |whole|);
    assert whole == p[..|whole|] == q[..|whole|] == whole';
    assert f == p[|whole| + 1..] && f' == q[|whole| + 1..] && f == f'[..|f|];
    assert f' == f + f'[|f|..];
    FractionGrows(f, f'[|f|..]);
  }

  /** Two decimals of which one starts with the other, both with ten digits in front of the point. */
  lemma PrefixIsClose(p: string, q: string) returns (n: nat)
    requires p <= q && IsDecimal(p) && IsDecimal(q) && TenDigits(Value(p)) && TenDigits(Value(q))
    ensures n <= |q| - |p| && Value(q) - Value(p) <= 1.0 - Tenth(n)
  {
    var whole, f := Parts(p);
    var whole', f' := Parts(q);
    n := 0;
    if |whole| < |p| {
      if |whole'| < |q| {
        SamePoint(p, q, whole, f, whole', f');
        n := |f'| - |f|;
      } else {
        DigitAt(whole, f, p, |whole|);
      }
    } else if |whole'| > |p| {
      assert whole' == p + whole'[|p|..];
      WholeGrows(p, whole'[|p|..]);
    } else {
      WholeIsPrefix(p, q, whole', f');
      n := |f'|;
      FractionBelow(f');
    }
  }

  lemma WholeIsPrefix(p: string, q: string, whole: string, f: string)
    requires p <= q && AllDigits(p) && AllDigits(whole) && AllDigits(f) && |whole| <= |p|
    requires if |whole| < |q| then q == whole + "." + f else q == whole && f == []
    ensures whole == p && |f| <= |q| - |p|
  {
    if |whole| < |p| {
      DigitAt(whole, f, q, |whole|);
    }
  }

  // ----- readings of one message

  lemma NoLetterInDecimal(s: string, i: nat)
    requires IsDecimal(s) && i < |s|
    ensures IsDigit(s[i]) || s[i] == '.'
  {
    var whole, f := Parts(s);
    if |whole| < |s| {
      DigitAt(whole, f, s, i);
    }
  }

  /** The text behind a timestamp that could have gone on is no query, so it fits into a body. */
  lemma RestIsBody(message: string, i: nat, j: nat)
    requires i < j <= |message| && IsDecimal(message[..j]) && Presentable(message[i..])
    ensures |message| - i <= BODY_LIMIT
  {
    NoLetterInDecimal(message[..j], i);
    assert message[i..][0] == message[..j][i];
  }

  /** Two readings of one message while timestamps have ten digits. */
  lemma ReadingsAreClose(message: string, x: real, y: real) returns (n: nat)
    requires ReadsAs(Read, message, x) && ReadsAs(Read, message, y) && TenDigits(x) && TenDigits(y)
    ensures n <= BODY_LIMIT && y - x <= 1.0 - Tenth(n)
  {
    var i :| 0 < i <= |message| && Read(message[..i]) == Finite(x) && Presentable(message[i..]);
    var j :| 0 < j <= |message| && Read(message[..j]) == Finite(y) && Presentable(message[j..]);
    n := 0;
    if i < j {
      assert message[..i] <= message[..j];
      RestIsBody(message, i, j);
      n := PrefixIsClose(message[..i], message[..j]);
    } else {
      assert message[..j] <= message[..i];
      PrefixIsSmaller(message[..j], message[..i]);
    }
  }

  lemma PrefixIsSmaller(p: string, q: string)
    requires p <= q && IsDecimal(p) && IsDecimal(q)
    ensures Value(p) <= Value(q)
  {
    var whole, f := Parts(p);
    var whole', f' := Parts(q);
    if |whole| < |p| {
      if |whole'| < |q| {
        SamePoint(p, q, whole, f, whole', f');
      } else {
        DigitAt(whole, f, p, |whole|);
      }
    } else if |whole'| > |p| {
      assert whole' == p + whole'[|p|..];
      WholeGrows(p, whole'[|p|..]);
    } else {
      WholeIsPrefix(p, q, whole', f');
    }
  }
  // ----- the exact lifetime

  /** Whatever passes a check then has a timestamp of ten digits in front of the point. */
  ghost predicate TenDigitTimes(events: seq<Event>) {
    forall i | 0 <= i < |events| && events[i].Check? ::
      1_000_000_300.0 <= events[i].ticket.checkedAt < 9_999_999_940.0
  }

  lemma CheckedHasTenDigits(site: Site, events: seq<Event>, ticket: Ticket)
    requires Issued(site, events) && TenDigitTimes(events) && Checked(events, ticket)
    ensures Issues(site, ticket) && TenDigits(ticket.timestamp)
  {
    CheckedIsIssued(site, events, ticket);
    IssuedInWindow(site, ticket);
  }

  ghost predicate KeysApart(settings: Settings, keyOf: string -> Option<string>) {
    forall d | keyOf(d).Some? :: '|' !in d && keyOf(d).value != settings.ingestKey
  }

  lemma DecimalsAreWellSet(settings: Settings, keyOf: string -> Option<string>)
    requires KeysApart(settings, keyOf)
    ensures WellSet(Site(settings, Read, keyOf))
  {
    forall s: string | Read(s).Finite? ensures '|' !in s {
      forall i | 0 <= i < |s| ensures s[i] != '|' {
        NoLetterInDecimal(s, i);
      }
    }
  }

  /** Lifetimes that cover every shift behind the point. */
  ghost predicate CoversDigits(ttl: real, delay: real) {
    forall n: nat | n <= BODY_LIMIT :: ttl >= PAST + FUTURE + delay + 1.0 - Tenth(n)
  }

  lemma DecimalSignaturesShift(site: Site, events: seq<Event>, ttl: real, delay: real, a: Ticket, b: Ticket)
    requires WellSet(site) && site.parse == Read && Issued(site, events) && TenDigitTimes(events)
    requires CoversDigits(ttl, delay)
    requires Checked(events, a) && Checked(events, b) && a.Receipt() == b.Receipt() && Under(site, true, b)
    ensures b.timestamp - a.timestamp <= ttl - PAST - FUTURE - delay
  {
    CheckedHasTenDigits(site, events, a);
    CheckedHasTenDigits(site, events, b);
    IssuedIsReading(site, a);
    IssuedIsReading(site, b);
    var n := ReadingsAreClose(a.signature.message, a.timestamp, b.timestamp);
  }

  function Nines(n: nat): (s: string)
    ensures |s| == n && AllDigits(s)
  {
    if n == 0 then "" else "9" + Nines(n - 1)
  }

  lemma {:induction false} FractionOfNines(n: nat)
    ensures Fraction(Nines(n)) == 1.0 - Tenth(n)
  {
    if n > 0 {
      FractionOfNines(n - 1);
      assert Nines(n)[1..] == Nines(n - 1);
    }
  }

  lemma TimesTen(s: string, s': string)
    requires AllDigits(s) && s' == s + "0"
    ensures AllDigits(s') && Whole(s') == 10 * Whole(s)
  {
    assert s'[..|s|] == s;
  }

  lemma Thousandfold(s: string)
    requires AllDigits(s)
    ensures AllDigits(s + "000") && Whole(s + "000") == 1000 * Whole(s)
  {
    var (s1, s2, s3) := (s + "0", s + "00", s + "000");
    TimesTen(s, s1);
    TimesTen(s1, s2);
    TimesTen(s2, s3);
  }

  lemma FiveBillion(w: string)
    requires w == "5000000000"
    ensures AllDigits(w) && |w| == 10 && Whole(w) == 5_000_000_000
  {
    var five := ['5'];
    assert five[..0] == [] && Whole(five) == 5;
    Thousandfold(five);
    Thousandfold(five + "000");
    Thousandfold(five + "000" + "000");
    assert w == five + "000" + "000" + "000";
  }

  /** The same message with the nines read as part of the body and as part of the timestamp. */
  lemma NinesReadTwice(w: string, n: nat, message: string)
    requires w == "5000000000" && n <= BODY_LIMIT && message == w + "." + Nines(n)
    ensures ReadsAs(Read, message, 5_000_000_000.0) && ReadsAs(Read, message, 5_000_000_001.0 - Tenth(n))
  {
    var t := w + ".";
    FiveBillion(w);
    FractionOfNines(n);
    assert t == w + "." + [];
    ValueOf(t, w, []);
    ValueOf(message, w, Nines(n));
    SplitReads(Read, t, Nines(n), 5_000_000_000.0);
    SplitReads(Read, message, [], 5_000_000_001.0 - Tenth(n));
    assert message + [] == message;
  }

  /**
   * With plain decimals, signatures under the shared key are accepted at most once exactly when
   * receipts live a second longer than envelopes need, up to the digits that fit into a body. So 361 s
   * and the delay are enough, and the 360 s of the code are not.
   */
  lemma OncePerSignatureExactlyWhen(settings: Settings, keyOf: string -> Option<string>, ttl: real, delay: real)
    requires Ready(settings) && KeysApart(settings, keyOf) && 0.0 <= delay
    ensures var site := Site(settings, Read, keyOf);
            (forall events | Feasible(events, ttl, delay, 0.0) && Issued(site, events) && TenDigitTimes(events) ::
               OncePerSignature(site, true, Run(events, ttl)))
            <==> forall n: nat | n <= BODY_LIMIT :: ttl >= PAST + FUTURE + delay + 1.0 - Tenth(n)
  {
    var site := Site(settings, Read, keyOf);
    DecimalsAreWellSet(settings, keyOf);
    if CoversDigits(ttl, delay) {
      forall events | Feasible(events, ttl, delay, 0.0) && Issued(site, events) && TenDigitTimes(events)
        ensures OncePerSignature(site, true, Run(events, ttl))
      {
        EnoughForDigits(site, events, ttl, delay);
      }
    } else {
      var n: nat :| n <= BODY_LIMIT && ttl < PAST + FUTURE + delay + 1.0 - Tenth(n);
      var events := NinesAcceptedTwice(site, ttl, delay, n);
    }
  }

  lemma EnoughForDigits(site: Site, events: seq<Event>, ttl: real, delay: real)
    requires WellSet(site) && site.parse == Read && CoversDigits(ttl, delay)
    requires Feasible(events, ttl, delay, 0.0) && Issued(site, events) && TenDigitTimes(events)
    ensures OncePerSignature(site, true, Run(events, ttl))
  {
    var shift := ttl - PAST - FUTURE - delay;
    forall a, b | Checked(events, a) && Checked(events, b) && a.Receipt() == b.Receipt() && Under(site, true, b)
      ensures b.timestamp - a.timestamp <= shift
    {
      DecimalSignaturesShift(site, events, ttl, delay, a, b);
    }
    NoSignatureTwice(site, true, events, ttl, delay, 0.0, shift);
  }

  lemma NinesAcceptedTwice(site: Site, ttl: real, delay: real, n: nat) returns (events: seq<Event>)
    requires Ready(site.settings) && site.parse == Read && 0.0 <= delay
    requires n <= BODY_LIMIT && ttl < PAST + FUTURE + delay + 1.0 - Tenth(n)
    ensures Feasible(events, ttl, delay, 0.0) && Issued(site, events) && TenDigitTimes(events)
    ensures !OncePerSignature(site, true, Run(events, ttl))
  {
    var w := "5000000000";
    var message := w + "." + Nines(n);
    NinesReadTwice(w, n, message);
    events := ReadingsAcceptedTwice(site, message, 5_000_000_000.0, 5_000_000_001.0 - Tenth(n), ttl, delay);
  }
}
