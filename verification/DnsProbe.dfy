/** DNS questions and answers of `scripts/security_browser_probe.py`. */
module DnsProbe {
  // The wire format is that of RFC 1035: sections 4.1.1 (header), 4.1.2 (question), 4.1.3 (record)
  // and 4.1.4 (compression).

  type byte = i: int | 0 <= i < 256

  datatype DnsError = InvalidQuestion | TruncatedName | InvalidLabel | NonAsciiLabel | MissingType

  datatype Result<T> = Ok(value: T) | Err(error: DnsError)

  type Label = seq<byte>

  datatype Name = Name(labels: seq<Label>, next: nat)

  datatype Question = Question(name: string, qtype: int, qclass: int, wire: seq<byte>)

  function U16(hi: byte, lo: byte): int { 256 * hi + lo }

  function PackU16(n: int): seq<byte>
    requires 0 <= n < 65536
  {
    [n / 256, n % 256]
  }

  predicate Ascii(s: seq<byte>) { forall i | 0 <= i < |s| :: s[i] < 128 }

  /** `bytes.decode("ascii").lower()`, on bytes that are ASCII. */
  function LowerByte(b: byte): char
    requires b < 128
  {
    if 65 <= b <= 90 then (b + 32) as char else b as char
  }

  function LowerLabel(part: Label): string
    requires Ascii(part)
  {
    seq(|part|, i requires 0 <= i < |part| => LowerByte(part[i]))
  }

  predicate GoodLabel(part: Label) { 1 <= |part| <= 63 && Ascii(part) }

  predicate GoodLabels(labels: seq<Label>) { forall i | 0 <= i < |labels| :: GoodLabel(labels[i]) }

  /** `".".join(labels).lower()`. */
  function Dotted(labels: seq<Label>): string
    requires GoodLabels(labels)
  {
    if labels == [] then ""
    else if |labels| == 1 then LowerLabel(labels[0])
    else Dotted(labels[..|labels| - 1]) + "." + LowerLabel(labels[|labels| - 1])
  }

  // ----- parsing

  function Prepend(labels: seq<Label>, r: Result<Name>): Result<Name> {
    if r.Ok? then Ok(Name(labels + r.value.labels, r.value.next)) else r
  }

  /** The labels from `offset` up to the empty one, and the offset behind it. */
  function ParseName(q: seq<byte>, offset: nat): Result<Name>
    decreases |q| - offset
  {
    if offset >= |q| then Err(TruncatedName)
    else
      var size := q[offset];
      if size == 0 then Ok(Name([], offset + 1))
      else if size > 63 || offset + 1 + size > |q| then Err(InvalidLabel)
      else
        var part := q[offset + 1..offset + 1 + size];
        if !Ascii(part) then Err(NonAsciiLabel) else Prepend([part], ParseName(q, offset + 1 + size))
  }

  lemma {:induction false} ParsedLabelsAreGood(q: seq<byte>, offset: nat)
    requires ParseName(q, offset).Ok?
    ensures GoodLabels(ParseName(q, offset).value.labels)
    ensures offset < ParseName(q, offset).value.next <= |q|
    decreases |q| - offset
  {
    if q[offset] != 0 {
      ParsedLabelsAreGood(q, offset + 1 + q[offset]);
    }
  }

  function Parse(query: seq<byte>): Result<Question> {
    if |query| < 12 || U16(query[4], query[5]) != 1 then Err(InvalidQuestion)
    else
      var name := ParseName(query, 12);
      if name.Err? then Err(name.error)
      else
        ParsedLabelsAreGood(query, 12);
        var at := name.value.next;
        if at + 4 > |query| then Err(MissingType)
        else Ok(Question(Dotted(name.value.labels),
                         U16(query[at], query[at + 1]), U16(query[at + 2], query[at + 3]), query[12..at + 4]))
  }

  lemma PrependTwice(a: seq<Label>, b: seq<Label>, r: Result<Name>)
    ensures Prepend(a, Prepend(b, r)) == Prepend(a + b, r)
  {
    if r.Ok? {
      assert a + (b + r.value.labels) == (a + b) + r.value.labels;
    }
  }

  lemma PrependNothing(r: Result<Name>)
    ensures Prepend([], r) == r
  {
    if r.Ok? {
      assert [] + r.value.labels == r.value.labels;
    }
  }

  lemma NextLabel(query: seq<byte>, offset: nat, labels: seq<Label>, part: Label)
    requires offset < |query| && 0 < query[offset] <= 63 && offset + 1 + query[offset] <= |query|
    requires part == query[offset + 1..offset + 1 + query[offset]] && Ascii(part)
    requires ParseName(query, 12) == Prepend(labels, ParseName(query, offset))
    ensures ParseName(query, 12) == Prepend(labels + [part], ParseName(query, offset + 1 + |part|))
  {
    PrependTwice(labels, [part], ParseName(query, offset + 1 + |part|));
  }

  method ReadName(query: seq<byte>) returns (r: Result<Name>)
    requires |query| >= 12
    ensures r == ParseName(query, 12)
  {
    var offset: nat, labels: seq<Label> := 12, [];
    PrependNothing(ParseName(query, 12));
    while true
      invariant 12 <= offset <= |query|
      invariant ParseName(query, 12) == Prepend(labels, ParseName(query, offset))
      decreases |query| - offset
    {
      if offset >= |query| {
        return Err(TruncatedName);
      }
      var size := query[offset];
      if size == 0 {
        offset := offset + 1;
        break;
      }
      if size > 63 || offset + 1 + size > |query| {
        return Err(InvalidLabel);
      }
      var part := query[offset + 1..offset + 1 + size];
      if !Ascii(part) {
        return Err(NonAsciiLabel);
      }
      NextLabel(query, offset, labels, part);
      labels := labels + [part];
      offset := offset + 1 + size;
    }
    assert labels + [] == labels;
    r := Ok(Name(labels, offset));
  }

  method DnsQuestion(query: seq<byte>) returns (r: Result<Question>)
    ensures r == Parse(query)
  {
    if |query| < 12 || U16(query[4], query[5]) != 1 {
      return Err(InvalidQuestion);
    }
    var name := ReadName(query);
    if name.Err? {
      return Err(name.error);
    }
    var offset, labels := name.value.next, name.value.labels;
    ParsedLabelsAreGood(query, 12);
    if offset + 4 > |query| {
      return Err(MissingType);
    }
    r := Ok(Question(Dotted(labels), U16(query[offset], query[offset + 1]),
                     U16(query[offset + 2], query[offset + 3]), query[12..offset + 4]));
  }

  // ----- the wire encoding

  function EncodeLabels(labels: seq<Label>): seq<byte>
    requires GoodLabels(labels)
  {
    if labels == [] then [] else [|labels[0]|] + labels[0] + EncodeLabels(labels[1..])
  }

  /** A question section: the name, closed by the empty label, then type and class. */
  function EncodeQuestion(labels: seq<Label>, qtype: int, qclass: int): seq<byte>
    requires GoodLabels(labels) && 0 <= qtype < 65536 && 0 <= qclass < 65536
  {
    EncodeLabels(labels) + [0] + PackU16(qtype) + PackU16(qclass)
  }

  /** `part` stands in `q` from `at` on. */
  predicate StandsAt(q: seq<byte>, at: nat, part: seq<byte>) {
    at + |part| <= |q| && q[at..at + |part|] == part
  }

  lemma SplitAt(q: seq<byte>, at: nat, a: seq<byte>, b: seq<byte>)
    ensures StandsAt(q, at, a + b) <==> StandsAt(q, at, a) && StandsAt(q, at + |a|, b)
  {
    if at + |a| + |b| <= |q| {
      var both := q[at..at + |a + b|];
      assert both == q[at..at + |a|] + q[at + |a|..at + |a| + |b|];
      if both == a + b {
        assert q[at..at + |a|] == both[..|a|] == a;
        assert q[at + |a|..at + |a| + |b|] == both[|a|..] == b;
      }
    }
  }

  lemma ByteAt(q: seq<byte>, at: nat, b: byte)
    requires StandsAt(q, at, [b])
    ensures at < |q| && q[at] == b
  {
    assert q[at] == q[at..at + 1][0];
  }

  lemma ParseLabel(q: seq<byte>, at: nat, l: Label)
    requires GoodLabel(l) && StandsAt(q, at, [|l|]) && StandsAt(q, at + 1, l)
    ensures ParseName(q, at) == Prepend([l], ParseName(q, at + 1 + |l|))
  {
    ByteAt(q, at, |l|);
  }

  lemma LabelStands(q: seq<byte>, at: nat, l: Label, tail: seq<byte>)
    requires GoodLabel(l) && StandsAt(q, at, [|l|] + l + tail)
    ensures StandsAt(q, at, [|l|]) && StandsAt(q, at + 1, l) && StandsAt(q, at + 1 + |l|, tail)
  {
    SplitAt(q, at, [|l|] + l, tail);
    SplitAt(q, at, [|l|], l);
  }

  /** The encoding of the first label, and behind it that of the others. */
  lemma FirstLabelStands(q: seq<byte>, at: nat, labels: seq<Label>, others: seq<Label>, next: nat)
    requires labels != [] && GoodLabels(labels) && StandsAt(q, at, EncodeLabels(labels))
    requires others == labels[1..] && next == at + 1 + |labels[0]|
    ensures GoodLabels(others) && GoodLabel(labels[0]) && [labels[0]] + others == labels
    ensures StandsAt(q, at, [|labels[0]|]) && StandsAt(q, at + 1, labels[0]) && StandsAt(q, next, EncodeLabels(others))
    ensures at + |EncodeLabels(labels)| == next + |EncodeLabels(others)|
  {
    LabelStands(q, at, labels[0], EncodeLabels(others));
  }

  /** Behind a run of good labels, parsing goes on as if it had started there. */
  lemma {:induction false} ParseLabels(q: seq<byte>, at: nat, labels: seq<Label>, end: nat)
    requires GoodLabels(labels) && StandsAt(q, at, EncodeLabels(labels)) && end == at + |EncodeLabels(labels)|
    ensures ParseName(q, at) == Prepend(labels, ParseName(q, end))
    decreases |labels|
  {
    if labels == [] {
      PrependNothing(ParseName(q, at));
    } else {
      var others, next := labels[1..], at + 1 + |labels[0]|;
      FirstLabelStands(q, at, labels, others, next);
      ParseLabel(q, at, labels[0]);
      ParseLabels(q, next, others, end);
      PrependTwice([labels[0]], others, ParseName(q, end));
    }
  }

  lemma ParseEncodedName(q: seq<byte>, at: nat, labels: seq<Label>)
    requires GoodLabels(labels) && StandsAt(q, at, EncodeLabels(labels) + [0])
    ensures ParseName(q, at) == Ok(Name(labels, at + |EncodeLabels(labels)| + 1))
  {
    SplitAt(q, at, EncodeLabels(labels), [0]);
    var end := at + |EncodeLabels(labels)|;
    ParseLabels(q, at, labels, end);
    ByteAt(q, end, 0);
    assert labels + [] == labels;
  }

  lemma Slices(q: seq<byte>, a: nat, b: nat, c: nat)
    requires a < b <= c <= |q|
    ensures q[a..c] == [q[a]] + q[a + 1..b] + q[b..c]
  {
  }

  lemma {:induction false} ParsedNameIsEncoded(q: seq<byte>, offset: nat, labels: seq<Label>, next: nat)
    requires ParseName(q, offset) == Ok(Name(labels, next))
    ensures offset < next <= |q| && GoodLabels(labels)
    ensures q[offset..next] == EncodeLabels(labels) + [0]
    decreases |q| - offset
  {
    var size := q[offset];
    if size == 0 {
      assert labels == [];
    } else {
      var next' := offset + 1 + size;
      var l, inner := q[offset + 1..next'], ParseName(q, next').value;
      ParsedNameIsEncoded(q, next', inner.labels, next);
      assert labels == [l] + inner.labels && labels[1..] == inner.labels && labels[0] == l;
      assert EncodeLabels(labels) == [size] + l + EncodeLabels(inner.labels);
      Slices(q, offset, next', next);
    }
  }

  lemma PackedIsRead(n: int)
    requires 0 <= n < 65536
    ensures U16(n / 256, n % 256) == n
  {
  }

  lemma ReadIsPacked(hi: byte, lo: byte)
    ensures 0 <= U16(hi, lo) < 65536 && PackU16(U16(hi, lo)) == [hi, lo]
  {
  }

  predicate OneQuestion(header: seq<byte>) { |header| == 12 && header[4] == 0 && header[5] == 1 }

  /** The parser inverts the encoder, whatever the rest of the header and whatever follows the question. */
  lemma ParseInvertsEncode(header: seq<byte>, labels: seq<Label>, qtype: int, qclass: int, rest: seq<byte>)
    requires OneQuestion(header) && GoodLabels(labels) && 0 <= qtype < 65536 && 0 <= qclass < 65536
    ensures Parse(header + EncodeQuestion(labels, qtype, qclass) + rest)
         == Ok(Question(Dotted(labels), qtype, qclass, EncodeQuestion(labels, qtype, qclass)))
  {
    var wire := EncodeQuestion(labels, qtype, qclass);
    var q := header + wire + rest;
    assert StandsAt(q, 12, wire);
    ParseQuestion(q, labels, qtype, qclass);
  }

  /** Only the count in the header and the bytes of the question matter. */
  lemma ParseQuestion(q: seq<byte>, labels: seq<Label>, qtype: int, qclass: int)
    requires GoodLabels(labels) && 0 <= qtype < 65536 && 0 <= qclass < 65536
    requires |q| >= 12 && q[4] == 0 && q[5] == 1 && StandsAt(q, 12, EncodeQuestion(labels, qtype, qclass))
    ensures Parse(q) == Ok(Question(Dotted(labels), qtype, qclass, EncodeQuestion(labels, qtype, qclass)))
  {
    var name, types := EncodeLabels(labels) + [0], PackU16(qtype) + PackU16(qclass);
    assert EncodeQuestion(labels, qtype, qclass) == name + types;
    SplitAt(q, 12, name, types);
    ParseEncodedName(q, 12, labels);
    var at := 12 + |name|;
    var four := q[at..at + 4];
    assert four == types;
    assert q[at] == four[0] && q[at + 1] == four[1] && q[at + 2] == four[2] && q[at + 3] == four[3];
    PackedIsRead(qtype);
    PackedIsRead(qclass);
  }

  /** What the parser accepts is one encoded question behind a header that announces one. */
  lemma ParsedIsEncoded(query: seq<byte>, r: Question) returns (labels: seq<Label>)
    requires Parse(query) == Ok(r)
    ensures GoodLabels(labels) && 0 <= r.qtype < 65536 && 0 <= r.qclass < 65536
    ensures r.name == Dotted(labels) && r.wire == EncodeQuestion(labels, r.qtype, r.qclass)
    ensures |query| >= 12 && OneQuestion(query[..12]) && r.wire <= query[12..]
    ensures labels == ParseName(query, 12).value.labels
  {
    labels := ParseName(query, 12).value.labels;
    var at := ParseName(query, 12).value.next;
    ParsedNameIsEncoded(query, 12, labels, at);
    FourBytes(query, 12, at, EncodeLabels(labels) + [0]);
    Takes(query, 12, at + 4);
  }

  lemma FourBytes(q: seq<byte>, start: nat, at: nat, name: seq<byte>)
    requires start <= at && at + 4 <= |q| && q[start..at] == name
    ensures 0 <= U16(q[at], q[at + 1]) < 65536 && 0 <= U16(q[at + 2], q[at + 3]) < 65536
    ensures q[start..at + 4] == name + PackU16(U16(q[at], q[at + 1])) + PackU16(U16(q[at + 2], q[at + 3]))
  {
    ReadIsPacked(q[at], q[at + 1]);
    ReadIsPacked(q[at + 2], q[at + 3]);
    assert q[start..at + 4] == q[start..at] + [q[at], q[at + 1]] + [q[at + 2], q[at + 3]];
  }

  lemma Takes(q: seq<byte>, start: nat, end: nat)
    requires start <= end <= |q|
    ensures q[start..end] <= q[start..]
  {
    assert q[start..][..end - start] == q[start..end];
  }

  /** Accepted are exactly the headers with one question followed by an encoded question. */
  lemma AcceptsExactly(query: seq<byte>)
    ensures Parse(query).Ok? <==>
              exists labels, qtype, qclass ::
                && GoodLabels(labels) && 0 <= qtype < 65536 && 0 <= qclass < 65536
                && |query| >= 12 && OneQuestion(query[..12])
                && StandsAt(query, 12, EncodeQuestion(labels, qtype, qclass))
  {
    if Parse(query).Ok? {
      var r := Parse(query).value;
      var labels := ParsedIsEncoded(query, r);
      assert StandsAt(query, 12, EncodeQuestion(labels, r.qtype, r.qclass)) by {
        assert query[12..12 + |r.wire|] == query[12..][..|r.wire|];
      }
    }
    if labels, qtype, qclass :|
        && GoodLabels(labels) && 0 <= qtype < 65536 && 0 <= qclass < 65536
        && |query| >= 12 && OneQuestion(query[..12])
        && StandsAt(query, 12, EncodeQuestion(labels, qtype, qclass)) {
      ParseQuestion(query, labels, qtype, qclass);
    }
  }

  /** The encoding leaves no doubt about the labels. */
  lemma EncodingIsUnique(a: seq<Label>, b: seq<Label>, x: seq<byte>, y: seq<byte>)
    requires GoodLabels(a) && GoodLabels(b) && EncodeLabels(a) + [0] + x == EncodeLabels(b) + [0] + y
    ensures a == b && x == y
  {
    var q := EncodeLabels(a) + [0] + x;
    assert StandsAt(q, 0, EncodeLabels(a) + [0]) && StandsAt(q, 0, EncodeLabels(b) + [0]);
    ParseEncodedName(q, 0, a);
    ParseEncodedName(q, 0, b);
    assert x == q[|EncodeLabels(a)| + 1..] == y;
  }

  // ----- answering

  function StripDots(s: string): string {
    if s != [] && s[|s| - 1] == '.' then StripDots(s[..|s| - 1]) else s
  }

  function LowerChar(c: char): char { if 'A' <= c <= 'Z' then (c as int + 32) as char else c }

  function Lower(s: string): string {
    seq(|s|, i requires 0 <= i < |s| => LowerChar(s[i]))
  }

  predicate Matches(q: Question, hostname: string) { q.name == Lower(StripDots(hostname)) }

  predicate AsksForAddress(q: Question) { q.qtype == 1 && q.qclass == 1 }

  /** Authoritative, and NXDOMAIN for every other name. */
  function Flags(matches: bool): (f: int)
    ensures 0 <= f < 65536 && f / 256 == 0x84 && f % 16 == if matches then 0 else 3
  {
    0x8400 + if matches then 0 else 3
  }

  /** An A record: the name by reference to offset 12, type and class 1, time to live 0, four bytes. */
  function AddressRecord(address: seq<byte>): seq<byte> {
    [0xc0, 0x0c] + PackU16(1) + PackU16(1) + [0, 0, 0, 0] + PackU16(4) + address
  }

  function Header(id: seq<byte>, flags: int, answers: int): seq<byte>
    requires 0 <= flags < 65536 && 0 <= answers < 65536
  {
    id + PackU16(flags) + PackU16(1) + PackU16(answers) + PackU16(0) + PackU16(0)
  }

  function AnswerTo(q: Question, id: seq<byte>, hostname: string, address: seq<byte>): seq<byte> {
    var answer := if Matches(q, hostname) && AsksForAddress(q) then AddressRecord(address) else [];
    Header(id, Flags(Matches(q, hostname)), if answer != [] then 1 else 0) + q.wire + answer
  }

  function Answer(query: seq<byte>, hostname: string, address: seq<byte>): Result<seq<byte>> {
    var q := Parse(query);
    if q.Err? then Err(q.error) else Ok(AnswerTo(q.value, query[..2], hostname, address))
  }

  // ----- an independent reader of replies

  datatype Record = Record(labels: seq<Label>, rtype: int, rclass: int, ttl: seq<byte>, data: seq<byte>, next: nat)

  /** A name as section 4.1.4 lays it down: labels, then the end or a pointer to an earlier name. */
  function NameAt(m: seq<byte>, at: nat, limit: nat): Result<Name>
    decreases limit, |m| - at
  {
    if at >= |m| then Err(TruncatedName)
    else if m[at] == 0 then Ok(Name([], at + 1))
    else if m[at] >= 0xc0 then
      if at + 1 >= |m| then Err(TruncatedName)
      else
        var target := U16(m[at], m[at + 1]) - 0xc000;
        if target >= limit then Err(InvalidLabel)
        else
          var name := NameAt(m, target, target);
          if name.Ok? then Ok(Name(name.value.labels, at + 2)) else name
    else if m[at] > 63 || at + 1 + m[at] > |m| then Err(InvalidLabel)
    else Prepend([m[at + 1..at + 1 + m[at]]], NameAt(m, at + 1 + m[at], limit))
  }

  /** The resource record at `at`, laid out as in section 4.1.3. */
  function RecordAt(m: seq<byte>, at: nat): Result<Record> {
    var name := NameAt(m, at, at);
    if name.Err? then Err(name.error)
    else
      var n := name.value.next;
      if n + 10 > |m| then Err(MissingType)
      else
        var length := U16(m[n + 8], m[n + 9]);
        if n + 10 + length > |m| then Err(MissingType)
        else Ok(Record(name.value.labels, U16(m[n], m[n + 1]), U16(m[n + 2], m[n + 3]), m[n + 4..n + 8],
                       m[n + 10..n + 10 + length], n + 10 + length))
  }

  lemma LabelAt(q: seq<byte>, at: nat, l: Label, limit: nat)
    requires GoodLabel(l) && StandsAt(q, at, [|l|]) && StandsAt(q, at + 1, l)
    ensures NameAt(q, at, limit) == Prepend([l], NameAt(q, at + 1 + |l|, limit))
  {
    ByteAt(q, at, |l|);
  }

  lemma {:induction false} LabelsAt(q: seq<byte>, at: nat, labels: seq<Label>, limit: nat, end: nat)
    requires GoodLabels(labels) && StandsAt(q, at, EncodeLabels(labels)) && end == at + |EncodeLabels(labels)|
    ensures NameAt(q, at, limit) == Prepend(labels, NameAt(q, end, limit))
    decreases |labels|
  {
    if labels == [] {
      PrependNothing(NameAt(q, at, limit));
    } else {
      var others, next := labels[1..], at + 1 + |labels[0]|;
      FirstLabelStands(q, at, labels, others, next);
      LabelAt(q, at, labels[0], limit);
      LabelsAt(q, next, others, limit, end);
      PrependTwice([labels[0]], others, NameAt(q, end, limit));
    }
  }

  lemma PlainNameAt(q: seq<byte>, at: nat, labels: seq<Label>, limit: nat, end: nat)
    requires GoodLabels(labels) && StandsAt(q, at, EncodeLabels(labels))
    requires end == at + |EncodeLabels(labels)| && end < |q| && q[end] == 0
    ensures NameAt(q, at, limit) == Ok(Name(labels, end + 1))
  {
    LabelsAt(q, at, labels, limit, end);
    assert labels + [] == labels;
  }

  function Id(m: seq<byte>): seq<byte>
    requires |m| >= 12
  {
    m[..2]
  }

  function AnswerCount(m: seq<byte>): int
    requires |m| >= 12
  {
    U16(m[6], m[7])
  }

  function ResponseCode(m: seq<byte>): int
    requires |m| >= 12
  {
    m[3] % 16
  }

  lemma HeaderBytes(id: seq<byte>, flags: int, answers: int)
    requires |id| == 2 && 0 <= flags < 65536 && 0 <= answers < 65536
    ensures var h := Header(id, flags, answers);
            |h| == 12 && h[..2] == id && h[2] == flags / 256 && h[3] == flags % 256 && h[4] == 0 && h[5] == 1
            && U16(h[6], h[7]) == answers && h[6] == answers / 256
            && h[8] == h[9] == h[10] == h[11] == 0
  {
    PackedIsRead(answers);
    assert PackU16(1) == [0, 1] && PackU16(0) == [0, 0];
  }

  lemma LowBits(n: int)
    ensures n % 256 % 16 == n % 16
  {
  }

  /** The reply is the query's own question behind a header, and then the answer. */
  lemma ReplyLayout(q: Question, id: seq<byte>, hostname: string, address: seq<byte>, reply: seq<byte>)
    requires |id| == 2 && reply == AnswerTo(q, id, hostname, address)
    ensures |reply| >= 12 && Id(reply) == id && reply[2] == 0x84 && reply[4] == 0 && reply[5] == 1
    ensures reply[3] == (if Matches(q, hostname) then 0 else 3) && reply[6] == 0 && reply[7] <= 1
    ensures reply[8] == reply[9] == reply[10] == reply[11] == 0
    ensures ResponseCode(reply) == if Matches(q, hostname) then 0 else 3
    ensures AnswerCount(reply) == if Matches(q, hostname) && AsksForAddress(q) then 1 else 0
    ensures reply[12..] == q.wire + if Matches(q, hostname) && AsksForAddress(q) then AddressRecord(address) else []
    ensures StandsAt(reply, 12, q.wire)
  {
    var answer := if Matches(q, hostname) && AsksForAddress(q) then AddressRecord(address) else [];
    var header := Header(id, Flags(Matches(q, hostname)), if answer != [] then 1 else 0);
    HeaderBytes(id, Flags(Matches(q, hostname)), if answer != [] then 1 else 0);
    LowBits(Flags(Matches(q, hostname)));
    Layout(header, q.wire, answer, reply);
  }

  lemma Layout(header: seq<byte>, wire: seq<byte>, answer: seq<byte>, reply: seq<byte>)
    requires |header| == 12 && reply == header + wire + answer
    ensures |reply| >= 12 && reply[..2] == header[..2]
    ensures reply[2] == header[2] && reply[3] == header[3] && reply[4] == header[4] && reply[5] == header[5]
    ensures reply[6] == header[6] && reply[7] == header[7] && reply[8..12] == header[8..12]
    ensures reply[12..] == wire + answer && StandsAt(reply, 12, wire)
  {
    assert reply == header + (wire + answer);
  }

  /** Every reply parses to the question it answers and keeps its identifier. */
  lemma ReplyAsksTheSame(query: seq<byte>, hostname: string, address: seq<byte>, reply: seq<byte>)
    requires Answer(query, hostname, address) == Ok(reply)
    ensures |query| >= 12 && |reply| >= 12 && Id(reply) == Id(query)
    ensures Parse(reply) == Parse(query) && reply[2] == 0x84
    ensures reply[3] == if Parse(query).value.name == Lower(StripDots(hostname)) then 0 else 3
    ensures reply[4] == 0 && reply[5] == 1 && reply[6] == 0 && reply[7] <= 1
    ensures reply[8] == reply[9] == reply[10] == reply[11] == 0
  {
    var q := Parse(query).value;
    var labels := ParsedIsEncoded(query, q);
    ReplyLayout(q, query[..2], hostname, address, reply);
    ParseQuestion(reply, labels, q.qtype, q.qclass);
  }

  /**
   * An address is given exactly when name, type and class match; the record then names the labels of
   * the question, through its pointer, and ends the reply.
   */
  lemma AddressExactlyWhen(query: seq<byte>, hostname: string, address: seq<byte>, reply: seq<byte>)
    requires Answer(query, hostname, address) == Ok(reply) && |address| == 4
    ensures |query| >= 12 && |reply| >= 12
    ensures var q := Parse(query).value;
            AnswerCount(reply) == if q.name == Lower(StripDots(hostname)) && q.qtype == 1 && q.qclass == 1 then 1 else 0
    ensures AnswerCount(reply) == 0 ==> |reply| == 12 + |Parse(query).value.wire|
    ensures AnswerCount(reply) == 1 ==>
              RecordAt(reply, 12 + |Parse(query).value.wire|)
              == Ok(Record(ParseName(query, 12).value.labels, 1, 1, [0, 0, 0, 0], address, |reply|))
  {
    var q := Parse(query).value;
    var labels := ParsedIsEncoded(query, q);
    ReplyLayout(q, query[..2], hostname, address, reply);
    if AnswerCount(reply) == 1 {
      WireStartsWithName(reply, q, labels);
      RecordStands(reply, labels, 12 + |q.wire|, address);
    }
  }

  lemma WireStartsWithName(reply: seq<byte>, q: Question, labels: seq<Label>)
    requires GoodLabels(labels) && 0 <= q.qtype < 65536 && 0 <= q.qclass < 65536
    requires q.wire == EncodeQuestion(labels, q.qtype, q.qclass) && StandsAt(reply, 12, q.wire)
    ensures StandsAt(reply, 12, EncodeLabels(labels) + [0])
  {
    var types := PackU16(q.qtype) + PackU16(q.qclass);
    assert q.wire == EncodeLabels(labels) + [0] + types;
    SplitAt(reply, 12, EncodeLabels(labels) + [0], types);
  }

  lemma RecordBytes(address: seq<byte>)
    ensures AddressRecord(address) == [0xc0, 0x0c, 0, 1, 0, 1, 0, 0, 0, 0, 0, 4] + address
  {
    assert PackU16(1) == [0, 1] && PackU16(4) == [0, 4];
  }

  lemma RecordFields(reply: seq<byte>, at: nat, address: seq<byte>)
    requires at <= |reply| && reply[at..] == AddressRecord(address) && |address| == 4
    ensures |reply| == at + 16 && reply[at] == 0xc0 && reply[at + 1] == 0x0c
    ensures U16(reply[at + 2], reply[at + 3]) == 1 && U16(reply[at + 4], reply[at + 5]) == 1
    ensures reply[at + 6..at + 10] == [0, 0, 0, 0] && U16(reply[at + 10], reply[at + 11]) == 4
    ensures reply[at + 12..at + 16] == address
  {
    RecordBytes(address);
    var tail := reply[at..];
    assert reply[at] == tail[0] && reply[at + 1] == tail[1];
    assert reply[at + 2] == tail[2] && reply[at + 3] == tail[3];
    assert reply[at + 4] == tail[4] && reply[at + 5] == tail[5];
    assert reply[at + 6..at + 10] == tail[6..10] == [0, 0, 0, 0];
    assert reply[at + 10] == tail[10] && reply[at + 11] == tail[11];
    assert reply[at + 12..at + 16] == tail[12..16] == address;
  }

  /** A pointer to offset 12 stands for the name there. */
  lemma PointerAt(reply: seq<byte>, labels: seq<Label>, at: nat)
    requires GoodLabels(labels) && StandsAt(reply, 12, EncodeLabels(labels) + [0])
    requires 12 < at && at + 1 < |reply| && reply[at] == 0xc0 && reply[at + 1] == 0x0c
    ensures NameAt(reply, at, at) == Ok(Name(labels, at + 2))
  {
    var end := 12 + |EncodeLabels(labels)|;
    SplitAt(reply, 12, EncodeLabels(labels), [0]);
    ByteAt(reply, end, 0);
    PlainNameAt(reply, 12, labels, 12, end);
  }

  lemma RecordStands(reply: seq<byte>, labels: seq<Label>, at: nat, address: seq<byte>)
    requires GoodLabels(labels) && StandsAt(reply, 12, EncodeLabels(labels) + [0]) && |address| == 4
    requires 12 < at <= |reply| && reply[at..] == AddressRecord(address)
    ensures RecordAt(reply, at) == Ok(Record(labels, 1, 1, [0, 0, 0, 0], address, |reply|))
  {
    RecordFields(reply, at, address);
    PointerAt(reply, labels, at);
  }

  // ----- which labels a matching name has

  predicate Dotless(part: Label) { 46 !in part }

  predicate DotlessLabels(labels: seq<Label>) { forall i | 0 <= i < |labels| :: Dotless(labels[i]) }

  lemma DotlessLower(part: Label)
    requires GoodLabel(part) && Dotless(part)
    ensures |LowerLabel(part)| == |part| && '.' !in LowerLabel(part)
  {
    var s := LowerLabel(part);
    forall i | 0 <= i < |s| ensures s[i] != '.' {
      assert part[i] in part;
    }
  }

  lemma DotAt(x: string, u: string, w: string)
    requires w == x + "." + u && '.' !in u
    ensures |w| == |x| + 1 + |u| && w[|x|] == '.' && w[..|x|] == x && w[|x| + 1..] == u
    ensures forall i | |x| < i < |w| :: w[i] != '.'
  {
    forall i | |x| < i < |w| ensures w[i] != '.' {
      assert w[i] == u[i - |x| - 1];
    }
  }

  /** The last dot of a string splits it in one way only. */
  lemma LastDot(x: string, u: string, y: string, v: string)
    requires x + "." + u == y + "." + v && '.' !in u && '.' !in v
    ensures x == y && u == v
  {
    DotAt(x, u, x + "." + u);
    DotAt(y, v, x + "." + u);
    assert |x| == |y|;
  }

  lemma DottedShape(labels: seq<Label>)
    requires GoodLabels(labels) && DotlessLabels(labels) && labels != []
    ensures GoodLabel(labels[|labels| - 1]) && '.' !in LowerLabel(labels[|labels| - 1]) && Dotted(labels) != ""
    ensures '.' in Dotted(labels) <==> |labels| > 1
  {
    DotlessLower(labels[|labels| - 1]);
    if |labels| > 1 {
      var init := Dotted(labels[..|labels| - 1]);
      assert Dotted(labels)[|init|] == '.';
    }
  }

  ghost predicate SameUpToCase(a: seq<Label>, b: seq<Label>)
    requires GoodLabels(a) && GoodLabels(b)
  {
    |a| == |b| && forall i | 0 <= i < |a| :: LowerLabel(a[i]) == LowerLabel(b[i])
  }

  lemma SameButLast(a: seq<Label>, b: seq<Label>, a': seq<Label>, b': seq<Label>)
    requires GoodLabels(a) && GoodLabels(b) && a != [] && b != []
    requires a' == a[..|a| - 1] && b' == b[..|b| - 1]
    ensures SameUpToCase(a, b) <==>
              SameUpToCase(a', b') && LowerLabel(a[|a| - 1]) == LowerLabel(b[|b| - 1])
  {
    if SameUpToCase(a, b) {
      assert forall i | 0 <= i < |a'| :: a'[i] == a[i] && b'[i] == b[i];
    }
    if SameUpToCase(a', b') {
      assert forall i | 0 <= i < |a'| :: LowerLabel(a'[i]) == LowerLabel(b'[i]);
    }
  }

  /** Without dots inside labels, names are equal exactly when their labels are, up to case. */
  lemma {:induction false} NameFixesLabels(a: seq<Label>, b: seq<Label>)
    requires GoodLabels(a) && GoodLabels(b) && DotlessLabels(a) && DotlessLabels(b)
    ensures Dotted(a) == Dotted(b) <==> SameUpToCase(a, b)
    decreases |a|
  {
    if a != [] {
      DottedShape(a);
    }
    if b != [] {
      DottedShape(b);
    }
    if |a| > 1 && |b| > 1 {
      var a', b', u, v := a[..|a| - 1], b[..|b| - 1], LowerLabel(a[|a| - 1]), LowerLabel(b[|b| - 1]);
      NameFixesLabels(a', b');
      SameButLast(a, b, a', b');
      SplitNames(Dotted(a'), u, Dotted(b'), v);
    }
  }

  lemma SplitNames(x: string, u: string, y: string, v: string)
    requires '.' !in u && '.' !in v
    ensures x + "." + u == y + "." + v <==> x == y && u == v
  {
    if x + "." + u == y + "." + v {
      LastDot(x, u, y, v);
    }
  }

  lemma LowerKeepsDotless(a: Label, b: Label)
    requires GoodLabel(a) && GoodLabel(b) && LowerLabel(a) == LowerLabel(b) && Dotless(a)
    ensures Dotless(b)
  {
    DotlessLower(a);
    forall i | 0 <= i < |b| ensures b[i] != 46 {
      assert LowerLabel(b)[i] in LowerLabel(a);
    }
  }

  /** Labels behind the name of dotless labels are the same labels exactly when they hold no dot themselves. */
  lemma SameExactlyWhenDotless(a: seq<Label>, b: seq<Label>)
    requires GoodLabels(a) && GoodLabels(b) && DotlessLabels(a) && Dotted(a) == Dotted(b)
    ensures SameUpToCase(a, b) <==> DotlessLabels(b)
  {
    if DotlessLabels(b) {
      NameFixesLabels(a, b);
    }
    if SameUpToCase(a, b) {
      forall i | 0 <= i < |b| ensures Dotless(b[i]) {
        LowerKeepsDotless(a[i], b[i]);
      }
    }
  }

  /** An address that is given is given for the host's own labels exactly when no label of the query holds a dot. */
  lemma AddressForHostExactlyWhen(query: seq<byte>, hostname: string, address: seq<byte>, reply: seq<byte>,
                                  host: seq<Label>)
    requires Answer(query, hostname, address) == Ok(reply) && |address| == 4
    requires GoodLabels(host) && DotlessLabels(host) && Dotted(host) == Lower(StripDots(hostname))
    requires |reply| >= 12 && AnswerCount(reply) == 1
    ensures |query| >= 12 && var r := RecordAt(reply, 12 + |Parse(query).value.wire|);
            && r.Ok? && GoodLabels(r.value.labels)
            && (SameUpToCase(host, r.value.labels) <==> DotlessLabels(ParseName(query, 12).value.labels))
  {
    var q := Parse(query).value;
    var labels := ParsedIsEncoded(query, q);
    AddressExactlyWhen(query, hostname, address, reply);
    SameExactlyWhenDotless(host, labels);
  }

  // ----- which host names are answered

  /** A part of a host name: one to 63 characters of ASCII without a dot. */
  predicate GoodPart(x: string) {
    1 <= |x| <= 63 && forall i | 0 <= i < |x| :: x[i] < 128 as char && x[i] != '.'
  }

  predicate GoodParts(parts: seq<string>) { forall i | 0 <= i < |parts| :: GoodPart(parts[i]) }

  /** The parts with a dot between any two. */
  function Joined(parts: seq<string>): string {
    if parts == [] then ""
    else if |parts| == 1 then parts[0]
    else Joined(parts[..|parts| - 1]) + "." + parts[|parts| - 1]
  }

  /** The byte stands for the letter, in small or in capitals, or for the very character. */
  predicate SameLetter(b: byte, c: char) {
    || b == c as int
    || ('a' <= c <= 'z' && b == c as int - 32)
    || ('A' <= c <= 'Z' && b == c as int + 32)
  }

  ghost predicate SpellsPart(part: Label, x: string) {
    |part| == |x| && forall i | 0 <= i < |part| :: SameLetter(part[i], x[i])
  }

  ghost predicate Spells(labels: seq<Label>, parts: seq<string>) {
    |labels| == |parts| && forall i | 0 <= i < |labels| :: SpellsPart(labels[i], parts[i])
  }

  function Bytes(x: string): Label
    requires GoodPart(x)
  {
    seq(|x|, i requires 0 <= i < |x| => x[i] as int)
  }

  function HostLabels(parts: seq<string>): (labels: seq<Label>)
    requires GoodParts(parts)
    ensures |labels| == |parts| && forall i | 0 <= i < |labels| :: labels[i] == Bytes(parts[i])
  {
    seq(|parts|, i requires 0 <= i < |parts| => Bytes(parts[i]))
  }

  lemma PartIsLabel(x: string, part: Label)
    requires GoodPart(x) && GoodLabel(part)
    ensures GoodLabel(Bytes(x)) && Dotless(Bytes(x)) && LowerLabel(Bytes(x)) == Lower(x)
    ensures LowerLabel(Bytes(x)) == LowerLabel(part) <==> SpellsPart(part, x)
  {
    var (u, v) := (LowerLabel(Bytes(x)), LowerLabel(part));
    forall i | 0 <= i < |x| && |part| == |x| ensures u[i] == v[i] <==> SameLetter(part[i], x[i]) {
    }
    assert u == Lower(x);
    if u == v {
      assert |x| == |part| && forall i | 0 <= i < |x| :: u[i] == v[i];
    }
    if SpellsPart(part, x) {
      assert forall i | 0 <= i < |x| :: u[i] == v[i];
    }
  }

  lemma HostLabelsAreGood(parts: seq<string>)
    requires GoodParts(parts)
    ensures GoodLabels(HostLabels(parts)) && DotlessLabels(HostLabels(parts))
  {
    forall i | 0 <= i < |parts| ensures GoodLabel(HostLabels(parts)[i]) && Dotless(HostLabels(parts)[i]) {
      PartIsLabel(parts[i], Bytes(parts[i]));
    }
  }

  lemma LowerConcat(s: string, t: string)
    ensures Lower(s + t) == Lower(s) + Lower(t)
  {
  }

  lemma {:induction false} HostLabelsSpell(parts: seq<string>)
    requires GoodParts(parts) && GoodLabels(HostLabels(parts))
    ensures Dotted(HostLabels(parts)) == Lower(Joined(parts))
  {
    var n := |parts| - 1;
    if parts != [] {
      PartIsLabel(parts[n], Bytes(parts[n]));
    }
    if n > 0 {
      var front := parts[..n];
      HostLabelsAreGood(front);
      assert HostLabels(parts)[..n] == HostLabels(front);
      HostLabelsSpell(front);
      LowerConcat(Joined(front), ".");
      LowerConcat(Joined(front) + ".", parts[n]);
    }
  }

  lemma SpellsIsSame(labels: seq<Label>, parts: seq<string>)
    requires GoodLabels(labels) && GoodParts(parts) && GoodLabels(HostLabels(parts))
    ensures SameUpToCase(labels, HostLabels(parts)) <==> Spells(labels, parts)
  {
    if |labels| == |parts| {
      forall i | 0 <= i < |labels|
        ensures LowerLabel(labels[i]) == LowerLabel(HostLabels(parts)[i]) <==> SpellsPart(labels[i], parts[i])
      {
        PartIsLabel(parts[i], labels[i]);
      }
    }
  }

  lemma {:induction false} DotsAreStripped(s: string, dots: string)
    requires s == "" || s[|s| - 1] != '.'
    requires forall i | 0 <= i < |dots| :: dots[i] == '.'
    ensures StripDots(s + dots) == s
  {
    if dots == "" {
      assert s + dots == s;
    } else {
      var n := |dots| - 1;
      assert (s + dots)[..|s| + n] == s + dots[..n];
      DotsAreStripped(s, dots[..n]);
    }
  }

  lemma NameIsHostname(labels: seq<Label>, parts: seq<string>, dots: string, hostname: string)
    requires GoodLabels(labels) && DotlessLabels(labels) && GoodParts(parts)
    requires hostname == Joined(parts) + dots && forall i | 0 <= i < |dots| :: dots[i] == '.'
    ensures Dotted(labels) == Lower(StripDots(hostname)) <==> Spells(labels, parts)
  {
    if parts != [] {
      var last := parts[|parts| - 1];
      assert Joined(parts)[|Joined(parts)| - 1] == last[|last| - 1];
    }
    DotsAreStripped(Joined(parts), dots);
    HostLabelsAreGood(parts);
    HostLabelsSpell(parts);
    NameFixesLabels(labels, HostLabels(parts));
    SpellsIsSame(labels, parts);
  }

  /**
   * For a host name of dotless parts, with any dots behind it, the reply reports no error exactly when
   * the dotless labels of the query spell its parts, in small letters or capitals; it then holds the
   * address exactly if one of the Internet was asked for.
   */
  lemma HostnameIsAnswered(query: seq<byte>, labels: seq<Label>, parts: seq<string>, dots: string, hostname: string,
                           address: seq<byte>, reply: seq<byte>)
    requires Answer(query, hostname, address) == Ok(reply) && |address| == 4
    requires |query| >= 12 && ParseName(query, 12).Ok? && labels == ParseName(query, 12).value.labels
    requires DotlessLabels(labels) && GoodParts(parts)
    requires hostname == Joined(parts) + dots && forall i | 0 <= i < |dots| :: dots[i] == '.'
    ensures |reply| >= 12
    ensures reply[3] == if Spells(labels, parts) then 0 else 3
    ensures var q := Parse(query).value;
            AnswerCount(reply) == if Spells(labels, parts) && q.qtype == 1 && q.qclass == 1 then 1 else 0
  {
    ParsedLabelsAreGood(query, 12);
    NameIsHostname(labels, parts, dots, hostname);
    ReplyAsksTheSame(query, hostname, address, reply);
    AddressExactlyWhen(query, hostname, address, reply);
  }

  /** A dot inside a label is not told apart from the dot between two, wherever the two fit into one. */
  lemma DotsInsideLabelsBlur(front: seq<Label>, x: Label, y: Label)
    requires GoodLabels(front) && GoodLabel(x) && GoodLabel(y) && |x| + 1 + |y| <= 63
    ensures var (one, two) := (front + [x + [46] + y], front + [x, y]);
            GoodLabels(one) && GoodLabels(two) && Dotted(one) == Dotted(two) && !SameUpToCase(two, one)
  {
    var z := x + [46] + y;
    var (one, two) := (front + [z], front + [x, y]);
    assert one[..|front|] == front && two[..|front| + 1] == front + [x] && (front + [x])[..|front|] == front;
    assert LowerLabel(z) == LowerLabel(x) + "." + LowerLabel(y);
    if front != [] {
      assert Dotted(front) + "." + (LowerLabel(x) + "." + LowerLabel(y))
          == Dotted(front) + "." + LowerLabel(x) + "." + LowerLabel(y);
    }
  }

  // ----- the length of a name

  function Octets(labels: seq<Label>): nat {
    if labels == [] then 0 else 1 + |labels[0]| + Octets(labels[1..])
  }

  lemma {:induction false} EncodedLength(labels: seq<Label>)
    requires GoodLabels(labels)
    ensures |EncodeLabels(labels)| == Octets(labels)
  {
    if labels != [] {
      EncodedLength(labels[1..]);
    }
  }

  /** A name of more octets than the 255 of section 2.3.4 is accepted like any other. */
  lemma LongNamesAreAccepted(header: seq<byte>, part: Label, labels: seq<Label>, rest: seq<byte>)
    requires OneQuestion(header) && |part| == 63 && Ascii(part) && labels == [part, part, part, part]
    ensures GoodLabels(labels) && |EncodeLabels(labels) + [0]| == 257
    ensures Parse(header + EncodeQuestion(labels, 1, 1) + rest).Ok?
  {
    var three, two, one := [part, part, part], [part, part], [part];
    assert one[1..] == [] && Octets(one) == 64;
    assert two[1..] == one && Octets(two) == 128;
    assert three[1..] == two && Octets(three) == 192;
    assert labels[1..] == three;
    EncodedLength(labels);
    ParseInvertsEncode(header, labels, 1, 1, rest);
  }
}
