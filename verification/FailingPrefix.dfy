/** `with_failing_prefix` in `app/core/utils.py`: marking a card's detail line. */
module FailingPrefix {
  import opened PyString

  datatype Option<+T> = None | Some(value: T)

  const HEAD := "\U{26A0} Collection failing"
  /** An em dash between blanks. */
  const SEPARATOR := " \U{2014} "
  const CLOSE := ") \U{2014} "

  predicate At(s: string, i: int, what: string) {
    0 <= i && i + |what| <= |s| && s[i..i + |what|] == what
  }

  // ----- the anchored pattern

  predicate SeparatorAt(s: string, i: int) {
    0 <= i && i + 3 <= |s| && s[i] == ' ' && s[i + 1] == '\U{2014}' && s[i + 2] == ' '
  }

  lemma SeparatorAtIsAt(s: string, i: int)
    ensures SeparatorAt(s, i) <==> At(s, i, SEPARATOR)
  {
    if SeparatorAt(s, i) {
      assert s[i..i + 3] == SEPARATOR;
    }
    if At(s, i, SEPARATOR) {
      assert s[i..i + 3][0] == s[i] && s[i..i + 3][1] == s[i + 1] && s[i..i + 3][2] == s[i + 2];
    }
  }

  /** Where the lazy `.*?` ends: at the first closing separator that no line break precedes. */
  function FirstClose(s: string, i: nat): Option<nat>
    decreases |s| - i
  {
    if i >= |s| then None
    else if At(s, i, CLOSE) then Some(i)
    else if s[i] == '\n' then None
    else FirstClose(s, i + 1)
  }

  /** The length of the marker that `detail` starts with, as the regular expression engine finds it. */
  function MarkerLength(detail: string): Option<nat> {
    if !At(detail, 0, HEAD) then None
    else
      var n := |HEAD|;
      var close := if At(detail, n, " (") then FirstClose(detail, n + 2) else None;
      if close.Some? then Some(close.value + |CLOSE|)
      else if At(detail, n, SEPARATOR) then Some(n + |SEPARATOR|)
      else None
  }

  function WithoutPrefix(detail: string): string {
    var n := MarkerLength(detail);
    if n.Some? && n.value <= |detail| then detail[n.value..] else detail
  }

  /** `s.replace(" - with an em dash - ", " - ")`: left to right, without overlaps. */
  function Replace(s: string): (r: string)
    ensures |r| == |s|
    ensures forall i | 0 <= i < |s| :: r[i] == s[i] || (s[i] == '\U{2014}' && r[i] == '-')
  {
    if At(s, 0, SEPARATOR) then " - " + Replace(s[3..])
    else if s == [] then []
    else [s[0]] + Replace(s[1..])
  }

  function Shown(reason: Option<string>): string {
    Strip(Replace(if reason.Some? then reason.value else ""))
  }

  function Label(shown: string): string {
    if shown == [] then HEAD else HEAD + " (" + shown + ")"
  }

  function WithFailingPrefix(detail: string, reason: Option<string>): string {
    Label(Shown(reason)) + SEPARATOR + WithoutPrefix(detail)
  }

  // ----- what the pattern means

  /** `detail[..n]` is a marker: the head alone, or the head with a bracketed reason of one line. */
  ghost predicate IsMarker(detail: string, n: nat) {
    n <= |detail| &&
    (detail[..n] == HEAD + SEPARATOR ||
     exists reason: string :: '\n' !in reason && detail[..n] == HEAD + " (" + reason + CLOSE)
  }

  lemma {:induction false} FirstCloseIsFirst(s: string, i: nat)
    ensures match FirstClose(s, i)
            case Some(j) => i <= j && At(s, j, CLOSE) && (forall k | i <= k < j :: s[k] != '\n' && !At(s, k, CLOSE))
            case None => forall j | i <= j && At(s, j, CLOSE) :: exists k :: i <= k < j && s[k] == '\n'
    decreases |s| - i
  {
    if i < |s| && !At(s, i, CLOSE) && s[i] != '\n' {
      FirstCloseIsFirst(s, i + 1);
    }
    if i < |s| && !At(s, i, CLOSE) && s[i] == '\n' {
      assert forall j | i <= j && At(s, j, CLOSE) :: i <= i < j && s[i] == '\n';
    }
  }

  lemma BracketedMarker(detail: string, n: nat, reason: string)
    requires n <= |detail| && detail[..n] == HEAD + " (" + reason + CLOSE
    ensures At(detail, 0, HEAD) && At(detail, |HEAD|, " (") && n == |HEAD| + 2 + |reason| + |CLOSE|
    ensures At(detail, n - |CLOSE|, CLOSE)
    ensures forall k | 0 <= k < |reason| :: detail[|HEAD| + 2 + k] == reason[k]
  {
    var m := HEAD + " (" + reason + CLOSE;
    assert detail[..n][..|HEAD|] == m[..|HEAD|] == HEAD;
    assert detail[..n][|HEAD|..|HEAD| + 2] == m[|HEAD|..|HEAD| + 2] == " (";
    assert detail[..n][n - |CLOSE|..] == m[n - |CLOSE|..] == CLOSE;
    forall k | 0 <= k < |reason| ensures detail[|HEAD| + 2 + k] == reason[k] {
      assert detail[..n][|HEAD| + 2 + k] == m[|HEAD| + 2 + k];
    }
  }

  lemma MarkerFromParts(detail: string, j: nat)
    requires At(detail, 0, HEAD) && At(detail, |HEAD|, " (") && |HEAD| + 2 <= j && At(detail, j, CLOSE)
    requires forall k | |HEAD| + 2 <= k < j :: detail[k] != '\n'
    ensures IsMarker(detail, j + |CLOSE|)
  {
    var reason := detail[|HEAD| + 2..j];
    assert detail[..j + |CLOSE|] == detail[0..|HEAD|] + detail[|HEAD|..|HEAD| + 2] + reason + detail[j..j + |CLOSE|];
    assert '\n' !in reason;
  }

  lemma BareMarker(detail: string, n: nat)
    ensures n <= |detail| && detail[..n] == HEAD + SEPARATOR <==>
              n == |HEAD| + |SEPARATOR| && At(detail, 0, HEAD) && At(detail, |HEAD|, SEPARATOR)
  {
    var m := HEAD + SEPARATOR;
    assert m[..|HEAD|] == HEAD && m[|HEAD|..] == SEPARATOR;
    if n <= |detail| && detail[..n] == m {
      assert detail[..n][..|HEAD|] == detail[0..|HEAD|] && detail[..n][|HEAD|..] == detail[|HEAD|..n];
    }
    if n == |HEAD| + |SEPARATOR| && At(detail, 0, HEAD) && At(detail, |HEAD|, SEPARATOR) {
      assert detail[..n] == detail[0..|HEAD|] + detail[|HEAD|..n];
    }
  }

  lemma SecondCharacter(s: string, i: int)
    ensures At(s, i, " (") ==> s[i + 1] == '('
    ensures At(s, i, SEPARATOR) ==> s[i + 1] == '\U{2014}'
  {
    if At(s, i, " (") {
      assert s[i..i + 2][1] == s[i + 1];
    }
    SeparatorAtIsAt(s, i);
  }

  lemma MarkerFound(detail: string)
    ensures MarkerLength(detail).Some? ==> IsMarker(detail, MarkerLength(detail).value)
  {
    var h := |HEAD|;
    FirstCloseIsFirst(detail, h + 2);
    if At(detail, 0, HEAD) {
      if At(detail, h, " (") && FirstClose(detail, h + 2).Some? {
        MarkerFromParts(detail, FirstClose(detail, h + 2).value);
      } else {
        BareMarker(detail, h + 3);
      }
    }
  }

  /** The first closing separator comes no later than any that no line break precedes. */
  lemma FirstCloseBefore(s: string, i: nat, j: nat)
    requires i <= j && At(s, j, CLOSE) && forall k | i <= k < j :: s[k] != '\n'
    ensures FirstClose(s, i).Some? && FirstClose(s, i).value <= j
  {
    FirstCloseIsFirst(s, i);
  }

  lemma BracketedNotMissed(detail: string, m: nat, reason: string)
    requires m <= |detail| && detail[..m] == HEAD + " (" + reason + CLOSE && '\n' !in reason
    ensures MarkerLength(detail).Some? && MarkerLength(detail).value <= m
  {
    var h := |HEAD| + 2;
    BracketedMarker(detail, m, reason);
    forall k | h <= k < m - |CLOSE| ensures detail[k] != '\n' {
      assert detail[h + (k - h)] == reason[k - h];
    }
    FirstCloseBefore(detail, h, m - |CLOSE|);
  }

  lemma MarkerNotMissed(detail: string, m: nat)
    requires IsMarker(detail, m)
    ensures MarkerLength(detail).Some? && MarkerLength(detail).value <= m
  {
    if detail[..m] == HEAD + SEPARATOR {
      SecondCharacter(detail, |HEAD|);
      BareMarker(detail, m);
    } else {
      var reason: string :| '\n' !in reason && detail[..m] == HEAD + " (" + reason + CLOSE;
      BracketedNotMissed(detail, m, reason);
    }
  }

  /** The engine's answer is the shortest marker, and it finds one whenever there is one. */
  lemma ShortestMarker(detail: string)
    ensures match MarkerLength(detail)
            case Some(n) => IsMarker(detail, n) && forall m: nat | m < n :: !IsMarker(detail, m)
            case None => forall m: nat :: !IsMarker(detail, m)
  {
    MarkerFound(detail);
    forall m: nat | IsMarker(detail, m) ensures MarkerLength(detail).Some? && MarkerLength(detail).value <= m {
      MarkerNotMissed(detail, m);
    }
  }

  // ----- what the replacement leaves behind

  lemma SeparatorInTail(head: string, r: string, i: nat)
    requires SeparatorAt(head + r, i) && i >= |head|
    ensures SeparatorAt(r, i - |head|)
  {
  }

  /** A string that starts with a separator after replacing started with one before, and was replaced. */
  lemma NoSeparatorInFront(s: string)
    requires s != [] && !At(s, 0, SEPARATOR)
    ensures !SeparatorAt([s[0]] + Replace(s[1..]), 0)
  {
    SeparatorAtIsAt(s, 0);
    var r := Replace(s[1..]);
    assert forall k | 0 <= k < |r| :: r[k] == s[k + 1] || r[k] == '-';
  }

  lemma BehindHyphen(t: string, r: string, i: nat)
    requires t == " - " + r && SeparatorAt(t, i) && (i >= 3 ==> i >= 4 && r[i - 4] == '-')
    ensures i >= 1 && t[i - 1] == '-'
  {
    assert t[0] == ' ' && t[1] == '-' && t[2] == ' ';
  }

  /** Overlapping separators survive a non-overlapping replace, but only right behind a hyphen. */
  lemma {:induction false} LeftoverFollowsHyphen(s: string, i: nat)
    requires SeparatorAt(Replace(s), i)
    ensures i >= 1 && Replace(s)[i - 1] == '-'
  {
    var t := Replace(s);
    if At(s, 0, SEPARATOR) {
      var r := Replace(s[3..]);
      assert t == " - " + r;
      if i >= 3 {
        SeparatorInTail(" - ", r, i);
        LeftoverFollowsHyphen(s[3..], i - 3);
      }
      BehindHyphen(t, r, i);
    } else {
      var r := Replace(s[1..]);
      assert t == [s[0]] + r;
      NoSeparatorInFront(s);
      if i >= 1 {
        SeparatorInTail([s[0]], r, i);
        LeftoverFollowsHyphen(s[1..], i - 1);
        assert t[i - 1] == r[i - 2];
      }
    }
  }

  predicate CloseAt(s: string, i: int) {
    0 <= i < |s| && s[i] == ')' && SeparatorAt(s, i + 1)
  }

  lemma CloseAtIsAt(s: string, i: int)
    ensures CloseAt(s, i) <==> At(s, i, CLOSE)
  {
    if CloseAt(s, i) {
      assert s[i..i + 4] == CLOSE;
    }
    if At(s, i, CLOSE) {
      var t := s[i..i + 4];
      assert t[0] == s[i] && t[1] == s[i + 1] && t[2] == s[i + 2] && t[3] == s[i + 3];
    }
  }

  lemma ReplacedHasNoClose(s: string, i: nat)
    ensures !CloseAt(Replace(s), i)
  {
    if SeparatorAt(Replace(s), i + 1) {
      LeftoverFollowsHyphen(s, i + 1);
    }
  }

  lemma CloseInPart(left: string, mid: string, right: string, i: int)
    requires CloseAt(mid, i)
    ensures CloseAt(left + mid + right, |left| + i)
  {
    var s := left + mid + right;
    assert forall k | 0 <= k < |mid| :: s[|left| + k] == mid[k];
  }

  lemma PartHasNoClose(raw: string, left: string, mid: string, right: string, i: int)
    requires Replace(raw) == left + mid + right
    ensures !CloseAt(mid, i)
  {
    if CloseAt(mid, i) {
      CloseInPart(left, mid, right, i);
      ReplacedHasNoClose(raw, |left| + i);
    }
  }

  /** So a shown reason can hold a separator, but never one right behind a closing bracket. */
  lemma ShownHasNoClose(reason: Option<string>, i: int)
    ensures !CloseAt(Shown(reason), i)
  {
    var raw := if reason.Some? then reason.value else "";
    var left, right := StripSplit(Replace(raw));
    PartHasNoClose(raw, left, Shown(reason), right, i);
  }

  // ----- what the reader sees

  /** Without an em dash between blanks, the reason is left as it is. */
  lemma {:induction false} NothingToReplace(s: string)
    requires forall i :: !SeparatorAt(s, i)
    ensures Replace(s) == s
  {
    SeparatorAtIsAt(s, 0);
    if s != [] {
      forall i ensures !SeparatorAt(s[1..], i) {
        assert SeparatorAt(s[1..], i) ==> SeparatorAt(s, i + 1);
      }
      NothingToReplace(s[1..]);
    }
  }

  lemma NotYetAtFront(a: string, dash: string, b: string)
    requires a != [] && |dash| == 3 && !SeparatorAt(a + dash, 0)
    ensures !SeparatorAt(a + dash + b, 0) && (a + dash + b)[0] == a[0] && (a + dash + b)[1..] == a[1..] + dash + b
  {
    var t, s := a + dash, a + dash + b;
    assert s[0] == t[0] && s[1] == t[1] && s[2] == t[2];
  }

  lemma ReplaceAtFront(s: string, dash: string, b: string)
    requires dash == " \U{2014} " && s == dash + b
    ensures Replace(s) == " - " + Replace(b)
  {
    assert SeparatorAt(s, 0) && s[3..] == b;
    SeparatorAtIsAt(s, 0);
  }

  lemma ReplaceBehind(s: string)
    requires s != [] && !SeparatorAt(s, 0)
    ensures Replace(s) == [s[0]] + Replace(s[1..])
  {
    SeparatorAtIsAt(s, 0);
  }

  lemma PutBack(a: string, x: string, y: string)
    requires a != []
    ensures [a[0]] + (a[1..] + x + y) == a + x + y
  {
  }

  /** The first one becomes a hyphen between blanks, and what follows it is treated alike. */
  lemma {:induction false} FirstIsReplaced(a: string, dash: string, b: string)
    requires dash == " \U{2014} " && forall i | 0 <= i < |a| :: !SeparatorAt(a + dash, i)
    ensures Replace(a + dash + b) == a + " - " + Replace(b)
  {
    if a == [] {
      ReplaceAtFront(a + dash + b, dash, b);
    } else {
      NotYetAtFront(a, dash, b);
      assert (a + dash)[1..] == a[1..] + dash;
      forall i | 0 <= i < |a[1..]| ensures !SeparatorAt(a[1..] + dash, i) {
        assert SeparatorAt(a[1..] + dash, i) ==> SeparatorAt(a + dash, i + 1);
      }
      FirstIsReplaced(a[1..], dash, b);
      ReplaceBehind(a + dash + b);
      PutBack(a, " - ", Replace(b));
    }
  }

  lemma UnmarkedStays(detail: string)
    requires !(HEAD <= detail)
    ensures WithoutPrefix(detail) == detail
  {
  }

  lemma ShownAsItIs(left: string, reason: string, right: string)
    requires AllSpace(left) && AllSpace(right) && Trimmed(reason)
    requires forall i :: !SeparatorAt(left + reason + right, i)
    ensures Shown(Some(left + reason + right)) == reason
  {
    NothingToReplace(left + reason + right);
    StripUnique(left, reason, right);
  }

  /** A line without a marker is put behind the sign, the words and the reason in brackets. */
  lemma ReasonIsShown(detail: string, left: string, reason: string, right: string, marker: string)
    requires AllSpace(left) && AllSpace(right) && Trimmed(reason) && reason != ""
    requires forall i :: !SeparatorAt(left + reason + right, i)
    requires marker == "\U{26A0} Collection failing" && !(marker <= detail)
    ensures WithFailingPrefix(detail, Some(left + reason + right))
         == marker + " (" + reason + ") \U{2014} " + detail
  {
    ShownAsItIs(left, reason, right);
    UnmarkedStays(detail);
    Bracketed(reason, detail);
  }

  lemma BlankHoldsNoSeparator(s: string, i: int)
    requires AllSpace(s)
    ensures !SeparatorAt(s, i)
  {
    if 0 <= i < |s| - 1 {
      assert IsSpace(s[i + 1]);
    }
  }

  /** Without a reason, or with a blank one, behind the sign and the words alone. */
  lemma NoReasonIsShown(detail: string, reason: Option<string>, marker: string)
    requires reason.Some? ==> AllSpace(reason.value)
    requires marker == "\U{26A0} Collection failing" && !(marker <= detail)
    ensures WithFailingPrefix(detail, reason) == marker + " \U{2014} " + detail
  {
    UnmarkedStays(detail);
    var raw := if reason.Some? then reason.value else "";
    forall i ensures !SeparatorAt(raw, i) {
      BlankHoldsNoSeparator(raw, i);
    }
    assert raw + [] + [] == raw;
    ShownAsItIs(raw, [], []);
  }

  // ----- stripping inverts prefixing

  lemma FiveParts(a: string, b: string, c: string, e: string, rest: string, d: string)
    requires d == a + b + c + e + rest
    ensures At(d, 0, a) && At(d, |a|, b) && At(d, |a| + |b|, c) && At(d, |a| + |b| + |c|, e)
    ensures d[|a| + |b| + |c| + |e|..] == rest && |d| == |a| + |b| + |c| + |e| + |rest|
  {
    assert d[0..|a|] == a && d[|a|..|a| + |b|] == b && d[|a| + |b|..|a| + |b| + |c|] == c;
    assert d[|a| + |b| + |c|..|a| + |b| + |c| + |e|] == e;
  }

  lemma PartAt(d: string, i: nat, part: string, k: nat)
    requires At(d, i, part) && k < |part|
    ensures d[i + k] == part[k]
  {
    assert d[i..i + |part|][k] == d[i + k];
  }

  lemma Bracketed(shown: string, base: string)
    requires shown != []
    ensures Label(shown) + SEPARATOR + base == HEAD + " (" + shown + CLOSE + base
  {
    assert ")" + SEPARATOR == CLOSE;
    var x := HEAD + " (" + shown;
    assert x + ")" + SEPARATOR == x + (")" + SEPARATOR);
  }

  /** The line as it reads behind the head. */
  lemma MarkedDetail(shown: string, base: string, d: string)
    requires shown != [] && d == Label(shown) + SEPARATOR + base
    ensures At(d, 0, HEAD) && At(d, |HEAD|, " (") && !At(d, |HEAD|, SEPARATOR)
    ensures var h := |HEAD| + 2;
            && |d| == h + |shown| + |CLOSE| + |base|
            && (forall k | 0 <= k < |shown| :: d[h + k] == shown[k])
            && At(d, h + |shown|, CLOSE) && d[h + |shown| + |CLOSE|..] == base
  {
    Bracketed(shown, base);
    FiveParts(HEAD, " (", shown, CLOSE, base, d);
    PartAt(d, |HEAD|, " (", 1);
    SeparatorAtIsAt(d, |HEAD|);
    forall k | 0 <= k < |shown| ensures d[|HEAD| + 2 + k] == shown[k] {
      PartAt(d, |HEAD| + 2, shown, k);
    }
  }

  /** Behind the bracket, no closing separator starts inside the shown reason. */
  lemma NoEarlierClose(shown: string, d: string, h: nat, j: nat)
    requires h <= j < h + |shown| && h + |shown| + |CLOSE| <= |d| && !CloseAt(shown, j - h)
    requires (forall k | 0 <= k < |shown| :: d[h + k] == shown[k]) && At(d, h + |shown|, CLOSE)
    ensures !At(d, j, CLOSE)
  {
    CloseAtIsAt(d, h + |shown|);
    CloseAtIsAt(d, j);
    var k := j - h;
    assert d[h + k] == shown[k] && (k + 1 < |shown| ==> d[h + k + 1] == shown[k + 1]);
    assert k + 2 < |shown| ==> d[h + k + 2] == shown[k + 2];
    assert k + 3 < |shown| ==> d[h + k + 3] == shown[k + 3];
  }

  lemma FirstCloseBehind(d: string, h: nat, shown: string)
    requires h + |shown| <= |d| && At(d, h + |shown|, CLOSE) && forall k | 0 <= k < |shown| :: d[h + k] == shown[k]
    requires forall j | h <= j < h + |shown| :: !At(d, j, CLOSE)
    ensures FirstClose(d, h) == if '\n' in shown then None else Some(h + |shown|)
  {
    FirstCloseIsFirst(d, h);
    if '\n' in shown {
      var k :| 0 <= k < |shown| && shown[k] == '\n';
      assert d[h + k] == '\n';
    } else {
      forall j | h <= j < h + |shown| ensures d[j] != '\n' {
        assert d[h + (j - h)] == shown[j - h];
      }
    }
  }

  lemma BracketedLength(d: string)
    requires At(d, 0, HEAD) && At(d, |HEAD|, " (") && !At(d, |HEAD|, SEPARATOR)
    ensures MarkerLength(d) == match FirstClose(d, |HEAD| + 2) case Some(j) => Some(j + |CLOSE|) case None => None
  {
  }

  lemma FirstCloseOfShown(shown: string, d: string, h: nat)
    requires (forall i :: !CloseAt(shown, i)) && h + |shown| + |CLOSE| <= |d| && At(d, h + |shown|, CLOSE)
    requires forall k | 0 <= k < |shown| :: d[h + k] == shown[k]
    ensures FirstClose(d, h) == if '\n' in shown then None else Some(h + |shown|)
  {
    forall j | h <= j < h + |shown| ensures !At(d, j, CLOSE) {
      NoEarlierClose(shown, d, h, j);
    }
    FirstCloseBehind(d, h, shown);
  }

  lemma MarkerLengthIs(shown: string, d: string)
    requires forall i :: !CloseAt(shown, i)
    requires At(d, 0, HEAD) && At(d, |HEAD|, " (") && !At(d, |HEAD|, SEPARATOR)
    requires var h := |HEAD| + 2; At(d, h + |shown|, CLOSE) && forall k | 0 <= k < |shown| :: d[h + k] == shown[k]
    ensures MarkerLength(d) == if '\n' in shown then None else Some(|HEAD| + 2 + |shown| + |CLOSE|)
  {
    FirstCloseOfShown(shown, d, |HEAD| + 2);
    BracketedLength(d);
  }

  /** The pattern finds the marker of a one-line reason whole, and that of any other not at all. */
  lemma MarkerOfShown(shown: string, base: string, d: string)
    requires (forall i :: !CloseAt(shown, i)) && shown != [] && d == Label(shown) + SEPARATOR + base
    ensures MarkerLength(d) == if '\n' in shown then None else Some(|HEAD| + 2 + |shown| + |CLOSE|)
    ensures d[|HEAD| + 2 + |shown| + |CLOSE|..] == base
  {
    MarkedDetail(shown, base, d);
    MarkerLengthIs(shown, d);
  }

  lemma MarkerWithoutReason(base: string)
    ensures MarkerLength(HEAD + SEPARATOR + base) == Some(|HEAD| + |SEPARATOR|)
  {
    var d := HEAD + SEPARATOR + base;
    assert d[..|HEAD| + 3] == HEAD + SEPARATOR;
    BareMarker(d, |HEAD| + 3);
    SecondCharacter(d, |HEAD|);
  }

  /** Taking the marker off again gives back the detail exactly when the shown reason is one line. */
  lemma StripInvertsAdd(detail: string, reason: Option<string>)
    ensures WithoutPrefix(WithFailingPrefix(detail, reason)) ==
              if '\n' in Shown(reason) then WithFailingPrefix(detail, reason) else WithoutPrefix(detail)
  {
    var shown, base := Shown(reason), WithoutPrefix(detail);
    if shown == [] {
      MarkerWithoutReason(base);
      assert (HEAD + SEPARATOR + base)[|HEAD| + |SEPARATOR|..] == base;
    } else {
      forall i ensures !CloseAt(shown, i) {
        ShownHasNoClose(reason, i);
      }
      MarkerOfShown(shown, base, WithFailingPrefix(detail, reason));
    }
  }

  ghost predicate SameBlanks(s: string, r: string) {
    |s| == |r| && forall i | 0 <= i < |s| :: IsSpace(s[i]) == IsSpace(r[i])
  }

  /** What stripping keeps stands from `n` to `m`. */
  ghost predicate StripsTo(s: string, n: nat, m: nat) {
    n <= m <= |s| && AllSpace(s[..n]) && Trimmed(s[n..m]) && AllSpace(s[m..])
  }

  lemma StripBounds(s: string) returns (n: nat, m: nat)
    ensures StripsTo(s, n, m)
  {
    var left, right := StripSplit(s);
    n, m := |left|, |left| + |Strip(s)|;
    assert s[..n] == left && s[n..m] == Strip(s) && s[m..] == right;
  }

  lemma StripIs(s: string, n: nat, m: nat)
    requires StripsTo(s, n, m)
    ensures Strip(s) == s[n..m]
  {
    assert s[..n] + s[n..m] + s[m..] == s;
    StripUnique(s[..n], s[n..m], s[m..]);
  }

  lemma AllSpaceAligned(s: string, r: string, i: nat, j: nat)
    requires SameBlanks(s, r) && i <= j <= |s| && AllSpace(s[i..j])
    ensures AllSpace(r[i..j])
  {
    forall k | 0 <= k < j - i ensures IsSpace(r[i..j][k]) {
      assert IsSpace(s[i..j][k]) && s[i..j][k] == s[i + k] && r[i..j][k] == r[i + k];
    }
  }

  lemma TrimmedAligned(s: string, r: string, i: nat, j: nat)
    requires SameBlanks(s, r) && i <= j <= |s| && Trimmed(s[i..j])
    ensures Trimmed(r[i..j])
  {
    if i < j {
      assert s[i..j][0] == s[i] && s[i..j][j - i - 1] == s[j - 1];
      assert r[i..j][0] == r[i] && r[i..j][j - i - 1] == r[j - 1];
    }
  }

  lemma StripsToAligned(s: string, r: string, n: nat, m: nat)
    requires SameBlanks(s, r) && StripsTo(s, n, m)
    ensures StripsTo(r, n, m)
  {
    assert s[..n] == s[0..n] && r[..n] == r[0..n] && s[m..] == s[m..|s|] && r[m..] == r[m..|r|];
    AllSpaceAligned(s, r, 0, n);
    TrimmedAligned(s, r, n, m);
    AllSpaceAligned(s, r, m, |s|);
  }

  /** Two strings with blanks at the same places are stripped at the same places. */
  lemma StripAligned(s: string, r: string) returns (n: nat, m: nat)
    requires SameBlanks(s, r)
    ensures n <= m <= |s| && Strip(s) == s[n..m] && Strip(r) == r[n..m]
  {
    n, m := StripBounds(s);
    StripsToAligned(s, r, n, m);
    StripIs(s, n, m);
    StripIs(r, n, m);
  }

  /** Replacing and stripping neither make a line break inside the reason nor hide one. */
  lemma ShownLineBreaks(reason: string)
    ensures '\n' in Shown(Some(reason)) <==> '\n' in Strip(reason)
  {
    var r := Replace(reason);
    var n, m := StripAligned(reason, r);
    forall i | 0 <= i < m - n ensures r[n..m][i] == '\n' <==> reason[n..m][i] == '\n' {
      assert r[n..m][i] == r[n + i] && reason[n..m][i] == reason[n + i];
    }
  }

  ghost predicate OneLine(reason: Option<string>) {
    reason.Some? ==> '\n' !in Strip(reason.value)
  }

  lemma OneLineShown(reason: Option<string>)
    ensures OneLine(reason) <==> '\n' !in Shown(reason)
  {
    if reason.Some? {
      ShownLineBreaks(reason.value);
    } else {
      assert Replace("") == "";
    }
  }

  /** A new reason replaces the earlier one exactly when the earlier one had no line break inside. */
  lemma ReprefixReplacesExactlyWhen(detail: string, earlier: Option<string>, later: Option<string>)
    ensures WithFailingPrefix(WithFailingPrefix(detail, earlier), later) == WithFailingPrefix(detail, later)
            <==> OneLine(earlier)
  {
    OneLineShown(earlier);
    StripInvertsAdd(detail, earlier);
    var once := WithFailingPrefix(detail, earlier);
    if !OneLine(earlier) {
      assert |WithFailingPrefix(once, later)| == |Label(Shown(later))| + 3 + |once|;
      assert |once| > |WithoutPrefix(detail)|;
    }
  }

  function Repeatedly(detail: string, reasons: seq<Option<string>>): string {
    if reasons == [] then detail
    else WithFailingPrefix(Repeatedly(detail, reasons[..|reasons| - 1]), reasons[|reasons| - 1])
  }

  /** However often a card fails, its detail carries one marker: the last one. */
  lemma {:induction false} MarkersNeverStack(detail: string, reasons: seq<Option<string>>)
    requires reasons != [] && forall i | 0 <= i < |reasons| - 1 :: OneLine(reasons[i])
    ensures Repeatedly(detail, reasons) == WithFailingPrefix(detail, reasons[|reasons| - 1])
  {
    var n := |reasons| - 1;
    if n > 0 {
      MarkersNeverStack(detail, reasons[..n]);
      assert reasons[..n][n - 1] == reasons[n - 1];
      ReprefixReplacesExactlyWhen(detail, reasons[n - 1], reasons[n]);
    } else {
      assert reasons[..0] == [];
    }
  }

  /** A reason with a line break inside makes the markers pile up. */
  lemma LineBreakStacks()
    ensures var (reason, once) := (Some("a\nb"), WithFailingPrefix("", Some("a\nb")));
            WithFailingPrefix(once, reason) != WithFailingPrefix("", reason)
  {
    StripTrimmed("a\nb");
    assert "a\nb"[1] == '\n';
    ReprefixReplacesExactlyWhen("", Some("a\nb"), Some("a\nb"));
  }
}
