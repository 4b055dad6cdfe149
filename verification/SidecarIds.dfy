/** `normalize_sidecar_id`: one id for a host under several names. */
module SidecarIds {
  // Modelled is `app/services/account_identity.py`.

  import opened PyString

  /** `lower()` on the ASCII letters; every other character stays. */
  function LowerChar(c: char): char {
    if 'A' <= c <= 'Z' then c + ('a' - 'A') else c
  }

  function Lower(s: string): (r: string)
    ensures |r| == |s| && forall i | 0 <= i < |s| :: r[i] == LowerChar(s[i])
  {
    seq(|s|, i requires 0 <= i < |s| => LowerChar(s[i]))
  }

  /** `s.split(".", 1)[0]`. */
  function FirstLabel(s: string): (r: string)
    ensures r <= s && '.' !in r
  {
    if s == [] || s[0] == '.' then [] else [s[0]] + FirstLabel(s[1..])
  }

  predicate IsDigit(c: char) { '0' <= c <= '9' }

  predicate AllDigits(s: string) { forall i | 0 <= i < |s| :: IsDigit(s[i]) }

  /** `n` groups of one to three digits, with dots between them. */
  predicate Octets(s: string, n: nat) {
    if n <= 1 then 1 <= |s| <= 3 && AllDigits(s)
    else exists k | 1 <= k <= 3 && k < |s| :: AllDigits(s[..k]) && s[k] == '.' && Octets(s[k + 1..], n - 1)
  }

  function Normalize(raw: string): string {
    var h := Strip(raw);
    if h == [] || Octets(h, 4) then Lower(h) else Lower(FirstLabel(h))
  }

  lemma {:induction false} OctetCharacters(s: string, n: nat)
    requires Octets(s, n)
    ensures forall i | 0 <= i < |s| :: IsDigit(s[i]) || s[i] == '.'
  {
    if n > 1 {
      var k :| 1 <= k <= 3 && k < |s| && AllDigits(s[..k]) && s[k] == '.' && Octets(s[k + 1..], n - 1);
      OctetCharacters(s[k + 1..], n - 1);
      forall i | 0 <= i < |s| ensures IsDigit(s[i]) || s[i] == '.' {
        if i < k {
          assert s[..k][i] == s[i];
        } else if i > k {
          assert s[k + 1..][i - k - 1] == s[i];
        }
      }
    }
  }

  lemma {:induction false} NoDotIsOneLabel(s: string)
    requires '.' !in s
    ensures FirstLabel(s) == s
  {
    if s != [] {
      NoDotIsOneLabel(s[1..]);
    }
  }

  lemma LowerKeeps(c: char)
    ensures LowerChar(LowerChar(c)) == LowerChar(c)
    ensures IsSpace(LowerChar(c)) == IsSpace(c)
    ensures LowerChar(c) == '.' <==> c == '.'
    ensures IsDigit(c) ==> LowerChar(c) == c
  {
  }

  lemma LowerOnceIsEnough(s: string)
    ensures Lower(Lower(s)) == Lower(s)
  {
    forall i | 0 <= i < |s| ensures Lower(Lower(s))[i] == Lower(s)[i] {
      LowerKeeps(s[i]);
    }
  }

  lemma LowerKeepsDots(s: string)
    requires '.' !in s
    ensures '.' !in Lower(s)
  {
    forall i | 0 <= i < |s| ensures Lower(s)[i] != '.' {
      LowerKeeps(s[i]);
    }
  }

  /** A trailing blank is stripped, so the result is shorter. */
  lemma StripShortens(s: string)
    requires s != [] && IsSpace(s[|s| - 1])
    ensures |Strip(s)| < |s|
  {
    var left, right := StripSplit(s);
    assert left == [] && right == [] ==> s == Strip(s);
  }

  /** Normalising an id that is already a lower-cased first label. */
  lemma NormalizeLabel(id: string)
    requires '.' !in id && Lower(id) == id
    ensures Trimmed(id) ==> Normalize(id) == id
    ensures id != [] && IsSpace(id[|id| - 1]) ==> |Normalize(id)| < |id|
  {
    if Trimmed(id) {
      StripTrimmed(id);
      NoDotIsOneLabel(id);
    } else if id != [] && IsSpace(id[|id| - 1]) {
      StripShortens(id);
    }
  }

  /** Normalising the lower-cased first label of a trimmed name. */
  lemma NormalizeCut(h: string)
    requires Trimmed(h) && h != []
    ensures var id := Lower(FirstLabel(h));
            Normalize(id) == id <==> FirstLabel(h) == [] || !IsSpace(FirstLabel(h)[|FirstLabel(h)| - 1])
  {
    var cut := FirstLabel(h);
    LowerOnceIsEnough(cut);
    LowerKeepsDots(cut);
    if cut != [] {
      assert cut[0] == h[0];
      LowerKeeps(cut[0]);
      LowerKeeps(cut[|cut| - 1]);
    }
    NormalizeLabel(Lower(cut));
  }

  lemma NormalizeAddress(h: string)
    requires Octets(h, 4) && Trimmed(h)
    ensures Lower(h) == h && Normalize(h) == h
  {
    OctetCharacters(h, 4);
    forall i | 0 <= i < |h| ensures Lower(h)[i] == h[i] {
      LowerKeeps(h[i]);
    }
    assert Lower(h) == h;
    StripTrimmed(h);
  }

  ghost predicate IsOctet(a: string) {
    1 <= |a| <= 3 && forall i | 0 <= i < |a| :: '0' <= a[i] <= '9'
  }

  /** Four groups of one to three digits. */
  ghost predicate DottedQuad(h: string, a: string, b: string, c: string, d: string) {
    h == a + "." + (b + "." + (c + "." + d)) && IsOctet(a) && IsOctet(b) && IsOctet(c) && IsOctet(d)
  }

  lemma OneMoreOctet(a: string, rest: string, n: nat)
    requires IsOctet(a) && Octets(rest, n) && n >= 1
    ensures var more := n + 1; Octets(a + "." + rest, more)
  {
    var h := a + "." + rest;
    assert h[..|a|] == a && h[|a|] == '.' && h[|a| + 1..] == rest;
  }

  lemma FirstOctet(h: string, n: nat, m: nat) returns (a: string, rest: string)
    requires n > 1 && m == n - 1 && Octets(h, n)
    ensures h == a + "." + rest && IsOctet(a) && Octets(rest, m)
  {
    var k :| 1 <= k <= 3 && k < |h| && AllDigits(h[..k]) && h[k] == '.' && Octets(h[k + 1..], n - 1);
    a, rest := h[..k], h[k + 1..];
  }

  lemma QuadIsOctets(h: string, a: string, b: string, c: string, d: string)
    requires DottedQuad(h, a, b, c, d)
    ensures Octets(h, 4)
  {
    OneMoreOctet(c, d, 1);
    OneMoreOctet(b, c + "." + d, 2);
    OneMoreOctet(a, b + "." + (c + "." + d), 3);
  }

  lemma OctetsAreQuad(h: string) returns (a: string, b: string, c: string, d: string)
    requires Octets(h, 4)
    ensures DottedQuad(h, a, b, c, d)
  {
    var three, two;
    a, three := FirstOctet(h, 4, 3);
    b, two := FirstOctet(three, 3, 2);
    c, d := FirstOctet(two, 2, 1);
  }

  /** An address is its own id, whatever white space is around it. */
  lemma AddressIsKept(left: string, h: string, right: string, a: string, b: string, c: string, d: string)
    requires AllSpace(left) && AllSpace(right) && DottedQuad(h, a, b, c, d)
    ensures Normalize(left + h + right) == h
  {
    QuadIsOctets(h, a, b, c, d);
    OctetCharacters(h, 4);
    assert !IsSpace(h[0]) && !IsSpace(h[|h| - 1]);
    StripUnique(left, h, right);
    NormalizeAddress(h);
  }

  lemma NotOctets(h: string)
    requires forall a, b, c, d :: !DottedQuad(h, a, b, c, d)
    ensures !Octets(h, 4)
  {
    if Octets(h, 4) {
      var a, b, c, d := OctetsAreQuad(h);
    }
  }

  lemma CutAndLowered(h: string, cut: string, rest: string, id: string)
    requires h == cut + rest && '.' !in cut && (rest == [] || rest[0] == '.')
    requires id == Lower(if h == [] then h else FirstLabel(h))
    ensures |id| == |cut|
    ensures forall i | 0 <= i < |id| :: id[i] == if 'A' <= cut[i] <= 'Z' then (cut[i] as int + 32) as char else cut[i]
  {
    FirstLabelIs(cut, rest);
  }

  /** Any other name has the part before its first dot as its id, with small letters for capitals. */
  lemma NameIsCut(left: string, h: string, right: string, cut: string, rest: string, id: string)
    requires AllSpace(left) && AllSpace(right) && Trimmed(h) && id == Normalize(left + h + right)
    requires h == cut + rest && '.' !in cut && (rest == [] || rest[0] == '.')
    requires forall a, b, c, d :: !DottedQuad(h, a, b, c, d)
    ensures |id| == |cut|
    ensures forall i | 0 <= i < |id| :: id[i] == if 'A' <= cut[i] <= 'Z' then (cut[i] as int + 32) as char else cut[i]
  {
    NotOctets(h);
    StripUnique(left, h, right);
    CutAndLowered(h, cut, rest, id);
  }

  /** The names on which the normalisation is settled after one application. */
  ghost predicate Settles(raw: string) {
    var h := Strip(raw);
    Octets(h, 4) || FirstLabel(h) == [] || !IsSpace(FirstLabel(h)[|FirstLabel(h)| - 1])
  }

  /**
   * Normalising twice is normalising once exactly when the first label does not end in white space:
   * the white space is stripped from the whole name, before the label is cut out of it.
   */
  lemma IdempotentExactlyWhen(raw: string)
    ensures Normalize(Normalize(raw)) == Normalize(raw) <==> Settles(raw)
  {
    var h := Strip(raw);
    var left, right := StripSplit(raw);
    if h != [] && Octets(h, 4) {
      NormalizeAddress(h);
    } else if h != [] {
      NormalizeCut(h);
    } else {
      assert Lower([]) == [];
      NormalizeLabel([]);
    }
  }

  lemma {:induction false} FirstLabelIs(cut: string, rest: string)
    requires '.' !in cut && (rest == [] || rest[0] == '.')
    ensures FirstLabel(cut + rest) == cut
  {
    if cut == [] {
      assert cut + rest == rest;
    } else {
      assert (cut + rest)[1..] == cut[1..] + rest;
      FirstLabelIs(cut[1..], rest);
    }
  }

  /** A name that starts with a letter: stripped of the white space behind it and cut behind its first label. */
  lemma NormalizeName(cut: string, rest: string, spaces: string)
    requires cut != [] && !IsDigit(cut[0]) && '.' !in cut && (rest == [] || rest[0] == '.')
    requires Trimmed(cut + rest) && AllSpace(spaces)
    ensures Normalize(cut + rest + spaces) == Lower(cut)
  {
    var h := cut + rest;
    StripUnique([], h, spaces);
    assert [] + h + spaces == h + spaces;
    FirstLabelIs(cut, rest);
    assert h[0] == cut[0];
    if Octets(h, 4) {
      OctetCharacters(h, 4);
    }
  }

  /** Lower-case labels without white space at their ends or a digit in front. */
  predicate PlainLabel(x: string) {
    x != [] && Trimmed(x) && '.' !in x && !IsDigit(x[0]) && Lower(x) == x
  }

  /** With a blank behind its first label a name takes two applications: `x .rest` becomes `x ` and then `x`. */
  lemma BlankBehindLabel(x: string, rest: string)
    requires PlainLabel(x) && rest != [] && !IsSpace(rest[|rest| - 1])
    ensures Normalize(x + [' '] + ['.'] + rest) == x + [' ']
    ensures Normalize(x + [' ']) == x && Normalize(x) == x
  {
    var blank := x + [' '];
    NormalizeName(blank, ['.'] + rest, []);
    assert blank + (['.'] + rest) + [] == blank + ['.'] + rest;
    assert Lower(blank) == Lower(x) + [' '];
    NormalizeName(x, [], [' ']);
    NormalizeName(x, [], []);
    assert x + [] == x && x + [] + [] == x;
  }

  /** `a .b` becomes `a ` and then `a`. */
  lemma NotAlwaysIdempotent()
    ensures Normalize(Normalize("a .b")) != Normalize("a .b")
  {
    var s := "a .b";
    StripTrimmed(s);
    assert !IsDigit(s[0]) && s[0] != '.';
    assert !Octets(s, 4) by {
      if Octets(s, 4) {
        OctetCharacters(s, 4);
      }
    }
    assert s[1..] == " .b" && s[1..][1..] == ".b" && FirstLabel(".b") == [];
    assert FirstLabel(s[1..]) == [' '] + FirstLabel(s[1..][1..]);
    assert FirstLabel(s) == "a ";
    IdempotentExactlyWhen(s);
  }
}
