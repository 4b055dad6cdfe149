/**
 * The Python string operations the modelled code relies on: `strip` and the characters it takes away.
 * `strip` is defined the way Python does it, from both ends, and then shown to be determined by its
 * result: whatever is cut off is white space, and what is left neither starts nor ends with any. That
 * characterisation is what the other modules use.
 */
module PyString {

  /** `str.isspace` for one character. */
  predicate IsSpace(c: char) {
    var n := c as int;
    || 0x09 <= n <= 0x0d || 0x1c <= n <= 0x20 || n == 0x85 || n == 0xa0 || n == 0x1680
    || 0x2000 <= n <= 0x200a || n == 0x2028 || n == 0x2029 || n == 0x202f || n == 0x205f || n == 0x3000
  }

  function LStrip(s: string): string {
    if s != [] && IsSpace(s[0]) then LStrip(s[1..]) else s
  }

  function RStrip(s: string): string {
    if s != [] && IsSpace(s[|s| - 1]) then RStrip(s[..|s| - 1]) else s
  }

  /** `s.strip()`. */
  function Strip(s: string): string {
    RStrip(LStrip(s))
  }

  predicate AllSpace(s: string) {
    forall i | 0 <= i < |s| :: IsSpace(s[i])
  }

  predicate Trimmed(s: string) {
    s == [] || (!IsSpace(s[0]) && !IsSpace(s[|s| - 1]))
  }

  lemma {:induction false} LStripSplit(s: string) returns (left: string)
    ensures s == left + LStrip(s) && AllSpace(left)
    ensures LStrip(s) == [] || !IsSpace(LStrip(s)[0])
  {
    if s != [] && IsSpace(s[0]) {
      var rest := LStripSplit(s[1..]);
      left := [s[0]] + rest;
    } else {
      left := [];
    }
  }

  lemma {:induction false} RStripSplit(s: string) returns (right: string)
    ensures s == RStrip(s) + right && AllSpace(right)
    ensures RStrip(s) == [] || !IsSpace(RStrip(s)[|RStrip(s)| - 1])
  {
    if s != [] && IsSpace(s[|s| - 1]) {
      var rest := RStripSplit(s[..|s| - 1]);
      right := rest + [s[|s| - 1]];
    } else {
      right := [];
    }
  }

  /** What stripping takes off is white space, and what is left has none at its ends. */
  lemma StripSplit(s: string) returns (left: string, right: string)
    ensures s == left + Strip(s) + right && AllSpace(left) && AllSpace(right) && Trimmed(Strip(s))
  {
    left := LStripSplit(s);
    right := RStripSplit(LStrip(s));
  }

  /** A trimmed middle between white space is exactly what `strip` returns. */
  lemma StripUnique(left: string, mid: string, right: string)
    requires AllSpace(left) && AllSpace(right) && Trimmed(mid)
    ensures mid != [] ==> Strip(left + mid + right) == mid
    ensures mid == [] ==> Strip(left + mid + right) == []
  {
    if mid != [] {
      LStripSpaces(left, mid + right);
      assert left + (mid + right) == left + mid + right;
      RStripSpaces(mid, right);
    } else {
      assert left + mid + right == left + right;
      AllSpaceStrips(left + right);
    }
  }

  lemma {:induction false} LStripSpaces(left: string, s: string)
    requires AllSpace(left) && s != [] && !IsSpace(s[0])
    ensures LStrip(left + s) == s
  {
    if left == [] {
      assert left + s == s;
    } else {
      assert (left + s)[1..] == left[1..] + s;
      LStripSpaces(left[1..], s);
    }
  }

  lemma {:induction false} RStripSpaces(s: string, right: string)
    requires AllSpace(right) && s != [] && !IsSpace(s[|s| - 1])
    ensures RStrip(s + right) == s
  {
    if right == [] {
      assert s + right == s;
    } else {
      var n := |right| - 1;
      assert (s + right)[..|s + right| - 1] == s + right[..n];
      RStripSpaces(s, right[..n]);
    }
  }

  lemma {:induction false} AllSpaceStrips(s: string)
    requires AllSpace(s)
    ensures Strip(s) == []
  {
    if s != [] {
      AllSpaceStrips(s[1..]);
    }
  }

  /** A trimmed string is left alone. */
  lemma StripTrimmed(s: string)
    requires Trimmed(s)
    ensures Strip(s) == s
  {
    StripUnique([], s, []);
    assert [] + s + [] == s;
  }
}
