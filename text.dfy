/** The pieces of Python's string handling that the daemon, the API and the
    serial controller rely on: the whitespace class used by `str.strip()` and
    the regex class `\s`, `str.split`, `str.split(sep, 1)`, decimal digits,
    `int()`, `str(int)` and `float()` on the strings a `[\d.]+` group captures. */
module Text {
  import opened Wrappers

  /** Python's `str.isspace()`: the characters `str.strip()` removes and `\s` matches. */
  predicate IsSpace(c: char) {
    || c == ' '
    || ('\t' <= c <= '\r')
    || ('\U{1c}' <= c <= '\U{1f}')
    || c == '\U{85}' || c == '\U{a0}' || c == '\U{1680}'
    || ('\U{2000}' <= c <= '\U{200a}')
    || c == '\U{2028}' || c == '\U{2029}' || c == '\U{202f}' || c == '\U{205f}' || c == '\U{3000}'
  }

  /** The character classes the line patterns use: `\s`, `\d` (ASCII digits) and `[\d.]`. */
  datatype CharClass = Space | Digit | DigitOrDot {
    predicate Has(c: char) {
      match this
      case Space => IsSpace(c)
      case Digit => '0' <= c <= '9'
      case DigitOrDot => '0' <= c <= '9' || c == '.'
    }
  }

  predicate All(s: string, cls: CharClass) {
    forall i :: 0 <= i < |s| ==> cls.Has(s[i])
  }

  /** End of the longest run of `cls` characters starting at `i`: a greedy `cls*`. */
  function SpanEnd(s: string, i: nat, cls: CharClass): (j: nat)
    requires i <= |s|
    ensures i <= j <= |s|
    ensures forall k :: i <= k < j ==> cls.Has(s[k])
    ensures j == |s| || !cls.Has(s[j])
    decreases |s| - i
  {
    if i < |s| && cls.Has(s[i]) then SpanEnd(s, i + 1, cls) else i
  }

  /** A run that ends where the class stops is the one `SpanEnd` finds. */
  lemma SpanEndAt(s: string, i: nat, j: nat, cls: CharClass)
    requires i <= j <= |s|
    requires forall k :: i <= k < j ==> cls.Has(s[k])
    requires j == |s| || !cls.Has(s[j])
    ensures SpanEnd(s, i, cls) == j
  {
  }

  /** Start of the longest run of whitespace that ends at `hi` and does not reach below `lo`. */
  function SpaceRunStart(s: string, lo: nat, hi: nat): (j: nat)
    requires lo <= hi <= |s|
    ensures lo <= j <= hi
    ensures forall k :: j <= k < hi ==> IsSpace(s[k])
    ensures j == lo || !IsSpace(s[j - 1])
    decreases hi
  {
    if lo < hi && IsSpace(s[hi - 1]) then SpaceRunStart(s, lo, hi - 1) else hi
  }

  lemma SpaceRunStartAt(s: string, lo: nat, j: nat, hi: nat)
    requires lo <= j <= hi <= |s|
    requires forall k :: j <= k < hi ==> IsSpace(s[k])
    requires j == lo || !IsSpace(s[j - 1])
    ensures SpaceRunStart(s, lo, hi) == j
  {
  }

  /** Neither end of `s` is whitespace. */
  predicate Trimmed(s: string) {
    s == [] || (!IsSpace(s[0]) && !IsSpace(s[|s| - 1]))
  }

  function StripStart(s: string): nat {
    SpanEnd(s, 0, Space)
  }

  function StripEnd(s: string): (e: nat)
    ensures StripStart(s) <= e <= |s|
  {
    SpaceRunStart(s, StripStart(s), |s|)
  }

  /** Python's `s.strip()`. */
  function Strip(s: string): (r: string)
    ensures Trimmed(r)
    ensures |r| <= |s|
  {
    s[StripStart(s)..StripEnd(s)]
  }

  /** `strip()` removes only whitespace, and only at the two ends. */
  lemma StripSplits(s: string)
    ensures s == s[..StripStart(s)] + Strip(s) + s[StripEnd(s)..]
    ensures All(s[..StripStart(s)], Space) && All(s[StripEnd(s)..], Space)
  {
    var a, e := StripStart(s), StripEnd(s);
    assert s == s[..a] + s[a..e] + s[e..];
    forall i | 0 <= i < a ensures Space.Has(s[..a][i]) {
      assert s[..a][i] == s[i];
    }
    forall i | 0 <= i < |s| - e ensures Space.Has(s[e..][i]) {
      assert s[e..][i] == s[e + i];
    }
  }

  /** Whatever whitespace surrounds a trimmed string, `strip()` recovers exactly it. */
  lemma StripPadded(pre: string, r: string, post: string)
    requires All(pre, Space) && All(post, Space) && Trimmed(r)
    ensures Strip(pre + r + post) == r
  {
    var s := pre + r + post;
    if r == [] {
      assert s == pre + post;
      SpanEndAt(s, 0, |s|, Space);
      assert StripStart(s) == |s|;
      assert s[|s|..|s|] == r;
    } else {
      assert s[|pre|] == r[0];
      SpanEndAt(s, 0, |pre|, Space);
      assert s[|pre| + |r| - 1] == r[|r| - 1];
      forall k | |pre| + |r| <= k < |s|
        ensures IsSpace(s[k])
      {
        assert s[k] == post[k - |pre| - |r|];
      }
      SpaceRunStartAt(s, |pre|, |pre| + |r|, |s|);
      assert s[|pre|..|pre| + |r|] == r;
    }
  }

  lemma StripIdempotent(s: string)
    ensures Strip(Strip(s)) == Strip(s)
  {
    StripPadded([], Strip(s), []);
    assert [] + Strip(s) + [] == Strip(s);
  }

  predicate StartsWith(s: string, prefix: string) {
    |prefix| <= |s| && s[..|prefix|] == prefix
  }

  /** Index of the first `c` in `s`, or `|s|` when there is none. */
  function IndexOf(s: string, c: char): (i: nat)
    ensures i <= |s|
    ensures forall k :: 0 <= k < i ==> s[k] != c
    ensures i < |s| ==> s[i] == c
  {
    if s == [] || s[0] == c then 0 else 1 + IndexOf(s[1..], c)
  }

  /** Python's `s.split(sep)` for a one-character separator. */
  function Split(s: string, sep: char): (parts: seq<string>)
    ensures |parts| > 0
    ensures forall i :: 0 <= i < |parts| ==> sep !in parts[i]
    decreases |s|
  {
    var i := IndexOf(s, sep);
    if i == |s| then [s] else [s[..i]] + Split(s[i + 1..], sep)
  }

  /** Python's `sep.join(parts)`. */
  function Join(parts: seq<string>, sep: char): string
    requires |parts| > 0
  {
    if |parts| == 1 then parts[0] else parts[0] + [sep] + Join(parts[1..], sep)
  }

  /** Splitting loses nothing: joining the pieces back gives the original string. */
  lemma {:induction false} JoinSplit(s: string, sep: char)
    ensures Join(Split(s, sep), sep) == s
    decreases |s|
  {
    var i := IndexOf(s, sep);
    if i < |s| {
      var rest := s[i + 1..];
      assert s == s[..i] + [sep] + rest;
      var tail := Split(rest, sep);
      assert Split(s, sep) == [s[..i]] + tail;
      JoinCons(s[..i], tail, sep);
      JoinSplit(rest, sep);
    }
  }

  lemma JoinCons(p: string, tail: seq<string>, sep: char)
    requires |tail| > 0
    ensures Join([p] + tail, sep) == p + [sep] + Join(tail, sep)
  {
    assert ([p] + tail)[1..] == tail;
  }

  /** ... and pieces that hold no separator are exactly what splitting their join gives back. */
  lemma {:induction false} SplitJoin(parts: seq<string>, sep: char)
    requires |parts| > 0
    requires forall i :: 0 <= i < |parts| ==> sep !in parts[i]
    ensures Split(Join(parts, sep), sep) == parts
  {
    var s := Join(parts, sep);
    var p := parts[0];
    if |parts| == 1 {
      IndexOfAbsent(p, sep);
    } else {
      var rest := Join(parts[1..], sep);
      assert s == p + [sep] + rest;
      IndexOfAt(s, sep, |p|);
      assert s[..|p|] == p;
      assert s[|p| + 1..] == rest;
      SplitJoin(parts[1..], sep);
    }
  }

  lemma IndexOfAbsent(s: string, c: char)
    requires c !in s
    ensures IndexOf(s, c) == |s|
  {
  }

  lemma IndexOfAt(s: string, c: char, i: nat)
    requires i < |s| && s[i] == c && c !in s[..i]
    ensures IndexOf(s, c) == i
  {
    assert forall k :: 0 <= k < i ==> s[k] == s[..i][k];
  }

  /** `s.split(":", 1)` on a string that contains ':': the text before the first ':'. */
  function Before(s: string, c: char): string {
    s[..IndexOf(s, c)]
  }

  /** ... and the text after it, which may itself contain ':'. */
  function After(s: string, c: char): string
    requires c in s
  {
    s[IndexOf(s, c) + 1..]
  }

  /** Splitting at the first separator is a lossless partition whose head has no separator. */
  lemma PartitionAtFirst(s: string, c: char)
    requires c in s
    ensures s == Before(s, c) + [c] + After(s, c)
    ensures c !in Before(s, c)
  {
    var i := IndexOf(s, c);
    assert s == s[..i] + [s[i]] + s[i + 1..];
  }

  // ---------------------------------------------------------------------------
  // Decimal digits

  function DigitValue(c: char): nat
    requires Digit.Has(c)
  {
    c as int - '0' as int
  }

  function DigitChar(d: nat): (c: char)
    requires d < 10
    ensures Digit.Has(c) && DigitValue(c) == d
  {
    ('0' as int + d) as char
  }

  /** The value of a string of decimal digits, as `int()` reads it (leading zeros allowed). */
  function DigitsValue(s: string): nat
    requires All(s, Digit)
  {
    if s == [] then 0 else 10 * DigitsValue(s[..|s| - 1]) + DigitValue(s[|s| - 1])
  }

  /** Python's `str(n)` for a natural number: its decimal digits, no leading zero. */
  function NatDigits(n: nat): (s: string)
    ensures |s| > 0 && All(s, Digit)
    ensures s[0] == '0' <==> n == 0
  {
    if n < 10 then [DigitChar(n)] else NatDigits(n / 10) + [DigitChar(n % 10)]
  }

  /** Reading back the digits `str(n)` writes gives `n`. */
  lemma {:induction false} DigitsRoundTrip(n: nat)
    ensures DigitsValue(NatDigits(n)) == n
  {
    var s := NatDigits(n);
    if n >= 10 {
      DigitsRoundTrip(n / 10);
      assert s[..|s| - 1] == NatDigits(n / 10);
    }
  }

  /** A decimal numeral as `str()` writes one: digits, and a leading zero only in "0". */
  predicate Canonical(s: string) {
    |s| > 0 && All(s, Digit) && (s[0] == '0' ==> |s| == 1)
  }

  /** The leading digit bounds the value from below. */
  lemma {:induction false} LeadingDigitValue(t: string)
    requires |t| > 0 && All(t, Digit)
    ensures DigitsValue(t) >= DigitValue(t[0])
    decreases |t|
  {
    if |t| > 1 {
      var p := t[..|t| - 1];
      LeadingDigitValue(p);
      assert p[0] == t[0];
    }
  }

  /** `str(n)` is the only canonical numeral whose value is `n`. */
  lemma {:induction false} CanonicalDigitsUnique(t: string)
    requires Canonical(t)
    ensures t == NatDigits(DigitsValue(t))
    decreases |t|
  {
    var n := DigitsValue(t);
    var c := t[|t| - 1];
    var p := t[..|t| - 1];
    if |t| == 1 {
      assert p == [];
      assert n == 10 * DigitsValue(p) + DigitValue(c);
    } else {
      assert p[0] == t[0] && |p| > 0;
      assert All(p, Digit);
      LeadingDigitValue(p);
      CanonicalDigitsUnique(p);
      assert n == 10 * DigitsValue(p) + DigitValue(c);
      assert n / 10 == DigitsValue(p) && n % 10 == DigitValue(c);
      assert t == p + [c];
    }
  }

  /** Python's `str(n)` for any integer. */
  function IntToString(n: int): (s: string)
    ensures n >= 0 ==> All(s, Digit) && DigitsValue(s) == n
    ensures n < 0 ==> |s| > 1 && s[0] == '-' && All(s[1..], Digit) && DigitsValue(s[1..]) == -n
    ensures n >= 0 ==> Canonical(s)
    ensures n < 0 ==> Canonical(s[1..]) && s[1] != '0'
  {
    DigitsRoundTrip(if n < 0 then -n else n);
    if n < 0 then
      var d := NatDigits(-n);
      assert ("-" + d)[1..] == d;
      "-" + d
    else NatDigits(n)
  }

  function Pow10(n: nat): (p: nat)
    ensures p > 0
  {
    if n == 0 then 1 else 10 * Pow10(n - 1)
  }

  /** Python's `float(g)` on a string of digits and dots, the only strings the
      `[\d.]+` group can capture: digits with at most one dot and at least one
      digit give a number, anything else makes `float()` raise (`None`). */
  function DecimalValue(g: string): (r: Option<real>)
    requires All(g, DigitOrDot)
  {
    var d := SpanEnd(g, 0, Digit);
    if d == |g| then
      if d == 0 then None else Some(DigitsValue(g) as real)
    else
      var f := SpanEnd(g, d + 1, Digit);
      if f < |g| || (d == 0 && f == d + 1) then None
      else Some(PointValue(g[..d], g[d + 1..]))
  }

  /** The number written `a.b`, for digit strings `a` and `b`. */
  function PointValue(a: string, b: string): real
    requires All(a, Digit) && All(b, Digit)
  {
    DigitsValue(a) as real + DigitsValue(b) as real / Pow10(|b|) as real
  }

  /** `float()` accepts digits, a dot and digits, with at least one digit in all. */
  lemma DecimalOfParts(a: string, b: string)
    requires All(a, Digit) && All(b, Digit) && |a| + |b| > 0
    ensures All(a + "." + b, DigitOrDot)
    ensures DecimalValue(a + "." + b) == Some(PointValue(a, b))
  {
    var g := a + "." + b;
    assert |g| == |a| + 1 + |b|;
    forall k | 0 <= k < |a| ensures Digit.Has(g[k]) {
      assert g[k] == a[k];
    }
    assert g[|a|] == '.';
    SpanEndAt(g, 0, |a|, Digit);
    forall k | |a| + 1 <= k < |g| ensures Digit.Has(g[k]) {
      assert g[k] == b[k - |a| - 1];
    }
    SpanEndAt(g, |a| + 1, |g|, Digit);
    assert g[..|a|] == a;
    assert g[|a| + 1..] == b;
  }

  /** `float()` accepts a plain run of digits. */
  lemma DecimalOfDigits(a: string)
    requires All(a, Digit) && |a| > 0
    ensures DecimalValue(a) == Some(DigitsValue(a) as real)
  {
    SpanEndAt(a, 0, |a|, Digit);
  }

  predicate HasDigit(g: string) {
    exists i :: 0 <= i < |g| && Digit.Has(g[i])
  }

  predicate TwoDots(g: string) {
    exists i, j :: 0 <= i < j < |g| && g[i] == '.' && g[j] == '.'
  }

  /** `float()` raises on a `[\d.]+` capture exactly when it has no digit or more than one dot
      (`.` or `1.2.3`). */
  lemma DecimalRejects(g: string)
    requires All(g, DigitOrDot) && |g| > 0
    ensures DecimalValue(g).None? <==> !HasDigit(g) || TwoDots(g)
  {
    var d := SpanEnd(g, 0, Digit);
    if d == |g| {
      assert Digit.Has(g[0]);
      assert forall i :: 0 <= i < |g| ==> g[i] != '.';
    } else {
      assert g[d] == '.';
      var f := SpanEnd(g, d + 1, Digit);
      if f < |g| {
        assert 0 <= d < f < |g| && g[d] == '.' && g[f] == '.';
      } else {
        assert forall i :: 0 <= i < |g| && i != d ==> g[i] != '.';
        if d == 0 && f == d + 1 {
          assert forall i :: 0 <= i < |g| ==> g[i] == '.';
        } else if d > 0 {
          assert Digit.Has(g[0]);
        } else {
          assert Digit.Has(g[1]);
        }
      }
    }
  }
}
