/**
 * String operations the scripts rely on: JavaScript's `String.prototype.trim`,
 * lower-casing, decimal rendering of an index, and the whitespace set trim uses.
 */
module Text {

  /** The characters `trim` removes: ECMAScript WhiteSpace and LineTerminator. */
  predicate IsJsSpace(c: char) {
    c == '\t' || c == '\n' || c == '\U{B}' || c == '\U{C}' || c == '\r' || c == ' '
    || c == '\U{A0}' || c == '\U{1680}' || ('\U{2000}' <= c <= '\U{200A}')
    || c == '\U{2028}' || c == '\U{2029}' || c == '\U{202F}' || c == '\U{205F}'
    || c == '\U{3000}' || c == '\U{FEFF}'
  }

  /** `s` with its leading whitespace removed. */
  function TrimStart(s: string): (r: string)
    ensures |r| <= |s|
  {
    if s != [] && IsJsSpace(s[0]) then TrimStart(s[1..]) else s
  }

  /** `s` with its trailing whitespace removed. */
  function TrimEnd(s: string): (r: string)
    ensures |r| <= |s|
  {
    if s != [] && IsJsSpace(s[|s| - 1]) then TrimEnd(s[..|s| - 1]) else s
  }

  /** `t` is what is left of `s` once exactly its leading whitespace run is cut off. */
  predicate LeadingCut(s: string, t: string) {
    && |t| <= |s| && t == s[|s| - |t|..]
    && (forall i :: 0 <= i < |s| - |t| ==> IsJsSpace(s[i]))
    && (t == [] || !IsJsSpace(t[0]))
  }

  /** `r` is what is left of `t` once exactly its trailing whitespace run is cut off. */
  predicate TrailingCut(t: string, r: string) {
    && |r| <= |t| && r == t[..|r|]
    && (forall i :: |r| <= i < |t| ==> IsJsSpace(t[i]))
    && (r == [] || !IsJsSpace(r[|r| - 1]))
  }

  /** `r` is the slice of `s` at `i` with only whitespace around it and none at its own ends. */
  predicate MiddleSlice(s: string, r: string, i: int) {
    && 0 <= i && i + |r| <= |s| && r == s[i..i + |r|]
    && (forall k :: 0 <= k < i ==> IsJsSpace(s[k]))
    && (forall k :: i + |r| <= k < |s| ==> IsJsSpace(s[k]))
    && (r == [] || (!IsJsSpace(r[0]) && !IsJsSpace(r[|r| - 1])))
  }

  /** TrimStart cuts off exactly the whitespace run at the front. */
  lemma {:induction false} TrimStartCutsLeadingSpace(s: string)
    ensures LeadingCut(s, TrimStart(s))
  {
    if s != [] && IsJsSpace(s[0]) {
      TrimStartCutsLeadingSpace(s[1..]);
    }
  }

  /** TrimEnd cuts off exactly the whitespace run at the back. */
  lemma {:induction false} TrimEndCutsTrailingSpace(s: string)
    ensures TrailingCut(s, TrimEnd(s))
  {
    if s != [] && IsJsSpace(s[|s| - 1]) {
      TrimEndCutsTrailingSpace(s[..|s| - 1]);
    }
  }

  /** `s.trim()`: whitespace removed from both ends. */
  function Trim(s: string): (r: string)
    ensures |r| <= |s|
  {
    TrimEnd(TrimStart(s))
  }

  /** `s.trim()` is the middle slice of `s` left when the whitespace at either end is cut off. */
  lemma {:induction false} TrimIsMiddleSlice(s: string)
    ensures MiddleSlice(s, Trim(s), |s| - |TrimStart(s)|)
  {
    TrimStartCutsLeadingSpace(s);
    TrimEndCutsTrailingSpace(TrimStart(s));
    CutBothEnds(s, TrimStart(s), Trim(s));
  }

  /** Cutting a space run off the front of `s`, then one off the back of what is left, leaves a middle slice. */
  lemma {:induction false} CutBothEnds(s: string, t: string, r: string)
    requires LeadingCut(s, t) && TrailingCut(t, r)
    ensures MiddleSlice(s, r, |s| - |t|)
  {
    var i := |s| - |t|;
    assert r == s[i..i + |r|];
    forall k | i + |r| <= k < |s| ensures IsJsSpace(s[k]) {
      assert s[k] == t[k - i];
    }
    if r != [] {
      assert r[0] == t[0];
    }
  }

  function LowerChar(c: char): char {
    if 'A' <= c <= 'Z' then (c as int - 'A' as int + 'a' as int) as char else c
  }

  /** `s.toLowerCase()` on the ASCII letters; every other character is kept. */
  function Lower(s: string): (r: string)
    ensures |r| == |s|
    ensures forall i :: 0 <= i < |s| ==> r[i] == LowerChar(s[i])
    ensures forall i :: 0 <= i < |r| ==> !('A' <= r[i] <= 'Z')
  {
    seq(|s|, i requires 0 <= i < |s| => LowerChar(s[i]))
  }

  /** The comparison key of a fill-in-the-blank answer: trimmed, then lower-cased. */
  function Normalize(s: string): (r: string)
    ensures |r| <= |s|
  {
    Lower(Trim(s))
  }

  /** A comparison key holds no ASCII capital and neither starts nor ends with whitespace. */
  lemma {:induction false} NormalizeShape(s: string)
    ensures var r := Normalize(s);
      && (forall i :: 0 <= i < |r| ==> !('A' <= r[i] <= 'Z'))
      && (r == [] || (!IsJsSpace(r[0]) && !IsJsSpace(r[|r| - 1])))
  {
    var t := Trim(s);
    TrimIsMiddleSlice(s);
    if t != [] {
      LowerCharKeepsSpace(t[0]);
      LowerCharKeepsSpace(t[|t| - 1]);
    }
  }

  /** Lower-casing never turns a space into a non-space or back. */
  lemma LowerCharKeepsSpace(c: char)
    ensures IsJsSpace(LowerChar(c)) == IsJsSpace(c)
  {
  }

  lemma TrimOfTrimmed(s: string)
    requires s == [] || (!IsJsSpace(s[0]) && !IsJsSpace(s[|s| - 1]))
    ensures Trim(s) == s
  {
  }

  /** Normalizing twice is normalizing once, so a stored expected answer may be normalized or not. */
  lemma {:induction false} NormalizeIdempotent(s: string)
    ensures Normalize(Normalize(s)) == Normalize(s)
  {
    var t := Trim(s);
    var l := Lower(t);
    TrimIsMiddleSlice(s);
    if l != [] {
      LowerCharKeepsSpace(t[0]);
      LowerCharKeepsSpace(t[|t| - 1]);
    }
    TrimOfTrimmed(l);
    assert Lower(l) == l;
  }

  /** Every character of `w` is one `trim` removes. */
  predicate AllSpace(w: string) {
    forall i :: 0 <= i < |w| ==> IsJsSpace(w[i])
  }

  /** Leading whitespace in front of `x` is cut along with `x`'s own. */
  lemma {:induction false} TrimStartSkipsSpace(w: string, x: string)
    requires AllSpace(w)
    ensures TrimStart(w + x) == TrimStart(x)
  {
    if w == [] {
      assert w + x == x;
    } else {
      assert (w + x)[1..] == w[1..] + x;
      TrimStartSkipsSpace(w[1..], x);
    }
  }

  /** Trailing whitespace after `x` is cut along with `x`'s own. */
  lemma {:induction false} TrimEndSkipsSpace(x: string, w: string)
    requires AllSpace(w)
    ensures TrimEnd(x + w) == TrimEnd(x)
  {
    if w == [] {
      assert x + w == x;
    } else {
      assert (x + w)[..|x + w| - 1] == x + w[..|w| - 1];
      TrimEndSkipsSpace(x, w[..|w| - 1]);
    }
  }

  /** Trimming the front of `v + w` trims `v`, and reaches into `w` only when `v` is all whitespace. */
  lemma {:induction false} TrimStartAppend(v: string, w: string)
    ensures TrimStart(v + w) == if TrimStart(v) == [] then TrimStart(w) else TrimStart(v) + w
  {
    if v == [] {
      assert v + w == w;
    } else if IsJsSpace(v[0]) {
      assert (v + w)[1..] == v[1..] + w;
      TrimStartAppend(v[1..], w);
    }
  }

  /** Whitespace added at either end of the text does not change what `trim` yields. */
  lemma {:induction false} TrimIgnoresPadding(w1: string, v: string, w2: string)
    requires AllSpace(w1) && AllSpace(w2)
    ensures Trim(w1 + v + w2) == Trim(v)
  {
    assert w1 + v + w2 == w1 + (v + w2);
    TrimStartSkipsSpace(w1, v + w2);
    TrimStartAppend(v, w2);
    if TrimStart(v) == [] {
      TrimStartSkipsSpace(w2, []);
      assert w2 + [] == w2;
    } else {
      TrimEndSkipsSpace(TrimStart(v), w2);
    }
  }

  lemma {:induction false} TrimStartOfLower(s: string)
    ensures TrimStart(Lower(s)) == Lower(TrimStart(s))
  {
    if s != [] {
      LowerCharKeepsSpace(s[0]);
      assert Lower(s)[1..] == Lower(s[1..]);
      TrimStartOfLower(s[1..]);
    }
  }

  lemma {:induction false} TrimEndOfLower(s: string)
    ensures TrimEnd(Lower(s)) == Lower(TrimEnd(s))
  {
    if s != [] {
      LowerCharKeepsSpace(s[|s| - 1]);
      assert Lower(s)[..|s| - 1] == Lower(s[..|s| - 1]);
      TrimEndOfLower(s[..|s| - 1]);
    }
  }

  /** Lower-casing the text first does not change its comparison key. */
  lemma {:induction false} NormalizeIgnoresCase(s: string)
    ensures Normalize(Lower(s)) == Normalize(s)
  {
    TrimStartOfLower(s);
    TrimEndOfLower(TrimStart(s));
    var t := Trim(s);
    assert Lower(Lower(t)) == Lower(t);
  }

  function DigitChar(d: nat): (c: char)
    requires d < 10
    ensures '0' <= c <= '9' && c as int - '0' as int == d
  {
    ('0' as int + d) as char
  }

  /** The decimal rendering of `n`, as `'' + n` gives it in JavaScript. */
  function NatToString(n: nat): (s: string)
    ensures |s| >= 1
    ensures forall i :: 0 <= i < |s| ==> '0' <= s[i] <= '9'
    ensures n >= 10 ==> s[0] != '0'
  {
    if n < 10 then [DigitChar(n)] else NatToString(n / 10) + [DigitChar(n % 10)]
  }

  /** The value of a string of decimal digits. */
  function DigitsValue(s: string): nat
    requires forall i :: 0 <= i < |s| ==> '0' <= s[i] <= '9'
  {
    if s == [] then 0 else DigitsValue(s[..|s| - 1]) * 10 + (s[|s| - 1] as int - '0' as int)
  }

  /** Reading back the decimal rendering gives the number: the rendering is injective. */
  lemma {:induction false} NatToStringRoundTrip(n: nat)
    ensures DigitsValue(NatToString(n)) == n
  {
    if n >= 10 {
      NatToStringRoundTrip(n / 10);
      var s := NatToString(n);
      assert s[..|s| - 1] == NatToString(n / 10);
    }
  }

  lemma {:induction false} NatToStringInjective(a: nat, b: nat)
    requires NatToString(a) == NatToString(b)
    ensures a == b
  {
    NatToStringRoundTrip(a);
    NatToStringRoundTrip(b);
  }
}
