/** The few JavaScript string operations the modelled code relies on:
    `replace(/\D/g, '')`, `startsWith` and `trim`. A JavaScript string is
    modelled as a `string` of Unicode scalar values; every character these
    operations look at lies in the Basic Multilingual Plane. */
module JsText {

  /** The regular-expression class `\d`, which in JavaScript is exactly
      `[0-9]` (no other Unicode digits); `\D` is its complement. */
  predicate IsDigit(c: char) {
    '0' <= c <= '9'
  }

  predicate AllDigits(s: string) {
    forall i :: 0 <= i < |s| ==> IsDigit(s[i])
  }

  /** `s.replace(/\D/g, '')`: every character outside `[0-9]` is removed.
      The result holds only digits (how often each digit occurs: see
      StripNonDigitsKeepsDigits; their order: see StripNonDigitsAppend). */
  function StripNonDigits(s: string): (r: string)
    ensures AllDigits(r)
    ensures |r| <= |s|
  {
    if s == [] then []
    else
      assert s == [s[0]] + s[1..];
      (if IsDigit(s[0]) then [s[0]] else []) + StripNonDigits(s[1..])
  }

  /** Each digit occurs in the result exactly as often as in `s`. */
  lemma {:induction false} StripNonDigitsKeepsDigits(s: string)
    ensures forall c :: IsDigit(c) ==> multiset(StripNonDigits(s))[c] == multiset(s)[c]
  {
    if s != [] {
      StripNonDigitsKeepsDigits(s[1..]);
      var head := if IsDigit(s[0]) then [s[0]] else [];
      assert s == [s[0]] + s[1..];
      assert StripNonDigits(s) == head + StripNonDigits(s[1..]);
      forall c | IsDigit(c)
        ensures multiset(StripNonDigits(s))[c] == multiset(s)[c]
      {
        assert multiset(head)[c] == multiset([s[0]])[c];
      }
    }
  }

  /** Stripping works character by character, so it distributes over
      concatenation: the digits keep their relative order. */
  lemma {:induction false} StripNonDigitsAppend(a: string, b: string)
    ensures StripNonDigits(a + b) == StripNonDigits(a) + StripNonDigits(b)
  {
    if a == [] {
      assert a + b == b;
    } else {
      assert (a + b)[0] == a[0];
      assert (a + b)[1..] == a[1..] + b;
      StripNonDigitsAppend(a[1..], b);
    }
  }

  /** A string that is already digits only is left as it is. */
  lemma {:induction false} StripNonDigitsOfDigits(s: string)
    requires AllDigits(s)
    ensures StripNonDigits(s) == s
  {
    if s != [] {
      StripNonDigitsOfDigits(s[1..]);
    }
  }

  /** A string without digits strips to the empty string. */
  lemma {:induction false} StripNonDigitsOfNonDigits(s: string)
    requires forall i :: 0 <= i < |s| ==> !IsDigit(s[i])
    ensures StripNonDigits(s) == ""
  {
    if s != [] {
      StripNonDigitsOfNonDigits(s[1..]);
    }
  }

  /** Characters that are not digits in front of a run of digits vanish;
      the digits stay as they are. */
  lemma StripNonDigitPrefix(p: string, digits: string)
    requires forall i :: 0 <= i < |p| ==> !IsDigit(p[i])
    requires AllDigits(digits)
    ensures StripNonDigits(p + digits) == digits
  {
    StripNonDigitsAppend(p, digits);
    StripNonDigitsOfNonDigits(p);
    StripNonDigitsOfDigits(digits);
  }

  /** Stripping twice is stripping once. */
  lemma StripNonDigitsIdempotent(s: string)
    ensures StripNonDigits(StripNonDigits(s)) == StripNonDigits(s)
  {
    StripNonDigitsOfDigits(StripNonDigits(s));
  }

  /** `s.startsWith(p)`. */
  predicate StartsWith(s: string, p: string) {
    |p| <= |s| && s[..|p|] == p
  }

  /** The characters `String.prototype.trim` removes: the ECMAScript
      WhiteSpace code points (TAB, VT, FF, SP, NBSP, ZWNBSP and the Unicode
      category Zs) and the LineTerminator code points (LF, CR, LS, PS). */
  predicate IsJsWhitespace(c: char) {
    || c == '\t' || c == '\n' || c == '\U{B}' || c == '\U{C}' || c == '\r'
    || c == ' ' || c == '\U{A0}' || c == '\U{1680}'
    || ('\U{2000}' <= c <= '\U{200A}')
    || c == '\U{2028}' || c == '\U{2029}' || c == '\U{202F}' || c == '\U{205F}'
    || c == '\U{3000}' || c == '\U{FEFF}'
  }

  predicate AllWhitespace(s: string) {
    forall i :: 0 <= i < |s| ==> IsJsWhitespace(s[i])
  }

  /** Leading whitespace removed: the result is a suffix of `s`, everything
      dropped is whitespace and the result does not start with whitespace. */
  function TrimStart(s: string): (r: string)
    ensures |r| <= |s| && r == s[|s| - |r|..]
    ensures AllWhitespace(s[..|s| - |r|])
    ensures r == [] || !IsJsWhitespace(r[0])
  {
    if s != [] && IsJsWhitespace(s[0]) then TrimStart(s[1..]) else s
  }

  /** Trailing whitespace removed: the result is a prefix of `s`, everything
      dropped is whitespace and the result does not end with whitespace. */
  function TrimEnd(s: string): (r: string)
    ensures |r| <= |s| && r == s[..|r|]
    ensures AllWhitespace(s[|r|..])
    ensures r == [] || !IsJsWhitespace(r[|r| - 1])
  {
    if s != [] && IsJsWhitespace(s[|s| - 1]) then TrimEnd(s[..|s| - 1]) else s
  }

  /** `s.trim()`. */
  function Trim(s: string): (r: string)
    ensures r == [] || (!IsJsWhitespace(r[0]) && !IsJsWhitespace(r[|r| - 1]))
  {
    TrimEnd(TrimStart(s))
  }

  /** `r` sits in `s` at position `i` with only whitespace around it. */
  predicate IsWhitespaceFramed(s: string, r: string, i: int) {
    0 <= i <= i + |r| <= |s| && r == s[i..i + |r|]
    && AllWhitespace(s[..i]) && AllWhitespace(s[i + |r|..])
  }

  /** `s.trim()` is a contiguous piece of `s` with only whitespace cut away on
      either side. */
  lemma TrimIsSlice(s: string)
    ensures exists i :: IsWhitespaceFramed(s, Trim(s), i)
  {
    var t := TrimStart(s);
    var r := TrimEnd(t);
    var i := |s| - |t|;
    assert t == s[i..] && AllWhitespace(s[..i]);
    assert r == t[..|r|] && AllWhitespace(t[|r|..]);
    SuffixSlices(s, i, |r|);
    assert r == Trim(s);
    assert IsWhitespaceFramed(s, r, i);
  }

  /** Slicing a suffix of `s` is slicing `s` itself. */
  lemma SuffixSlices(s: string, i: nat, m: nat)
    requires i + m <= |s|
    ensures s[i..][..m] == s[i..i + m]
    ensures s[i..][m..] == s[i + m..]
  {
  }

  /** A string trims to the empty string exactly when it is all whitespace. */
  lemma TrimEmptyIff(s: string)
    ensures Trim(s) == [] <==> AllWhitespace(s)
  {
    var t := TrimStart(s);
    if Trim(s) == [] {
      assert AllWhitespace(t[0..]);
      assert s == s[..|s| - |t|] + t;
    } else {
      var r := Trim(s);
      assert t[0] == r[0] && !IsJsWhitespace(t[0]);
      assert s[|s| - |t|] == t[0];
    }
  }

  /** Trimming twice is trimming once. */
  lemma TrimIdempotent(s: string)
    ensures Trim(Trim(s)) == Trim(s)
  {
    var r := Trim(s);
    if r != [] {
      assert TrimStart(r) == r;
      assert TrimEnd(r) == r;
    }
  }
}
