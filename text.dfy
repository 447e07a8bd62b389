/**
 * The parts of .NET's character and integer handling that the naming code relies on:
 * `char.IsDigit`, the white-space set of `NumberStyles.Integer`, `int.TryParse`,
 * `string.ToLowerInvariant` and `StringComparison.OrdinalIgnoreCase`, restricted to ASCII.
 */
module Text {
  import opened Wrappers

  const MinInt32: int := -0x8000_0000
  const MaxInt32: int := 0x7FFF_FFFF

  /** A C# `int`. */
  type Int32 = x: int | MinInt32 <= x <= MaxInt32

  predicate IsDigit(c: char) { '0' <= c <= '9' }

  /** White space that `int.TryParse` skips before and after the number (U+0009 to U+000D and U+0020). */
  predicate IsWhite(c: char) { c == ' ' || '\t' <= c <= '\r' }

  predicate AllDigits(s: string) { forall i :: 0 <= i < |s| ==> IsDigit(s[i]) }

  function DigitValue(c: char): nat
    requires IsDigit(c)
  {
    (c as int) - ('0' as int)
  }

  /** The decimal value of a run of digits, most significant first. */
  function DigitsValue(s: string): nat
    requires AllDigits(s)
    decreases |s|
  {
    if s == [] then 0 else DigitsValue(s[..|s| - 1]) * 10 + DigitValue(s[|s| - 1])
  }

  /** Prepending a digit d to a run of digits adds d times the run's weight to its value. */
  lemma {:induction false} DigitsValuePrepend(c: char, s: string)
    requires IsDigit(c) && AllDigits(s)
    ensures AllDigits([c] + s)
    ensures DigitsValue([c] + s) == DigitValue(c) * Pow10(|s|) + DigitsValue(s)
    decreases |s|
  {
    var cs := [c] + s;
    assert AllDigits(cs);
    if s != [] {
      var init := s[..|s| - 1];
      var last := DigitValue(s[|s| - 1]);
      assert cs[..|cs| - 1] == [c] + init;
      assert cs[|cs| - 1] == s[|s| - 1];
      DigitsValuePrepend(c, init);
      assert DigitsValue(cs) == DigitsValue([c] + init) * 10 + last;
      assert DigitsValue(s) == DigitsValue(init) * 10 + last;
      assert Pow10(|s|) == 10 * Pow10(|init|);
      ShiftDigit(DigitValue(c), Pow10(|init|), DigitsValue(init), last);
    }
  }

  /** The arithmetic step of `DigitsValuePrepend`: shifting by one place distributes over the sum. */
  lemma ShiftDigit(a: int, p: int, v: int, d: int)
    ensures (a * p + v) * 10 + d == a * (10 * p) + (v * 10 + d)
  {
  }

  function Pow10(n: nat): (p: nat)
    ensures p >= 1
  {
    if n == 0 then 1 else 10 * Pow10(n - 1)
  }

  /** Leading zeros do not change the value of a digit run. */
  lemma LeadingZeroIgnored(s: string)
    requires AllDigits(s)
    ensures AllDigits("0" + s) && DigitsValue("0" + s) == DigitsValue(s)
  {
    DigitsValuePrepend('0', s);
  }

  /** `TrimStart()`: drops the leading white space and nothing else. */
  function TrimStart(s: string): (t: string)
    ensures |t| <= |s| && t == s[|s| - |t|..]
    ensures t == [] || !IsWhite(t[0])
    ensures forall i :: 0 <= i < |s| - |t| ==> IsWhite(s[i])
  {
    if s != [] && IsWhite(s[0]) then TrimStart(s[1..]) else s
  }

  /** `TrimEnd()`: drops the trailing white space and nothing else. */
  function TrimEnd(s: string): (t: string)
    ensures |t| <= |s| && t == s[..|t|]
    ensures t == [] || !IsWhite(t[|t| - 1])
    ensures forall i :: |t| <= i < |s| ==> IsWhite(s[i])
  {
    if s != [] && IsWhite(s[|s| - 1]) then TrimEnd(s[..|s| - 1]) else s
  }

  /** The number after white space is trimmed: an optional sign, then one or more digits. */
  function ParseTrimmed(t: string): Option<Int32>
  {
    var negative := |t| > 0 && t[0] == '-';
    var body := if |t| > 0 && (t[0] == '-' || t[0] == '+') then t[1..] else t;
    if body == [] || !AllDigits(body) then None
    else
      var magnitude: int := DigitsValue(body);
      var v := if negative then 0 - magnitude else magnitude;
      if MinInt32 <= v <= MaxInt32 then Some(v) else None
  }

  /** What `ParseTrimmed` accepts ends in a digit and holds only digits and signs. */
  lemma ParsedShape(t: string)
    requires ParseTrimmed(t).Some?
    ensures t != [] && IsDigit(t[|t| - 1])
    ensures forall j :: 0 <= j < |t| ==> IsDigit(t[j]) || t[j] == '-' || t[j] == '+'
  {
    var body := if t[0] == '-' || t[0] == '+' then t[1..] else t;
    forall j | 0 <= j < |t|
      ensures IsDigit(t[j]) || t[j] == '-' || t[j] == '+'
    {
      if j > 0 || body == t {
        assert t[j] == body[j - (|t| - |body|)];
      }
    }
  }

  /**
   * A text made of white space, then a core of digits and signs that ends in a digit, then white
   * space: it holds a digit and nothing but digits, signs and white space.
   */
  lemma CoreInWhiteSpace(s: string, t0: string, t: string)
    requires |t0| <= |s| && t0 == s[|s| - |t0|..] && forall i :: 0 <= i < |s| - |t0| ==> IsWhite(s[i])
    requires |t| <= |t0| && t == t0[..|t|] && forall i :: |t| <= i < |t0| ==> IsWhite(t0[i])
    requires t != [] && IsDigit(t[|t| - 1])
    requires forall j :: 0 <= j < |t| ==> IsDigit(t[j]) || t[j] == '-' || t[j] == '+'
    ensures exists i :: 0 <= i < |s| && IsDigit(s[i])
    ensures forall i :: 0 <= i < |s| ==> IsDigit(s[i]) || IsWhite(s[i]) || s[i] == '-' || s[i] == '+'
  {
    var offset := |s| - |t0|;
    assert s[offset + |t| - 1] == t0[|t| - 1] == t[|t| - 1];
    forall i | 0 <= i < |s|
      ensures IsDigit(s[i]) || IsWhite(s[i]) || s[i] == '-' || s[i] == '+'
    {
      if offset <= i {
        assert s[i] == t0[i - offset];
        if i - offset < |t| {
          assert t0[i - offset] == t[i - offset];
        }
      }
    }
  }

  /**
   * `int.TryParse(s, out _)` with the default `NumberStyles.Integer`: optional surrounding white space,
   * an optional sign, then one or more ASCII digits whose signed value fits an Int32. So nothing
   * parses unless it holds a digit, and what parses holds only digits, signs and white space.
   */
  function TryParseInt32(s: string): (r: Option<Int32>)
    ensures r.Some? ==> exists i :: 0 <= i < |s| && IsDigit(s[i])
    ensures r.Some? ==> forall i :: 0 <= i < |s| ==> IsDigit(s[i]) || IsWhite(s[i]) || s[i] == '-' || s[i] == '+'
  {
    var t0 := TrimStart(s);
    var t := TrimEnd(t0);
    var r := ParseTrimmed(t);
    if r.None? then r else ParsedShape(t); CoreInWhiteSpace(s, t0, t); r
  }

  /** Text without white space at either end is parsed as it stands. */
  lemma NothingToTrim(s: string)
    requires s != [] && !IsWhite(s[0]) && !IsWhite(s[|s| - 1])
    ensures TryParseInt32(s) == ParseTrimmed(s)
  {
    assert TrimStart(s) == s;
    assert TrimEnd(s) == s;
  }

  /** A plain run of digits parses exactly when it is non-empty and at most Int32.MaxValue, to its value. */
  lemma TryParseDigits(s: string)
    requires AllDigits(s)
    ensures TryParseInt32(s) == if s != [] && DigitsValue(s) <= MaxInt32 then Some(DigitsValue(s)) else None
  {
    if s != [] {
      assert IsDigit(s[0]) && IsDigit(s[|s| - 1]);
      NothingToTrim(s);
      assert ParseTrimmed(s) == if DigitsValue(s) <= MaxInt32 then Some(DigitsValue(s)) else None;
    }
  }

  /** A minus sign followed by digits parses as the negated value, down to Int32.MinValue. */
  lemma TryParseNegative(digits: string)
    requires AllDigits(digits) && digits != [] && DigitsValue(digits) <= -MinInt32
    ensures TryParseInt32("-" + digits) == Some(0 - DigitsValue(digits))
  {
    var s := "-" + digits;
    assert s[0] == '-' && s[1..] == digits;
    assert s[|s| - 1] == digits[|digits| - 1];
    NothingToTrim(s);
    assert ParseTrimmed(s) == Some(0 - DigitsValue(digits));
  }

  predicate AllWhite(s: string) { forall i :: 0 <= i < |s| ==> IsWhite(s[i]) }

  /** Trimming the start of white space followed by text that does not start with white space leaves that text. */
  lemma {:induction false} TrimStartOverWhite(w: string, t: string)
    requires AllWhite(w) && (t == [] || !IsWhite(t[0]))
    ensures TrimStart(w + t) == t
    decreases |w|
  {
    if w == [] {
      assert w + t == t;
    } else {
      assert (w + t)[1..] == w[1..] + t;
      TrimStartOverWhite(w[1..], t);
    }
  }

  /** Trimming the end of text that does not end in white space, followed by white space, leaves that text. */
  lemma {:induction false} TrimEndOverWhite(t: string, w: string)
    requires AllWhite(w) && (t == [] || !IsWhite(t[|t| - 1]))
    ensures TrimEnd(t + w) == t
    decreases |w|
  {
    if w == [] {
      assert t + w == t;
    } else {
      assert (t + w)[..|t + w| - 1] == t + w[..|w| - 1];
      TrimEndOverWhite(t, w[..|w| - 1]);
    }
  }

  /** An optional sign and a non-empty run of digits, with nothing to trim. */
  lemma ParseSigned(sign: string, digits: string)
    requires sign == "" || sign == "+" || sign == "-"
    requires digits != [] && AllDigits(digits)
    ensures var v := if sign == "-" then 0 - DigitsValue(digits) else DigitsValue(digits);
      ParseTrimmed(sign + digits) == if MinInt32 <= v <= MaxInt32 then Some(v) else None
  {
    var core := sign + digits;
    if sign == "" {
      assert core == digits;
      assert digits[0] != '-' && digits[0] != '+';
    } else {
      assert core[0] == sign[0] && core[1..] == digits;
    }
  }

  /**
   * The whole of `NumberStyles.Integer`: white space, an optional sign, a non-empty run of digits and
   * white space parse exactly when the signed value fits an Int32, and then to that value.
   */
  lemma TryParsePadded(lead: string, sign: string, digits: string, trail: string)
    requires AllWhite(lead) && AllWhite(trail)
    requires sign == "" || sign == "+" || sign == "-"
    requires digits != [] && AllDigits(digits)
    ensures var v := if sign == "-" then 0 - DigitsValue(digits) else DigitsValue(digits);
      TryParseInt32(lead + sign + digits + trail) == if MinInt32 <= v <= MaxInt32 then Some(v) else None
  {
    var core := sign + digits;
    assert core[|core| - 1] == digits[|digits| - 1];
    assert core[0] == if sign == "" then digits[0] else sign[0];
    assert lead + sign + digits + trail == lead + (core + trail);
    assert (core + trail)[0] == core[0];
    TrimStartOverWhite(lead, core + trail);
    TrimEndOverWhite(core, trail);
    ParseSigned(sign, digits);
  }

  /**
   * Conversely, a text that parses is white space, an optional sign, a non-empty run of digits and
   * white space; with `TryParsePadded` this fixes the parsed value.
   */
  lemma ParsedSplit(s: string) returns (lead: string, sign: string, digits: string, trail: string)
    requires TryParseInt32(s).Some?
    ensures s == lead + sign + digits + trail
    ensures AllWhite(lead) && AllWhite(trail)
    ensures sign == "" || sign == "+" || sign == "-"
    ensures digits != [] && AllDigits(digits)
  {
    var t0 := TrimStart(s);
    var t := TrimEnd(t0);
    sign, digits := SignAndDigits(t);
    lead, trail := SplitAroundCore(s, t0, t, sign, digits);
  }

  /** The white space on either side of a core `t` that `s` ends with after trimming. */
  lemma SplitAroundCore(s: string, t0: string, t: string, sign: string, digits: string) returns (lead: string, trail: string)
    requires |t0| <= |s| && t0 == s[|s| - |t0|..] && forall i :: 0 <= i < |s| - |t0| ==> IsWhite(s[i])
    requires |t| <= |t0| && t == t0[..|t|] && forall i :: |t| <= i < |t0| ==> IsWhite(t0[i])
    requires t == sign + digits
    ensures s == lead + sign + digits + trail
    ensures AllWhite(lead) && AllWhite(trail)
  {
    lead := s[..|s| - |t0|];
    trail := t0[|t|..];
    WhiteHead(s, |s| - |t0|);
    WhiteTail(t0, |t|);
    assert lead + sign + digits == lead + t;
  }

  /** Splitting `s` after a run of white space. */
  lemma WhiteHead(s: string, k: nat)
    requires k <= |s| && forall i :: 0 <= i < k ==> IsWhite(s[i])
    ensures s == s[..k] + s[k..] && AllWhite(s[..k])
  {
  }

  /** Splitting `s` before a run of white space. */
  lemma WhiteTail(s: string, k: nat)
    requires k <= |s| && forall i :: k <= i < |s| ==> IsWhite(s[i])
    ensures s == s[..k] + s[k..] && AllWhite(s[k..])
  {
    forall i | 0 <= i < |s| - k ensures IsWhite(s[k..][i]) {
      assert s[k..][i] == s[k + i];
    }
  }

  /** What `ParseTrimmed` accepts is an optional sign followed by a non-empty run of digits. */
  lemma SignAndDigits(t: string) returns (sign: string, digits: string)
    requires ParseTrimmed(t).Some?
    ensures t == sign + digits
    ensures sign == "" || sign == "+" || sign == "-"
    ensures digits != [] && AllDigits(digits)
  {
    sign := if t[0] == '-' || t[0] == '+' then [t[0]] else [];
    digits := t[|sign|..];
    assert t == sign + digits;
  }

  /** `char.ToLowerInvariant` on ASCII: upper-case Latin letters map to lower case, all else is kept. */
  function ToLower(c: char): char
  {
    if 'A' <= c <= 'Z' then (c as int + 32) as char else c
  }

  /** The simple upper-case mapping that `OrdinalIgnoreCase` compares by. */
  function ToUpper(c: char): char
  {
    if 'a' <= c <= 'z' then (c as int - 32) as char else c
  }

  /**
   * `ToLowerInvariant()`: the result has no upper-case letter and equals the input ignoring case; a
   * character that is not an upper-case letter is kept. (The first two already fix the result.)
   */
  function ToLowerInvariant(s: string): (r: string)
    ensures IsLowerCase(r)
    ensures EqualsIgnoreCase(r, s)
    ensures forall i :: 0 <= i < |s| && !('A' <= s[i] <= 'Z') ==> r[i] == s[i]
  {
    seq(|s|, i requires 0 <= i < |s| => ToLower(s[i]))
  }

  predicate IsLowerCase(s: string) { forall i :: 0 <= i < |s| ==> !('A' <= s[i] <= 'Z') }

  /** `string.Equals(a, b, StringComparison.OrdinalIgnoreCase)`. */
  predicate EqualsIgnoreCase(a: string, b: string)
  {
    |a| == |b| && forall i :: 0 <= i < |a| ==> ToUpper(a[i]) == ToUpper(b[i])
  }

  /** `s.StartsWith(prefix, StringComparison.OrdinalIgnoreCase)`. */
  predicate StartsWithIgnoreCase(s: string, prefix: string)
  {
    |prefix| <= |s| && EqualsIgnoreCase(s[..|prefix|], prefix)
  }

  lemma ToLowerUpperAgree(a: char, b: char)
    ensures ToUpper(a) == ToUpper(b) <==> ToLower(a) == ToLower(b)
  {
  }

  /** Lower-casing is idempotent and leaves only lower-case text. */
  lemma ToLowerInvariantIdempotent(s: string)
    ensures IsLowerCase(ToLowerInvariant(s))
    ensures ToLowerInvariant(ToLowerInvariant(s)) == ToLowerInvariant(s)
  {
  }

  /** Text that is already lower case is left unchanged. */
  lemma LowerCaseUnchanged(s: string)
    requires IsLowerCase(s)
    ensures ToLowerInvariant(s) == s
  {
  }

  /** Two strings are equal ignoring case exactly when their lower-case forms coincide. */
  lemma EqualsIgnoreCaseIffSameLower(a: string, b: string)
    ensures EqualsIgnoreCase(a, b) <==> ToLowerInvariant(a) == ToLowerInvariant(b)
  {
    if EqualsIgnoreCase(a, b) {
      forall i | 0 <= i < |a| ensures ToLowerInvariant(a)[i] == ToLowerInvariant(b)[i] {
        ToLowerUpperAgree(a[i], b[i]);
      }
    }
    if ToLowerInvariant(a) == ToLowerInvariant(b) {
      forall i | 0 <= i < |a| ensures ToUpper(a[i]) == ToUpper(b[i]) {
        assert ToLowerInvariant(a)[i] == ToLowerInvariant(b)[i];
        ToLowerUpperAgree(a[i], b[i]);
      }
    }
  }
}
