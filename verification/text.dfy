/** The java.lang.String and java.lang.Integer operations the services use:
    `trim`, `isBlank`, case conversion, `Integer.toString` and
    `Integer.parseInt`. Case conversion covers the ASCII letters only. */
module Text {
  import opened Wrappers

  /** `String.trim` removes every leading and trailing char whose code is at
      most U+0020 (space and the control characters). */
  predicate IsTrimmable(c: char) { c <= ' ' }

  /** `Character.isWhitespace`: the space, line and paragraph separators of
      Unicode except the no-break spaces, and nine control characters. */
  predicate IsJavaWhitespace(c: char)
  {
    || c == ' ' || c == '\t' || c == '\n' || c == '\U{000B}' || c == '\U{000C}' || c == '\r'
    || ('\U{001C}' <= c <= '\U{001F}')
    || c == '\U{1680}' || ('\U{2000}' <= c <= '\U{2006}') || ('\U{2008}' <= c <= '\U{200A}')
    || c == '\U{2028}' || c == '\U{2029}' || c == '\U{205F}' || c == '\U{3000}'
  }

  /** `String.isBlank`: empty or made of whitespace only. */
  predicate IsBlank(s: string)
  {
    forall i :: 0 <= i < |s| ==> IsJavaWhitespace(s[i])
  }

  function TrimStart(s: string): (r: string)
    ensures |r| <= |s|
    ensures r == [] || !IsTrimmable(r[0])
    ensures forall i :: 0 <= i < |s| - |r| ==> IsTrimmable(s[i])
  {
    if s != [] && IsTrimmable(s[0]) then TrimStart(s[1..]) else s
  }

  function TrimEnd(s: string): (r: string)
    ensures |r| <= |s|
    ensures r == [] || !IsTrimmable(r[|r| - 1])
    ensures forall i :: |r| <= i < |s| ==> IsTrimmable(s[i])
  {
    if s != [] && IsTrimmable(s[|s| - 1]) then TrimEnd(s[..|s| - 1]) else s
  }

  /** What `TrimStart` keeps is a suffix of its input. */
  lemma {:induction false} TrimStartIsSuffix(s: string)
    ensures TrimStart(s) == s[|s| - |TrimStart(s)|..]
  {
    if s != [] && IsTrimmable(s[0]) {
      TrimStartIsSuffix(s[1..]);
    }
  }

  /** What `TrimEnd` keeps is a prefix of its input. */
  lemma {:induction false} TrimEndIsPrefix(s: string)
    ensures TrimEnd(s) == s[..|TrimEnd(s)|]
  {
    if s != [] && IsTrimmable(s[|s| - 1]) {
      TrimEndIsPrefix(s[..|s| - 1]);
    }
  }

  /** `String.trim`. */
  function Trim(s: string): (r: string)
    ensures r == [] || (!IsTrimmable(r[0]) && !IsTrimmable(r[|r| - 1]))
  {
    TrimEndIsPrefix(TrimStart(s));
    TrimEnd(TrimStart(s))
  }

  /** Trim keeps a contiguous part of its input and drops only trimmable
      chars around it. */
  lemma TrimIsInfix(s: string)
    ensures exists a, b :: 0 <= a <= b <= |s| && Trim(s) == s[a..b]
                           && (forall i :: 0 <= i < a ==> IsTrimmable(s[i]))
                           && (forall i :: b <= i < |s| ==> IsTrimmable(s[i]))
  {
    var t := TrimStart(s);
    var a := |s| - |t|;
    var r := TrimEnd(t);
    var b := a + |r|;
    TrimStartIsSuffix(s);
    TrimEndIsPrefix(t);
    assert r == s[a..b];
    assert forall i :: b <= i < |s| ==> IsTrimmable(s[i]) by {
      forall i | b <= i < |s| ensures IsTrimmable(s[i]) {
        assert s[i] == t[i - a];
      }
    }
    assert 0 <= a <= b <= |s| && Trim(s) == s[a..b];
  }

  lemma {:induction false} TrimStartOfClean(s: string)
    requires s == [] || !IsTrimmable(s[0])
    ensures TrimStart(s) == s
  {
  }

  lemma {:induction false} TrimEndOfClean(s: string)
    requires s == [] || !IsTrimmable(s[|s| - 1])
    ensures TrimEnd(s) == s
  {
  }

  /** Trimming twice is trimming once. */
  lemma TrimIdempotent(s: string)
    ensures Trim(Trim(s)) == Trim(s)
  {
    var r := Trim(s);
    TrimStartOfClean(r);
    TrimEndOfClean(r);
  }

  /** A trimmed string is blank exactly when it is empty or made of the
      Unicode separators that `trim` keeps. Every char `trim` removes that is
      also whitespace is below U+0021, so trimming a blank string leaves
      only chars above U+0020. */
  lemma TrimKeepsNonBlank(s: string)
    requires !IsBlank(s)
    requires forall i :: 0 <= i < |s| ==> (IsTrimmable(s[i]) ==> IsJavaWhitespace(s[i]))
    ensures Trim(s) != []
  {
    var t := TrimStart(s);
    var r := TrimEnd(t);
    TrimStartIsSuffix(s);
    TrimEndIsPrefix(t);
    var k :| 0 <= k < |s| && !IsJavaWhitespace(s[k]);
    assert !IsTrimmable(s[k]);
    assert k >= |s| - |t|;
    assert t[k - (|s| - |t|)] == s[k];
    assert k - (|s| - |t|) < |r|;
  }

  function LowerChar(c: char): char
  {
    if 'A' <= c <= 'Z' then (c as int - 'A' as int + 'a' as int) as char else c
  }

  function UpperChar(c: char): char
  {
    if 'a' <= c <= 'z' then (c as int - 'a' as int + 'A' as int) as char else c
  }

  /** `String.toLowerCase` on ASCII letters. */
  function ToLower(s: string): (r: string)
    ensures |r| == |s| && forall i :: 0 <= i < |s| ==> r[i] == LowerChar(s[i])
  {
    if s == [] then [] else [LowerChar(s[0])] + ToLower(s[1..])
  }

  /** `String.toUpperCase` on ASCII letters. */
  function ToUpper(s: string): (r: string)
    ensures |r| == |s| && forall i :: 0 <= i < |s| ==> r[i] == UpperChar(s[i])
  {
    if s == [] then [] else [UpperChar(s[0])] + ToUpper(s[1..])
  }

  /** Lower-casing twice is lower-casing once. */
  lemma ToLowerIdempotent(s: string)
    ensures ToLower(ToLower(s)) == ToLower(s)
  {
  }

  /** `s.trim().toLowerCase()`, the normal form of emails and stub modes:
      no longer than `s`, with nothing left to trim at either end. */
  function TrimLower(s: string): (r: string)
    ensures |r| <= |s|
    ensures r == [] || (!IsTrimmable(r[0]) && !IsTrimmable(r[|r| - 1]))
  {
    ToLower(Trim(s))
  }

  /** Normalising a normal form changes nothing. */
  lemma TrimLowerIdempotent(s: string)
    ensures TrimLower(TrimLower(s)) == TrimLower(s)
  {
    var r := TrimLower(s);
    TrimStartOfClean(r);
    TrimEndOfClean(r);
    ToLowerIdempotent(Trim(s));
  }

  /** `s.trim().toUpperCase()`. */
  function TrimUpper(s: string): (r: string)
    ensures |r| <= |s|
    ensures r == [] || (!IsTrimmable(r[0]) && !IsTrimmable(r[|r| - 1]))
  {
    ToUpper(Trim(s))
  }

  /** A string with nothing to trim and no lower-case letter is its own
      `trim().toUpperCase()`. */
  lemma TrimUpperOfKey(s: string)
    requires s == [] || (!IsTrimmable(s[0]) && !IsTrimmable(s[|s| - 1]))
    requires forall i :: 0 <= i < |s| ==> !('a' <= s[i] <= 'z')
    ensures TrimUpper(s) == s
  {
    TrimStartOfClean(s);
    TrimEndOfClean(s);
    assert ToUpper(s) == s;
  }

  // ---- decimal numbers ----------------------------------------------------

  const INT_MIN := -0x8000_0000
  const INT_MAX := 0x7FFF_FFFF

  /** The range of Java's 32-bit `int`. */
  predicate IsInt32(n: int) { INT_MIN <= n <= INT_MAX }

  predicate IsDigit(c: char) { '0' <= c <= '9' }

  function DigitChar(d: nat): (c: char)
    requires d < 10
    ensures IsDigit(c) && DigitValue(c) == d
  {
    ('0' as int + d) as char
  }

  function DigitValue(c: char): (d: nat)
    requires IsDigit(c)
    ensures d < 10
  {
    c as int - '0' as int
  }

  /** The decimal digits of a natural number, most significant first, no
      leading zeros. */
  function Digits(n: nat): (s: string)
    ensures |s| >= 1 && forall i :: 0 <= i < |s| ==> IsDigit(s[i])
    decreases n
  {
    if n < 10 then [DigitChar(n)] else Digits(n / 10) + [DigitChar(n % 10)]
  }

  /** `Integer.toString` / `Long.toString`: a minus sign for negative values. */
  function IntToString(n: int): (s: string)
    ensures |s| >= 1
  {
    if n < 0 then "-" + Digits(-n) else Digits(n)
  }

  /** The value of a non-empty string of decimal digits. */
  function DigitsValue(s: string): nat
    requires forall i :: 0 <= i < |s| ==> IsDigit(s[i])
  {
    if s == [] then 0 else DigitsValue(s[..|s| - 1]) * 10 + DigitValue(s[|s| - 1])
  }

  predicate AllDigits(s: string) { forall i :: 0 <= i < |s| ==> IsDigit(s[i]) }

  /** `Integer.parseInt`: an optional sign then at least one decimal digit,
      with a value inside the 32-bit range; anything else is a
      NumberFormatException (`None`). */
  function ParseInt(s: string): (r: Option<int>)
    ensures r.Some? ==> IsInt32(r.value)
  {
    var neg := |s| > 0 && s[0] == '-';
    var body := if |s| > 0 && (s[0] == '-' || s[0] == '+') then s[1..] else s;
    if body == [] || !AllDigits(body) then None
    else
      var mag: int := DigitsValue(body);
      var v := if neg then 0 - mag else mag;
      if IsInt32(v) then Some(v) else None
  }

  lemma {:induction false} DigitsValueOfDigits(n: nat)
    ensures DigitsValue(Digits(n)) == n
    decreases n
  {
    if n >= 10 {
      DigitsValueOfDigits(n / 10);
      var s := Digits(n);
      assert s[..|s| - 1] == Digits(n / 10);
    }
  }

  /** `Integer.parseInt` reads back what `Integer.toString` wrote. */
  lemma ParseIntToString(n: int)
    requires IsInt32(n)
    ensures ParseInt(IntToString(n)) == Some(n)
  {
    var s := IntToString(n);
    if n < 0 {
      DigitsValueOfDigits(-n);
      assert s[0] == '-' && s[1..] == Digits(-n);
      assert AllDigits(s[1..]);
    } else {
      DigitsValueOfDigits(n);
      assert s == Digits(n) && IsDigit(s[0]);
      assert AllDigits(s);
    }
  }
}
