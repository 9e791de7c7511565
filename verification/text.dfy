/** The .NET string and character primitives the core relies on. */
module Text {
  import opened Wrappers

  /** `char.IsWhiteSpace`: the Unicode space, line and paragraph separators,
      the control characters U+0009..U+000D, U+0085 and U+00A0. */
  predicate IsWhiteSpace(c: char) {
    || '\U{0009}' <= c <= '\U{000D}'
    || c == '\U{0020}' || c == '\U{0085}' || c == '\U{00A0}' || c == '\U{1680}'
    || '\U{2000}' <= c <= '\U{200A}'
    || c == '\U{2028}' || c == '\U{2029}' || c == '\U{202F}' || c == '\U{205F}' || c == '\U{3000}'
  }

  /** `string.IsNullOrEmpty`. */
  predicate IsNullOrEmpty(s: Option<string>) {
    s.None? || s.value == []
  }

  /** `string.IsNullOrWhiteSpace`: null, empty, or white space only. */
  predicate IsNullOrWhiteSpace(s: Option<string>) {
    s.None? || forall i :: 0 <= i < |s.value| ==> IsWhiteSpace(s.value[i])
  }

  /** `string.Trim()`: the input without its leading and trailing white space. */
  function Trim(s: string): (r: string)
    ensures |r| <= |s|
    ensures r != [] ==> !IsWhiteSpace(r[0]) && !IsWhiteSpace(r[|r| - 1])
    ensures s != [] && !IsWhiteSpace(s[0]) && !IsWhiteSpace(s[|s| - 1]) ==> r == s
  {
    if s == [] then []
    else if IsWhiteSpace(s[0]) then Trim(s[1..])
    else if IsWhiteSpace(s[|s| - 1]) then Trim(s[..|s| - 1])
    else s
  }

  /** `char.IsUpper`, over ASCII. */
  predicate IsUpper(c: char) {
    'A' <= c <= 'Z'
  }

  /** `char.ToLowerInvariant`, over ASCII. */
  function ToLower(c: char): (r: char)
    ensures !IsUpper(r)
    ensures !IsUpper(c) ==> r == c
  {
    if IsUpper(c) then (c as int + 32) as char else c
  }

  /** `char.ToUpperInvariant`, over ASCII. */
  function ToUpper(c: char): (r: char)
    ensures 'a' <= c <= 'z' ==> IsUpper(r)
  {
    if 'a' <= c <= 'z' then (c as int - 32) as char else c
  }

  /** `string.ToLowerInvariant`, over ASCII. */
  function ToLowerString(s: string): (r: string)
    ensures |r| == |s|
    ensures forall i :: 0 <= i < |s| ==> r[i] == ToLower(s[i])
  {
    seq(|s|, i requires 0 <= i < |s| => ToLower(s[i]))
  }

  /** `string.ToUpperInvariant`, over ASCII. */
  function ToUpperString(s: string): (r: string)
    ensures |r| == |s|
    ensures forall i :: 0 <= i < |s| ==> r[i] == ToUpper(s[i])
  {
    seq(|s|, i requires 0 <= i < |s| => ToUpper(s[i]))
  }

  /** Lowering ignores an earlier upper-casing. */
  lemma LowerOfUpper(s: string)
    ensures ToLowerString(ToUpperString(s)) == ToLowerString(s)
  {
    var a, b := ToLowerString(ToUpperString(s)), ToLowerString(s);
    forall i | 0 <= i < |s| ensures a[i] == b[i] {
      if 'a' <= s[i] <= 'z' {
        assert ToUpper(s[i]) as int == s[i] as int - 32;
      }
    }
  }

  /** Upper-casing ignores an earlier lowering. */
  lemma UpperOfLower(s: string)
    ensures ToUpperString(ToLowerString(s)) == ToUpperString(s)
  {
    var a, b := ToUpperString(ToLowerString(s)), ToUpperString(s);
    forall i | 0 <= i < |s| ensures a[i] == b[i] {
      if IsUpper(s[i]) {
        assert ToLower(s[i]) as int == s[i] as int + 32;
      }
    }
  }

  /** Two characters agree when upper-cased exactly when they agree when
      lower-cased: both say they are equal or the two cases of one letter. */
  lemma SameFold(x: char, y: char)
    ensures ToUpper(x) == ToUpper(y) <==> ToLower(x) == ToLower(y)
  {
    if 'a' <= x <= 'z' {
      assert ToUpper(x) as int == x as int - 32;
    }
    if 'a' <= y <= 'z' {
      assert ToUpper(y) as int == y as int - 32;
    }
    if IsUpper(x) {
      assert ToLower(x) as int == x as int + 32;
    }
    if IsUpper(y) {
      assert ToLower(y) as int == y as int + 32;
    }
  }

  predicate IsDigit(c: char) {
    '0' <= c <= '9'
  }

  predicate AllDigits(s: string) {
    forall i :: 0 <= i < |s| ==> IsDigit(s[i])
  }

  function Digit(d: nat): (c: char)
    requires d < 10
    ensures IsDigit(c)
  {
    (48 + d) as char
  }

  /** `n.ToString()` for a non-negative `n`: its decimal digits, most
      significant first, with no leading zero. */
  function NatString(n: nat): (s: string)
    ensures s != [] && AllDigits(s)
    ensures s[0] == '0' ==> n == 0
    decreases n
  {
    if n < 10 then [Digit(n)] else NatString(n / 10) + [Digit(n % 10)]
  }

  /** The value of a string of decimal digits. */
  function DigitsValue(s: string): nat
    requires AllDigits(s)
  {
    if s == [] then 0
    else DigitsValue(s[..|s| - 1]) * 10 + (s[|s| - 1] as int - 48)
  }

  /** `n.ToString()` for an `int` under the invariant culture. */
  function IntString(n: int): (s: string)
    ensures s != []
    ensures n >= 0 <==> IsDigit(s[0])
  {
    if n >= 0 then NatString(n) else "-" + NatString(-n)
  }

  /** Reading back the digits of `NatString(n)` gives `n`. */
  lemma {:induction false} NatStringRoundTrip(n: nat)
    ensures DigitsValue(NatString(n)) == n
    decreases n
  {
    if n >= 10 {
      NatStringRoundTrip(n / 10);
      var s := NatString(n);
      assert s[..|s| - 1] == NatString(n / 10);
    }
  }

  /** Different integers have different decimal strings. */
  lemma IntStringInjective(a: int, b: int)
    requires IntString(a) == IntString(b)
    ensures a == b
  {
    if a >= 0 {
      NatStringRoundTrip(a);
      NatStringRoundTrip(b);
    } else {
      var sa, sb := NatString(-a), NatString(-b);
      assert sa == IntString(a)[1..];
      assert sb == IntString(b)[1..];
      NatStringRoundTrip(-a);
      NatStringRoundTrip(-b);
    }
  }
}
