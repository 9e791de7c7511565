/** `System.Guid` as a 128-bit value, with its canonical text form. */
module Guids {
  import opened Wrappers
  import opened Text

  function Pow16(n: nat): (r: nat)
    ensures r >= 1
  {
    if n == 0 then 1 else 16 * Pow16(n - 1)
  }

  /** 2^128, the number of GUIDs. */
  const GuidBound: nat := 0x1_0000_0000_0000_0000_0000_0000_0000_0000

  /** A GUID, as the 128-bit number its 32 hexadecimal digits spell. */
  type Guid = g: nat | g < GuidBound

  /** `Guid.Empty`. */
  const EmptyGuid: Guid := 0

  lemma {:induction false} Pow16Add(a: nat, b: nat)
    ensures Pow16(a + b) == Pow16(a) * Pow16(b)
    decreases a
  {
    if a > 0 {
      Pow16Add(a - 1, b);
      assert Pow16(a + b) == 16 * Pow16(a - 1 + b);
    }
  }

  /** 32 hexadecimal digits spell exactly the GUIDs. */
  lemma GuidBoundDigits()
    ensures Pow16(32) == GuidBound
  {
    assert Pow16(4) == 0x1_0000;
    Pow16Add(4, 4);
    Pow16Add(8, 8);
    Pow16Add(16, 16);
  }

  predicate IsHexChar(c: char) {
    '0' <= c <= '9' || 'a' <= c <= 'f' || 'A' <= c <= 'F'
  }

  /** The lower-case hexadecimal digit for `d`. */
  function HexChar(d: nat): (c: char)
    requires d < 16
    ensures IsHexChar(c)
  {
    if d < 10 then (48 + d) as char else (87 + d) as char
  }

  /** The value of one hexadecimal digit, either case. */
  function HexValue(c: char): (r: Option<nat>)
    ensures r.Some? <==> IsHexChar(c)
    ensures r.Some? ==> r.value < 16
  {
    if '0' <= c <= '9' then Some(c as int - 48)
    else if 'a' <= c <= 'f' then Some(c as int - 87)
    else if 'A' <= c <= 'F' then Some(c as int - 55)
    else None
  }

  /** `n` as exactly `width` lower-case hexadecimal digits, most significant first. */
  function ToHex(n: nat, width: nat): (s: string)
    requires n < Pow16(width)
    ensures |s| == width
    ensures forall i :: 0 <= i < |s| ==> IsHexChar(s[i])
  {
    if width == 0 then [] else ToHex(n / 16, width - 1) + [HexChar(n % 16)]
  }

  /** The value of a string of hexadecimal digits; `None` if any character is not one. */
  function FromHex(s: string): (r: Option<nat>)
    ensures r.Some? <==> forall i :: 0 <= i < |s| ==> IsHexChar(s[i])
    ensures r.Some? ==> r.value < Pow16(|s|)
  {
    if s == [] then Some(0)
    else
      match (FromHex(s[..|s| - 1]), HexValue(s[|s| - 1]))
      case (Some(v), Some(d)) => Some(v * 16 + d)
      case (None, _) =>
        assert forall i :: 0 <= i < |s| - 1 ==> s[..|s| - 1][i] == s[i];
        None
      case (_, None) => None
  }

  lemma {:induction false} HexRoundTrip(n: nat, width: nat)
    requires n < Pow16(width)
    ensures FromHex(ToHex(n, width)) == Some(n)
  {
    if width > 0 {
      var s := ToHex(n, width);
      assert s[..|s| - 1] == ToHex(n / 16, width - 1);
      assert s[|s| - 1] == HexChar(n % 16);
      HexRoundTrip(n / 16, width - 1);
      assert HexValue(HexChar(n % 16)) == Some(n % 16);
      assert n == n / 16 * 16 + n % 16;
    }
  }

  /** `Guid.ToString()`: the "D" format, 32 lower-case hex digits grouped 8-4-4-4-12. */
  function FormatGuid(g: Guid): (s: string)
    ensures |s| == 36
  {
    GuidBoundDigits();
    Hyphenate(ToHex(g, 32))
  }

  /** 32 digits grouped 8-4-4-4-12 with hyphens between the groups. */
  function Hyphenate(h: string): (s: string)
    requires |h| == 32
    ensures |s| == 36
  {
    h[..8] + "-" + h[8..12] + "-" + h[12..16] + "-" + h[16..20] + "-" + h[20..]
  }

  /** The digits of a "D"-format string without its four hyphens. */
  function StripHyphens(s: string): (h: string)
    requires |s| == 36
    ensures |h| == 32
  {
    s[..8] + s[9..13] + s[14..18] + s[19..23] + s[24..]
  }

  lemma HyphenateStrip(h: string)
    requires |h| == 32
    ensures HasHyphens(Hyphenate(h))
    ensures StripHyphens(Hyphenate(h)) == h
    ensures Hyphenate(h)[0] == h[0] && Hyphenate(h)[35] == h[31]
  {
    var t := Hyphenate(h);
    assert t[..8] == h[..8];
    assert t[9..13] == h[8..12];
    assert t[14..18] == h[12..16];
    assert t[19..23] == h[16..20];
    assert t[24..] == h[20..];
    assert h == h[..8] + h[8..12] + h[12..16] + h[16..20] + h[20..];
  }

  predicate HasHyphens(s: string)
    requires |s| == 36
  {
    s[8] == '-' && s[13] == '-' && s[18] == '-' && s[23] == '-'
  }

  /** The 32 hex digits, or `None`, as a `Guid`. */
  function DigitsToGuid(h: string): (r: Option<Guid>)
    requires |h| == 32
  {
    GuidBoundDigits();
    match FromHex(h)
    case Some(v) => Some(v)
    case None => None
  }

  /** `Guid.Parse` on plain hexadecimal components: white space around the
      text is ignored, and the "D", "N", "B" and "P" layouts are accepted with
      hex digits in either case. `None` stands for a `FormatException`; the
      legacy component prefixes ("0x", "+") that .NET also tolerates are not
      modelled and give `None` here. */
  function ParseGuid(text: string): (r: Option<Guid>)
  {
    var s := Trim(text);
    if |s| == 32 then DigitsToGuid(s)
    else if |s| == 36 then
      if HasHyphens(s) then DigitsToGuid(StripHyphens(s)) else None
    else if |s| == 38 && ((s[0] == '{' && s[37] == '}') || (s[0] == '(' && s[37] == ')')) then
      var inner := s[1..37];
      if HasHyphens(inner) then DigitsToGuid(StripHyphens(inner)) else None
    else None
  }

  /** A text that starts and ends with a hex digit is its own trim. */
  lemma TrimHexEnds(s: string)
    requires s != [] && IsHexChar(s[0]) && IsHexChar(s[|s| - 1])
    ensures Trim(s) == s
  {
    assert !IsWhiteSpace(s[0]) && !IsWhiteSpace(s[|s| - 1]);
  }

  /** The text of a GUID has no surrounding white space. */
  lemma FormatGuidTrimmed(g: Guid)
    ensures Trim(FormatGuid(g)) == FormatGuid(g)
  {
    GuidBoundDigits();
    var h := ToHex(g, 32);
    HyphenateStrip(h);
    TrimHexEnds(Hyphenate(h));
  }

  /** `Guid.Parse(g.ToString()) == g`: the text of a new GUID always parses back to it. */
  lemma ParseFormatRoundTrip(g: Guid)
    ensures ParseGuid(FormatGuid(g)) == Some(g)
  {
    GuidBoundDigits();
    FormatGuidTrimmed(g);
    HyphenateStrip(ToHex(g, 32));
    HexRoundTrip(g, 32);
    assert DigitsToGuid(ToHex(g, 32)) == Some(g);
  }
}
