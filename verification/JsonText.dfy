// JSON string literals over UTF-16 code units, as JSON.stringify writes them, and how long the text
// is in UTF-8.
module JsonText {
  import opened Prelude

  type Unit = u: int | 0 <= u < 0x10000

  type Text = seq<Unit>

  const QUOTE: Unit := 34
  const BACKSLASH: Unit := 92
  const LOWER_U: Unit := 117

  predicate IsHigh(u: Unit) { 0xD800 <= u <= 0xDBFF }

  predicate IsLow(u: Unit) { 0xDC00 <= u <= 0xDFFF }

  // The surrogates are the units whose top six bits are 110110 and 110111.
  lemma SurrogatesByTopBits(u: Unit)
    ensures (IsHigh(u) <==> u / 0x400 == 0x36) && (IsLow(u) <==> u / 0x400 == 0x37)
  {
  }

  // The units of an ASCII literal.
  function Spelled(s: string): (t: Text)
    requires forall i | 0 <= i < |s| :: s[i] as int < 0x80
    ensures |t| == |s| && forall i | 0 <= i < |s| :: t[i] == s[i] as int
  {
    seq(|s|, i requires 0 <= i < |s| => s[i] as int)
  }

  function HexDigit(d: int): Unit
    requires 0 <= d < 16
  {
    if d < 10 then 48 + d else 87 + d
  }

  function HexValue(u: Unit): Option<int> {
    if 48 <= u <= 57 then Some(u - 48) else if 97 <= u <= 102 then Some(u - 87) else None
  }

  function Hex4(u: Unit): (r: Text)
    ensures |r| == 4
  {
    [HexDigit(u / 16 / 16 / 16), HexDigit(u / 16 / 16 % 16), HexDigit(u / 16 % 16), HexDigit(u % 16)]
  }

  // The letter of a short escape, for the units that have one.
  function ShortEscape(u: Unit): Option<Unit> {
    if u == QUOTE || u == BACKSLASH then Some(u)
    else if u == 8 then Some(98)
    else if u == 9 then Some(116)
    else if u == 10 then Some(110)
    else if u == 12 then Some(102)
    else if u == 13 then Some(114)
    else None
  }

  function EscapeUnit(u: Unit): (r: Text)
    ensures |r| > 0
  {
    if ShortEscape(u).Some? then [BACKSLASH, ShortEscape(u).value]
    else if u < 32 || IsHigh(u) || IsLow(u) then [BACKSLASH, LOWER_U] + Hex4(u)
    else [u]
  }

  // Surrogate pairs are written as they are; a lone surrogate is escaped.
  function Escape(s: Text): Text {
    if s == [] then []
    else if |s| > 1 && IsHigh(s[0]) && IsLow(s[1]) then [s[0], s[1]] + Escape(s[2..])
    else EscapeUnit(s[0]) + Escape(s[1..])
  }

  function Quoted(s: Text): Text {
    [QUOTE] + Escape(s) + [QUOTE]
  }

  // --- Reading a string literal back -----------------------------------------------------------------

  function LongEscape(t: Text): Option<Unit> {
    if |t| < 4 then None
    else
      match (HexValue(t[0]), HexValue(t[1]), HexValue(t[2]), HexValue(t[3]))
      case (Some(a), Some(b), Some(c), Some(d)) => Some(a * 4096 + b * 256 + c * 16 + d)
      case _ => None
  }

  function UnitOfLetter(u: Unit): Option<Unit> {
    if u == QUOTE || u == BACKSLASH then Some(u)
    else if u == 98 then Some(8)
    else if u == 116 then Some(9)
    else if u == 110 then Some(10)
    else if u == 102 then Some(12)
    else if u == 114 then Some(13)
    else None
  }

  // The text up to the closing quote, and what follows the quote.
  function ParseString(t: Text): (r: Option<(Text, Text)>)
    ensures r.Some? ==> |r.value.1| < |t|
  {
    if t == [] then None
    else if t[0] == QUOTE then Some(([], t[1..]))
    else if t[0] != BACKSLASH then
      match ParseString(t[1..])
      case None => None
      case Some((s, rest)) => Some(([t[0]] + s, rest))
    else if |t| > 1 && UnitOfLetter(t[1]).Some? then
      match ParseString(t[2..])
      case None => None
      case Some((s, rest)) => Some(([UnitOfLetter(t[1]).value] + s, rest))
    else if |t| > 6 && t[1] == LOWER_U && LongEscape(t[2..6]).Some? then
      match ParseString(t[6..])
      case None => None
      case Some((s, rest)) => Some(([LongEscape(t[2..6]).value] + s, rest))
    else None
  }

  lemma HexDigitRoundTrip(x: int)
    requires 0 <= x < 16
    ensures HexValue(HexDigit(x)) == Some(x)
  {
  }

  lemma FourDigits(u: Unit)
    ensures u / 16 / 16 / 16 * 4096 + u / 16 / 16 % 16 * 256 + u / 16 % 16 * 16 + u % 16 == u
    ensures u / 16 / 16 / 16 < 16
  {
  }

  lemma HexRoundTrip(u: Unit)
    ensures LongEscape(Hex4(u)) == Some(u)
  {
    hide HexDigit, HexValue;
    HexDigitRoundTrip(u / 16 / 16 / 16);
    HexDigitRoundTrip(u / 16 / 16 % 16);
    HexDigitRoundTrip(u / 16 % 16);
    HexDigitRoundTrip(u % 16);
    FourDigits(u);
  }

  lemma ParsePlainUnit(u: Unit, t: Text)
    requires u != QUOTE && u != BACKSLASH && ParseString(t).Some?
    ensures ParseString([u] + t) == Some(([u] + ParseString(t).value.0, ParseString(t).value.1))
  {
    assert ([u] + t)[1..] == t;
  }

  lemma ParseLongEscape(u: Unit, t: Text)
    requires ParseString(t).Some?
    ensures ParseString([BACKSLASH, LOWER_U] + Hex4(u) + t) ==
            Some(([u] + ParseString(t).value.0, ParseString(t).value.1))
  {
    hide LongEscape, Hex4;
    var whole := [BACKSLASH, LOWER_U] + Hex4(u) + t;
    assert whole[2..6] == Hex4(u) && whole[6..] == t;
    HexRoundTrip(u);
  }

  lemma ParseShortEscape(u: Unit, t: Text)
    requires ShortEscape(u).Some? && ParseString(t).Some?
    ensures ParseString([BACKSLASH, ShortEscape(u).value] + t) ==
            Some(([u] + ParseString(t).value.0, ParseString(t).value.1))
  {
    assert ([BACKSLASH, ShortEscape(u).value] + t)[2..] == t;
  }

  lemma ParseEscapedUnit(u: Unit, t: Text)
    requires ParseString(t).Some?
    ensures ParseString(EscapeUnit(u) + t) == Some(([u] + ParseString(t).value.0, ParseString(t).value.1))
  {
    hide ParseString;
    if ShortEscape(u).Some? {
      ParseShortEscape(u, t);
    } else if u < 32 || IsHigh(u) || IsLow(u) {
      ParseLongEscape(u, t);
    } else {
      ParsePlainUnit(u, t);
    }
  }

  lemma PairStep(s: Text, rest: Text)
    requires |s| > 1 && IsHigh(s[0]) && IsLow(s[1])
    requires ParseString(Escape(s[2..]) + [QUOTE] + rest) == Some((s[2..], rest))
    ensures ParseString(Escape(s) + [QUOTE] + rest) == Some((s, rest))
  {
    hide ParseString;
    var tail := Escape(s[2..]) + [QUOTE] + rest;
    assert Escape(s) + [QUOTE] + rest == [s[0]] + ([s[1]] + tail);
    ParsePlainUnit(s[1], tail);
    ParsePlainUnit(s[0], [s[1]] + tail);
    assert s == [s[0]] + ([s[1]] + s[2..]);
  }

  lemma UnitStep(s: Text, rest: Text)
    requires s != [] && !(|s| > 1 && IsHigh(s[0]) && IsLow(s[1]))
    requires ParseString(Escape(s[1..]) + [QUOTE] + rest) == Some((s[1..], rest))
    ensures ParseString(Escape(s) + [QUOTE] + rest) == Some((s, rest))
  {
    hide ParseString, EscapeUnit;
    var tail := Escape(s[1..]) + [QUOTE] + rest;
    assert Escape(s) + [QUOTE] + rest == EscapeUnit(s[0]) + tail;
    ParseEscapedUnit(s[0], tail);
    assert s == [s[0]] + s[1..];
  }

  // The reader is a left inverse of the writer, whatever follows the literal.
  lemma {:induction false} StringRoundTrip(s: Text, rest: Text)
    ensures ParseString(Escape(s) + [QUOTE] + rest) == Some((s, rest))
  {
    if s == [] {
      assert Escape(s) + [QUOTE] + rest == [QUOTE] + rest;
      assert ([QUOTE] + rest)[1..] == rest;
    } else if |s| > 1 && IsHigh(s[0]) && IsLow(s[1]) {
      StringRoundTrip(s[2..], rest);
      PairStep(s, rest);
    } else {
      StringRoundTrip(s[1..], rest);
      UnitStep(s, rest);
    }
  }

  // --- Length in UTF-8 ---------------------------------------------------------------------------------

  function Utf8Length(s: Text): nat {
    if s == [] then 0
    else if |s| > 1 && IsHigh(s[0]) && IsLow(s[1]) then 4 + Utf8Length(s[2..])
    else (if s[0] < 0x80 then 1 else if s[0] < 0x800 then 2 else 3) + Utf8Length(s[1..])
  }
}
