// Clipping a logged payload to a byte limit: the text is shortened until its wrapped form fits.
module Clipping {
  import opened Prelude
  import opened JsonText
  import CacheKey

  const CLOSE: Unit := 125

  ghost predicate IsAscii(t: Text) {
    forall i | 0 <= i < |t| :: t[i] < 0x80
  }

  // `{"truncated":`
  function Open(): (t: Text)
    ensures |t| == 13 && IsAscii(t)
  {
    [123, 34, 116, 114, 117, 110, 99, 97, 116, 101, 100, 34, 58]
  }

  // `true,"json":`
  function Middle(): (t: Text)
    ensures |t| == 12 && IsAscii(t)
  {
    [116, 114, 117, 101, 44, 34, 106, 115, 111, 110, 34, 58]
  }

  // The text of { truncated: true, json: clipped }.
  function Wrapped(clipped: Text): Text {
    Open() + Middle() + Quoted(clipped) + [CLOSE]
  }

  lemma {:induction false} PlainUnits(t: Text)
    requires forall i | 0 <= i < |t| :: 32 <= t[i] < 0x80 && t[i] != QUOTE && t[i] != BACKSLASH
    ensures Escape(t) == t
  {
    if t != [] { PlainUnits(t[1..]); }
  }

  lemma TruncatedSpelled() returns (t: Text)
    ensures t == Spelled("truncated") && t == [116, 114, 117, 110, 99, 97, 116, 101, 100]
  {
    t := [116, 114, 117, 110, 99, 97, 116, 101, 100];
    assert forall i | 0 <= i < 9 :: t[i] == "truncated"[i] as int;
  }

  lemma JsonSpelled() returns (t: Text)
    ensures t == Spelled("json") && t == [106, 115, 111, 110]
  {
    t := [106, 115, 111, 110];
    assert forall i | 0 <= i < 4 :: t[i] == "json"[i] as int;
  }

  // What opens the wrapper, and what stands between its members' values.
  lemma OpenIsAKey()
    ensures Open() == [CacheKey.OPEN_BRACE] + Quoted(Spelled("truncated")) + [CacheKey.COLON]
  {
    hide Spelled, Escape;
    var t := TruncatedSpelled();
    PlainUnits(t);
  }

  lemma MiddleIsAKey()
    ensures Middle() == CacheKey.TRUE_TEXT + [CacheKey.COMMA] + Quoted(Spelled("json")) + [CacheKey.COLON]
  {
    hide Spelled, Escape;
    var t := JsonSpelled();
    PlainUnits(t);
  }

  lemma TwoMembers(a: CacheKey.Entry, b: CacheKey.Entry)
    ensures CacheKey.PrintOrdered(CacheKey.Obj([a, b])) ==
              [CacheKey.OPEN_BRACE] + (CacheKey.OrderedMember(a) + [CacheKey.COMMA] + CacheKey.OrderedMember(b)) +
              [CacheKey.CLOSE_BRACE]
  {
    hide CacheKey.OrderedMember;
    assert [a, b][1..] == [b];
    assert CacheKey.OrderedMembers([b]) == CacheKey.OrderedMember(b);
    assert CacheKey.OrderedMembers([a, b]) ==
             CacheKey.OrderedMember(a) + [CacheKey.COMMA] + CacheKey.OrderedMembers([b]);
  }

  // The wrapper is the plain JSON text of an object that says it is truncated, and the clipped text.
  lemma WrapperIsPlainJson(clipped: Text)
    ensures Wrapped(clipped) ==
              CacheKey.PrintOrdered(CacheKey.Obj([CacheKey.Entry(Spelled("truncated"), CacheKey.Bool(true)),
                                                  CacheKey.Entry(Spelled("json"), CacheKey.Str(clipped))]))
  {
    hide Quoted, Spelled, Open, Middle;
    TwoMembers(CacheKey.Entry(Spelled("truncated"), CacheKey.Bool(true)), CacheKey.Entry(Spelled("json"), CacheKey.Str(clipped)));
    OpenIsAKey();
    MiddleIsAKey();
    var x, y, z := Quoted(Spelled("truncated")), Quoted(Spelled("json")), Quoted(clipped);
    Regrouped(x, CacheKey.TRUE_TEXT, y, z);
  }

  lemma Regrouped(x: Text, t: Text, y: Text, z: Text)
    ensures [123] + x + [58] + (t + [44] + y + [58]) + z + [CLOSE] ==
              [123] + (x + [58] + t + [44] + (y + [58] + z)) + [125]
  {
  }

  // --- Bytes ----------------------------------------------------------------------------------------------

  // No surrogate pair straddles the two texts.
  predicate Apart(a: Text, b: Text) {
    a == [] || b == [] || !IsHigh(a[|a| - 1]) || !IsLow(b[0])
  }

  lemma {:induction false} BytesAdd(a: Text, b: Text)
    requires Apart(a, b)
    ensures Utf8Length(a + b) == Utf8Length(a) + Utf8Length(b)
  {
    hide IsHigh, IsLow;
    if a == [] {
      assert a + b == b;
    } else if |a| > 1 && IsHigh(a[0]) && IsLow(a[1]) {
      assert (a + b)[2..] == a[2..] + b;
      BytesAdd(a[2..], b);
    } else {
      assert (a + b)[1..] == a[1..] + b;
      BytesAdd(a[1..], b);
    }
  }

  lemma {:induction false} BytesAtLeastUnits(s: Text)
    ensures Utf8Length(s) >= |s|
  {
    if |s| > 1 && IsHigh(s[0]) && IsLow(s[1]) {
      BytesAtLeastUnits(s[2..]);
    } else if s != [] {
      BytesAtLeastUnits(s[1..]);
    }
  }

  function Width(u: Unit): nat {
    if u < 0x80 then 1 else if u < 0x800 then 2 else 3
  }

  lemma EscapedUnit(u: Unit)
    ensures Utf8Length(EscapeUnit(u)) >= Width(u)
    ensures !IsHigh(EscapeUnit(u)[|EscapeUnit(u)| - 1])
  {
    BytesAtLeastUnits(EscapeUnit(u));
    if EscapeUnit(u) == [u] { assert Utf8Length([u]) == Width(u) + Utf8Length([u][1..]); }
  }

  // An escaped text takes at least the bytes of the text.
  lemma {:induction false} EscapingNeverShrinks(s: Text)
    ensures Utf8Length(Escape(s)) >= Utf8Length(s)
  {
    hide EscapeUnit;
    if |s| > 1 && IsHigh(s[0]) && IsLow(s[1]) {
      EscapingNeverShrinks(s[2..]);
      assert ([s[0], s[1]] + Escape(s[2..]))[2..] == Escape(s[2..]);
    } else if s != [] {
      EscapingNeverShrinks(s[1..]);
      EscapedUnit(s[0]);
      BytesAdd(EscapeUnit(s[0]), Escape(s[1..]));
    }
  }

  lemma {:induction false} AsciiBytes(t: Text)
    requires IsAscii(t)
    ensures Utf8Length(t) == |t|
  {
    if t != [] { AsciiBytes(t[1..]); }
  }

  // Wrapping adds 28 bytes to what escaping the text gives.
  lemma WrappedBytes(s: Text)
    ensures Utf8Length(Wrapped(s)) == 28 + Utf8Length(Escape(s))
  {
    hide Escape, Open, Middle, Utf8Length, IsAscii;
    var e, head, end: Text := Escape(s), Open() + Middle() + [QUOTE], [QUOTE, CLOSE];
    EndsAreAscii();
    AsciiBytes(head);
    AsciiBytes(end);
    BytesAdd(e, end);
    BytesAdd(head, e + end);
    assert Wrapped(s) == head + (e + end);
  }

  lemma EndsAreAscii()
    ensures IsAscii(Open() + Middle() + [QUOTE]) && IsAscii([QUOTE, CLOSE])
  {
    hide Open, Middle;
  }

  // A text fits wrapped only if it fits alone, and the empty text fits wrapped from 28 bytes on.
  lemma WrappingCosts(s: Text)
    ensures Utf8Length(Wrapped(s)) >= 28 + Utf8Length(s) && (s == [] ==> Utf8Length(Wrapped(s)) == 28)
  {
    WrappedBytes(s);
    EscapingNeverShrinks(s);
  }

  // --- The loop -------------------------------------------------------------------------------------------

  // The end that slice(0, k) stops at; a negative k counts from the end.
  function SliceEnd(length: nat, k: int): (end: nat)
    ensures end <= length
  {
    if k >= length then length else if k >= 0 then k else if length + k >= 0 then length + k else 0
  }

  // How many units to keep next: the text shrinks with the ratio of limit to size, never below a tenth.
  function Keep(length: nat, limit: nat, bytes: nat): int
    requires bytes > 0
  {
    var fitting := limit as real / bytes as real;
    var ratio := if fitting < 0.1 then 0.1 else fitting;
    (length as real * ratio).Floor - 1
  }

  lemma ShrinkingProduct(length: nat, ratio: real)
    requires 0.0 < ratio <= 1.0
    ensures 0 <= (length as real * ratio).Floor <= length
  {
    assert 0.0 <= length as real * ratio <= length as real;
  }

  // Every round drops at least one unit, also when the slice is asked for -1.
  lemma EveryRoundShrinks(length: nat, limit: nat, bytes: nat)
    requires length > 0 && bytes > limit
    ensures SliceEnd(length, Keep(length, limit, bytes)) < length
  {
    var fitting := limit as real / bytes as real;
    Fraction(limit as real, bytes as real);
    ShrinkingProduct(length, if fitting < 0.1 then 0.1 else fitting);
  }

  lemma Fraction(a: real, b: real)
    requires 0.0 <= a < b
    ensures 0.0 <= a / b <= 1.0
  {
  }

  // The last cut: from a text that did not fit, in proportion to how far it was over the limit.
  ghost predicate CutFrom(longer: Text, json: Text, limit: nat) {
    var bytes := Utf8Length(Wrapped(longer));
    bytes > limit && |longer| > 0 && json == longer[..SliceEnd(|longer|, Keep(|longer|, limit, bytes))]
  }

  // A cut keeps the share of the text that the limit is of its size, and at least a tenth, up to two units; and it
  // keeps no more than the larger of the two, unless that is not even one unit and only the last unit goes.
  lemma CutsAreProportional(longer: Text, json: Text, limit: nat)
    requires CutFrom(longer, json, limit)
    ensures var share := |longer| as real * (limit as real / Utf8Length(Wrapped(longer)) as real);
            var tenth := |longer| as real * 0.1;
            && |json| as real >= share - 2.0 && |json| as real >= tenth - 2.0
            && (|json| as real <= share - 1.0 || |json| as real <= tenth - 1.0 || |json| == |longer| - 1)
  {
    hide Utf8Length, Wrapped, Keep;
    var bytes := Utf8Length(Wrapped(longer));
    EveryRoundShrinks(|longer|, limit, bytes);
    KeepsItsShare(|longer|, limit, bytes);
    assert |json| >= Keep(|longer|, limit, bytes);
  }

  lemma KeepsItsShare(length: nat, limit: nat, bytes: nat)
    requires bytes > 0
    ensures var share, tenth, kept := length as real * (limit as real / bytes as real), length as real * 0.1,
                                      Keep(length, limit, bytes) as real;
            kept >= share - 2.0 && kept >= tenth - 2.0 && (kept <= share - 1.0 || kept <= tenth - 1.0)
  {
    var fitting := limit as real / bytes as real;
    Share(length as real, fitting, if fitting < 0.1 then 0.1 else fitting);
    Share(length as real, 0.1, if fitting < 0.1 then 0.1 else fitting);
  }

  lemma Share(length: real, low: real, high: real)
    requires length >= 0.0 && low <= high
    ensures length * low <= length * high
  {
  }

  datatype Bounded = Unavailable | Whole(text: Text) | Clipped(json: Text)

  // `redacted` is the payload's JSON text, None when it cannot be serialized. What comes back is the payload
  // itself if it fits, and otherwise a wrapper around a proper prefix of its text that fits whenever any
  // wrapper does.
  method BoundedPayloadComponent(redacted: Option<Text>, limit: nat) returns (r: Bounded)
    ensures r.Unavailable? <==> redacted.None?
    ensures redacted.Some? ==> (r.Whole? <==> Utf8Length(redacted.value) <= limit)
    ensures r.Whole? ==> r.text == redacted.value
    ensures r.Clipped? ==> r.json < redacted.value && (Utf8Length(Wrapped(r.json)) <= limit <==> limit >= 28)
    ensures r.Clipped? ==> exists longer :: longer <= redacted.value && CutFrom(longer, r.json, limit)
  {
    hide Utf8Length, Wrapped, Keep;
    if redacted.None? { return Unavailable; }
    if Utf8Length(redacted.value) <= limit { return Whole(redacted.value); }
    var clipped := redacted.value;
    WrappingCosts(clipped);
    var bytes := Utf8Length(Wrapped(clipped));
    ghost var longer := clipped;
    while bytes > limit && |clipped| > 0
      invariant clipped <= redacted.value && bytes == Utf8Length(Wrapped(clipped)) >= 28
      invariant clipped == redacted.value ==> bytes > limit
      invariant clipped == [] ==> bytes == 28
      invariant longer <= redacted.value && (clipped == redacted.value || CutFrom(longer, clipped, limit))
      decreases |clipped|
    {
      EveryRoundShrinks(|clipped|, limit, bytes);
      longer := clipped;
      clipped := clipped[..SliceEnd(|clipped|, Keep(|clipped|, limit, bytes))];
      WrappingCosts(clipped);
      bytes := Utf8Length(Wrapped(clipped));
    }
    if clipped == redacted.value { EmptyIsFree(); }
    r := Clipped(clipped);
  }

  lemma EmptyIsFree()
    ensures Utf8Length([]) == 0
  {
  }

  // Reading the wrapper back gives the clipped text.
  lemma WrapperReadsBack(clipped: Text)
    ensures Open() + Middle() <= Wrapped(clipped)
    ensures ParseString(Wrapped(clipped)[|Open() + Middle()| + 1..]) == Some((clipped, [CLOSE]))
  {
    hide Open, Middle, Escape, ParseString;
    var head := Open() + Middle() + [QUOTE];
    assert Wrapped(clipped) == head + (Escape(clipped) + [QUOTE] + [CLOSE]);
    StringRoundTrip(clipped, [CLOSE]);
  }
}
