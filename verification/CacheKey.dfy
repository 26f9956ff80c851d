// The canonical printer behind cache keys, and why its text identifies a JSON tree up to key order.
module CacheKey {
  import opened Prelude
  import opened JsonText
  import opened Lexicographic

  // Numbers are identified with the text JSON.stringify gives them. Absent stands for whatever
  // JSON.stringify has no text for (undefined, functions, symbols) or writes as null (non-finite
  // numbers).
  datatype Json =
    | Null
    | Absent
    | Bool(b: bool)
    | Number(text: Text)
    | Str(s: Text)
    | Arr(items: seq<Json>)
    | Obj(entries: seq<Entry>)

  datatype Entry = Entry(key: Text, value: Json)

  const COMMA: Unit := 44
  const COLON: Unit := 58
  const OPEN_BRACKET: Unit := 91
  const CLOSE_BRACKET: Unit := 93
  const OPEN_BRACE: Unit := 123
  const CLOSE_BRACE: Unit := 125
  const NULL_TEXT: Text := [110, 117, 108, 108]
  const TRUE_TEXT: Text := [116, 114, 117, 101]
  const FALSE_TEXT: Text := [102, 97, 108, 115, 101]

  // Digits, sign, point and exponent.
  predicate IsNumberUnit(u: Unit) {
    48 <= u <= 57 || u == 43 || u == 45 || u == 46 || u == 69 || u == 101
  }

  predicate IsNumberText(t: Text) {
    |t| > 0 && (48 <= t[0] <= 57 || t[0] == 45) && forall i | 0 <= i < |t| :: IsNumberUnit(t[i])
  }

  ghost predicate DistinctKeys(es: seq<Entry>) {
    forall i, j | 0 <= i < j < |es| :: es[i].key != es[j].key
  }

  ghost predicate Valid(j: Json) {
    match j
    case Number(t) => IsNumberText(t)
    case Arr(items) => forall i | 0 <= i < |items| :: Valid(items[i])
    case Obj(es) => DistinctKeys(es) && forall i | 0 <= i < |es| :: Valid(es[i].value)
    case _ => true
  }

  // --- Sorted keys -------------------------------------------------------------------------------------

  function Insert(key: Text, sorted: seq<Text>): seq<Text> {
    if sorted == [] then [key]
    else if Less(sorted[0], key) then [sorted[0]] + Insert(key, sorted[1..])
    else [key] + sorted
  }

  function Keys(es: seq<Entry>): (r: seq<Text>)
    ensures |r| == |es|
    ensures forall i | 0 <= i < |es| :: r[i] == es[i].key
  {
    seq(|es|, i requires 0 <= i < |es| => es[i].key)
  }

  function Sort(keys: seq<Text>): seq<Text> {
    if keys == [] then [] else Insert(keys[0], Sort(keys[1..]))
  }

  lemma {:induction false} InsertElements(key: Text, sorted: seq<Text>)
    ensures forall k :: k in Insert(key, sorted) <==> k == key || k in sorted
  {
    if sorted != [] && Less(sorted[0], key) {
      InsertElements(key, sorted[1..]);
      assert forall k :: k in sorted <==> k == sorted[0] || k in sorted[1..];
    }
  }

  lemma {:induction false} InsertAscending(key: Text, sorted: seq<Text>)
    requires Ascending(sorted) && key !in sorted
    ensures Ascending(Insert(key, sorted))
  {
    if sorted == [] {
    } else if Less(sorted[0], key) {
      InsertAscending(key, sorted[1..]);
      InsertElements(key, sorted[1..]);
      var tail := Insert(key, sorted[1..]);
      forall j | 0 <= j < |tail|
        ensures Less(sorted[0], tail[j])
      {
        assert tail[j] in tail;
        if tail[j] != key {
          var n :| 0 <= n < |sorted[1..]| && sorted[1..][n] == tail[j];
          assert tail[j] == sorted[n + 1];
        }
      }
    } else {
      LessTotal(sorted[0], key);
      forall j | 0 <= j < |sorted|
        ensures Less(key, sorted[j])
      {
        assert sorted[0] in sorted;
        if j > 0 { LessTransitive(key, sorted[0], sorted[j]); }
      }
    }
  }

  lemma {:induction false} SortElements(keys: seq<Text>)
    ensures forall k :: k in Sort(keys) <==> k in keys
  {
    if keys != [] {
      SortElements(keys[1..]);
      InsertElements(keys[0], Sort(keys[1..]));
      assert forall k :: k in keys <==> k == keys[0] || k in keys[1..];
    }
  }

  lemma {:induction false} SortAscends(keys: seq<Text>)
    requires Distinct(keys)
    ensures Ascending(Sort(keys))
  {
    if keys != [] {
      SortAscends(keys[1..]);
      SortElements(keys[1..]);
      assert keys[0] !in keys[1..];
      InsertAscending(keys[0], Sort(keys[1..]));
    }
  }

  // --- The printer ---------------------------------------------------------------------------------------

  predicate Has(es: seq<Entry>, key: Text) {
    exists i | 0 <= i < |es| :: es[i].key == key
  }

  function Find(es: seq<Entry>, key: Text): (i: nat)
    requires Has(es, key)
    ensures i < |es| && es[i].key == key
  {
    if es[0].key == key then 0
    else
      assert exists i | 0 <= i < |es[1..]| :: es[1..][i].key == key by {
        var i :| 0 <= i < |es| && es[i].key == key;
        assert es[1..][i - 1].key == key;
      }
      1 + Find(es[1..], key)
  }

  lemma SortedKeysPresent(es: seq<Entry>)
    ensures forall k | k in Sort(Keys(es)) :: Has(es, k)
    ensures forall i | 0 <= i < |es| :: es[i].key in Sort(Keys(es))
  {
    SortElements(Keys(es));
    forall k | k in Keys(es)
      ensures Has(es, k)
    {
      var i :| 0 <= i < |Keys(es)| && Keys(es)[i] == k;
      assert es[i].key == k;
    }
    assert forall i | 0 <= i < |es| :: Keys(es)[i] in Keys(es);
  }

  function CanonicalStringify(v: Json): Text
    decreases v, 0
  {
    match v
    case Null => NULL_TEXT
    case Absent => NULL_TEXT
    case Bool(b) => if b then TRUE_TEXT else FALSE_TEXT
    case Number(t) => t
    case Str(s) => Quoted(s)
    case Arr(items) => [OPEN_BRACKET] + PrintItems(items) + [CLOSE_BRACKET]
    case Obj(es) =>
      SortedKeysPresent(es);
      [OPEN_BRACE] + PrintMembers(es, Sort(Keys(es))) + [CLOSE_BRACE]
  }

  function PrintItems(items: seq<Json>): Text
    decreases items, 0
  {
    if items == [] then []
    else if |items| == 1 then CanonicalStringify(items[0])
    else CanonicalStringify(items[0]) + [COMMA] + PrintItems(items[1..])
  }

  function PrintMembers(es: seq<Entry>, keys: seq<Text>): Text
    requires forall k | k in keys :: Has(es, k)
    decreases es, 1, |keys|
  {
    if keys == [] then []
    else
      var member := Quoted(keys[0]) + [COLON] + CanonicalStringify(es[Find(es, keys[0])].value);
      if |keys| == 1 then member else member + [COMMA] + PrintMembers(es, keys[1..])
  }

  // --- Normal form -----------------------------------------------------------------------------------------

  // The tree with keys in order and Absent written as null.
  function Normal(v: Json): Json
    decreases v, 0
  {
    match v
    case Absent => Null
    case Arr(items) => Arr(NormalItems(items))
    case Obj(es) =>
      SortedKeysPresent(es);
      Obj(NormalMembers(es, Sort(Keys(es))))
    case _ => v
  }

  function NormalItems(items: seq<Json>): (r: seq<Json>)
    ensures |r| == |items|
    decreases items, 0
  {
    if items == [] then [] else [Normal(items[0])] + NormalItems(items[1..])
  }

  function NormalMembers(es: seq<Entry>, keys: seq<Text>): (r: seq<Entry>)
    requires forall k | k in keys :: Has(es, k)
    ensures |r| == |keys|
    decreases es, 1, |keys|
  {
    if keys == [] then []
    else [Entry(keys[0], Normal(es[Find(es, keys[0])].value))] + NormalMembers(es, keys[1..])
  }

  // Prints a tree in the order it is in.
  function PrintOrdered(v: Json): Text
    decreases v, 0
  {
    match v
    case Null => NULL_TEXT
    case Absent => NULL_TEXT
    case Bool(b) => if b then TRUE_TEXT else FALSE_TEXT
    case Number(t) => t
    case Str(s) => Quoted(s)
    case Arr(items) => [OPEN_BRACKET] + OrderedItems(items) + [CLOSE_BRACKET]
    case Obj(es) => [OPEN_BRACE] + OrderedMembers(es) + [CLOSE_BRACE]
  }

  function OrderedItems(items: seq<Json>): Text
    decreases items, 0
  {
    if items == [] then []
    else if |items| == 1 then PrintOrdered(items[0])
    else PrintOrdered(items[0]) + [COMMA] + OrderedItems(items[1..])
  }

  function OrderedMember(e: Entry): Text
    decreases e, 1
  {
    Quoted(e.key) + [COLON] + PrintOrdered(e.value)
  }

  function OrderedMembers(es: seq<Entry>): Text
    decreases es, 0
  {
    if es == [] then []
    else if |es| == 1 then OrderedMember(es[0])
    else OrderedMember(es[0]) + [COMMA] + OrderedMembers(es[1..])
  }

  lemma {:induction false} PrintsItsNormalForm(v: Json)
    ensures CanonicalStringify(v) == PrintOrdered(Normal(v))
    decreases v, 0
  {
    match v
    case Arr(items) => ItemsPrintNormal(items);
    case Obj(es) =>
      SortedKeysPresent(es);
      MembersPrintNormal(es, Sort(Keys(es)));
    case _ =>
  }

  lemma {:induction false} ItemsPrintNormal(items: seq<Json>)
    ensures PrintItems(items) == OrderedItems(NormalItems(items))
    decreases items, 0
  {
    if items != [] {
      PrintsItsNormalForm(items[0]);
      ItemsPrintNormal(items[1..]);
      assert NormalItems(items)[1..] == NormalItems(items[1..]);
    }
  }

  lemma {:induction false} MembersPrintNormal(es: seq<Entry>, keys: seq<Text>)
    requires forall k | k in keys :: Has(es, k)
    ensures PrintMembers(es, keys) == OrderedMembers(NormalMembers(es, keys))
    decreases es, 1, |keys|
  {
    if keys != [] {
      PrintsItsNormalForm(es[Find(es, keys[0])].value);
      MembersPrintNormal(es, keys[1..]);
      assert NormalMembers(es, keys)[1..] == NormalMembers(es, keys[1..]);
    }
  }

  // --- A reader that inverts the printer on any suffix ---------------------------------------------------

  function NumberRun(t: Text): (n: nat)
    ensures n <= |t|
  {
    if t == [] || !IsNumberUnit(t[0]) then 0 else 1 + NumberRun(t[1..])
  }

  function ParseValue(t: Text): (r: Option<(Json, Text)>)
    ensures r.Some? ==> |r.value.1| < |t|
    decreases |t|, 0
  {
    if t == [] then None
    else if t[0] == QUOTE then
      match ParseString(t[1..])
      case None => None
      case Some((s, rest)) => Some((Str(s), rest))
    else if t[0] == OPEN_BRACKET then
      if |t| > 1 && t[1] == CLOSE_BRACKET then Some((Arr([]), t[2..]))
      else
        (match ParseItems(t[1..])
         case None => None
         case Some((items, rest)) => Some((Arr(items), rest)))
    else if t[0] == OPEN_BRACE then
      if |t| > 1 && t[1] == CLOSE_BRACE then Some((Obj([]), t[2..]))
      else
        (match ParseMembers(t[1..])
         case None => None
         case Some((es, rest)) => Some((Obj(es), rest)))
    else ParsePlain(t)
  }

  // The literals and numbers.
  function ParsePlain(t: Text): (r: Option<(Json, Text)>)
    requires t != []
    ensures r.Some? ==> |r.value.1| < |t|
  {
    if NULL_TEXT <= t then Some((Null, t[4..]))
    else if TRUE_TEXT <= t then Some((Bool(true), t[4..]))
    else if FALSE_TEXT <= t then Some((Bool(false), t[5..]))
    else if NumberRun(t) > 0 then Some((Number(t[..NumberRun(t)]), t[NumberRun(t)..]))
    else None
  }

  function ParseItems(t: Text): (r: Option<(seq<Json>, Text)>)
    ensures r.Some? ==> |r.value.1| < |t|
    decreases |t|, 1
  {
    match ParseValue(t)
    case None => None
    case Some((v, rest)) =>
      if rest == [] then None
      else if rest[0] == CLOSE_BRACKET then Some(([v], rest[1..]))
      else if rest[0] != COMMA then None
      else
        match ParseItems(rest[1..])
        case None => None
        case Some((items, after)) => Some(([v] + items, after))
  }

  function ParseMember(t: Text): (r: Option<(Entry, Text)>)
    ensures r.Some? ==> |r.value.1| < |t|
    decreases |t|, 1
  {
    if t == [] || t[0] != QUOTE then None
    else
      match ParseString(t[1..])
      case None => None
      case Some((key, rest)) =>
        if rest == [] || rest[0] != COLON then None
        else
          match ParseValue(rest[1..])
          case None => None
          case Some((v, after)) => Some((Entry(key, v), after))
  }

  function ParseMembers(t: Text): (r: Option<(seq<Entry>, Text)>)
    ensures r.Some? ==> |r.value.1| < |t|
    decreases |t|, 2
  {
    match ParseMember(t)
    case None => None
    case Some((e, rest)) =>
      if rest == [] then None
      else if rest[0] == CLOSE_BRACE then Some(([e], rest[1..]))
      else if rest[0] != COMMA then None
      else
        match ParseMembers(rest[1..])
        case None => None
        case Some((es, after)) => Some(([e] + es, after))
  }

  // Trees the printer can produce after normalisation: number texts are numbers, nothing is absent.
  ghost predicate Printable(v: Json) {
    match v
    case Absent => false
    case Number(t) => IsNumberText(t)
    case Arr(items) => forall i | 0 <= i < |items| :: Printable(items[i])
    case Obj(es) => forall i | 0 <= i < |es| :: Printable(es[i].value)
    case _ => true
  }

  // What follows a number must not read as more of it.
  predicate Separates(rest: Text) {
    rest == [] || !IsNumberUnit(rest[0])
  }

  lemma {:induction false} NumberRunStops(t: Text, rest: Text)
    requires forall i | 0 <= i < |t| :: IsNumberUnit(t[i])
    requires Separates(rest)
    ensures NumberRun(t + rest) == |t|
  {
    if t == [] {
      assert t + rest == rest;
    } else {
      assert (t + rest)[1..] == t[1..] + rest;
      NumberRunStops(t[1..], rest);
    }
  }

  // Printed values start with a unit that no separator or closing bracket starts with.
  predicate StartsValue(u: Unit) {
    u == 110 || u == 116 || u == 102 || u == QUOTE || u == OPEN_BRACKET || u == OPEN_BRACE || u == 45 || 48 <= u <= 57
  }

  lemma PrintedValueStarts(v: Json)
    requires Printable(v)
    ensures |PrintOrdered(v)| > 0 && StartsValue(PrintOrdered(v)[0])
  {
  }

  lemma ParseNumber(t: Text, rest: Text)
    requires IsNumberText(t) && Separates(rest)
    ensures ParseValue(t + rest) == Some((Number(t), rest))
  {
    NumberRunStops(t, rest);
    assert (t + rest)[..|t|] == t && (t + rest)[|t|..] == rest;
    assert (t + rest)[0] == t[0];
  }

  lemma ParseStr(s: Text, rest: Text)
    ensures ParseValue(Quoted(s) + rest) == Some((Str(s), rest))
  {
    StringRoundTrip(s, rest);
    var whole := Quoted(s) + rest;
    assert whole[0] == QUOTE && whole[1..] == Escape(s) + [QUOTE] + rest;
  }

  lemma ParseLiteral(word: Text, v: Json, rest: Text)
    requires (word == NULL_TEXT && v == Null) || (word == TRUE_TEXT && v == Bool(true)) ||
             (word == FALSE_TEXT && v == Bool(false))
    ensures ParseValue(word + rest) == Some((v, rest))
  {
    var whole := word + rest;
    assert whole[..|word|] == word && whole[|word|..] == rest;
    assert word <= whole && whole[0] == word[0];
  }

  lemma {:induction false} ReaderInvertsPrinter(v: Json, rest: Text)
    requires Printable(v) && (v.Number? ==> Separates(rest))
    ensures ParseValue(PrintOrdered(v) + rest) == Some((v, rest))
    decreases v, 0
  {
    hide ParseValue;
    match v
    case Null => ParseLiteral(NULL_TEXT, v, rest);
    case Bool(b) => ParseLiteral(if b then TRUE_TEXT else FALSE_TEXT, v, rest);
    case Number(t) => ParseNumber(t, rest);
    case Str(s) => ParseStr(s, rest);
    case Arr(items) =>
      if items != [] { ReaderInvertsItems(items, rest); }
      ParseArray(items, rest);
    case Obj(es) =>
      if es != [] { ReaderInvertsMembers(es, rest); }
      ParseObject(es, rest);
  }

  lemma ReadBracket(inner: Text)
    requires inner != []
    ensures inner[0] == CLOSE_BRACKET ==> ParseValue([OPEN_BRACKET] + inner) == Some((Arr([]), inner[1..]))
    ensures inner[0] != CLOSE_BRACKET && ParseItems(inner).Some? ==>
              ParseValue([OPEN_BRACKET] + inner) == Some((Arr(ParseItems(inner).value.0), ParseItems(inner).value.1))
  {
    hide ParseItems, ParsePlain;
    var whole := [OPEN_BRACKET] + inner;
    assert whole[1..] == inner && whole[2..] == inner[1..];
  }

  lemma ReadBrace(inner: Text)
    requires inner != []
    ensures inner[0] == CLOSE_BRACE ==> ParseValue([OPEN_BRACE] + inner) == Some((Obj([]), inner[1..]))
    ensures inner[0] != CLOSE_BRACE && ParseMembers(inner).Some? ==>
              ParseValue([OPEN_BRACE] + inner) == Some((Obj(ParseMembers(inner).value.0), ParseMembers(inner).value.1))
  {
    hide ParseMembers, ParsePlain;
    var whole := [OPEN_BRACE] + inner;
    assert whole[1..] == inner && whole[2..] == inner[1..];
  }

  lemma ParseArray(items: seq<Json>, rest: Text)
    requires items != [] ==> Printable(items[0])
    requires items != [] ==> ParseItems(OrderedItems(items) + [CLOSE_BRACKET] + rest) == Some((items, rest))
    ensures ParseValue(PrintOrdered(Arr(items)) + rest) == Some((Arr(items), rest))
  {
    hide ParseValue, ParseItems, Printable;
    var inner := OrderedItems(items) + [CLOSE_BRACKET] + rest;
    assert PrintOrdered(Arr(items)) + rest == [OPEN_BRACKET] + inner;
    if items != [] {
      PrintedValueStarts(items[0]);
      assert inner[0] == PrintOrdered(items[0])[0];
    } else {
      assert inner == [CLOSE_BRACKET] + rest && inner[1..] == rest;
    }
    ReadBracket(inner);
  }

  lemma ParseObject(es: seq<Entry>, rest: Text)
    requires es != [] ==> ParseMembers(OrderedMembers(es) + [CLOSE_BRACE] + rest) == Some((es, rest))
    ensures ParseValue(PrintOrdered(Obj(es)) + rest) == Some((Obj(es), rest))
  {
    hide ParseValue, ParseMembers;
    var inner := OrderedMembers(es) + [CLOSE_BRACE] + rest;
    assert PrintOrdered(Obj(es)) + rest == [OPEN_BRACE] + inner;
    if es != [] {
      assert OrderedMember(es[0])[0] == QUOTE;
      assert inner[0] == QUOTE;
    } else {
      assert inner == [CLOSE_BRACE] + rest && inner[1..] == rest;
    }
    ReadBrace(inner);
  }

  lemma {:induction false} ReaderInvertsItems(items: seq<Json>, rest: Text)
    requires items != [] && forall i | 0 <= i < |items| :: Printable(items[i])
    ensures ParseItems(OrderedItems(items) + [CLOSE_BRACKET] + rest) == Some((items, rest))
    decreases items, 0
  {
    hide ParseValue, ParseItems, PrintOrdered, Printable;
    var tail := if |items| == 1 then [CLOSE_BRACKET] + rest
                else [COMMA] + (OrderedItems(items[1..]) + [CLOSE_BRACKET] + rest);
    assert OrderedItems(items) + [CLOSE_BRACKET] + rest == PrintOrdered(items[0]) + tail;
    ReaderInvertsPrinter(items[0], tail);
    ReadNextItem(PrintOrdered(items[0]) + tail, items[0], tail);
    if |items| > 1 {
      assert tail[1..] == OrderedItems(items[1..]) + [CLOSE_BRACKET] + rest;
      ReaderInvertsItems(items[1..], rest);
      assert items == [items[0]] + items[1..];
    } else {
      assert tail[1..] == rest && items == [items[0]];
    }
  }

  lemma ReadNextItem(t: Text, v: Json, rest: Text)
    requires ParseValue(t) == Some((v, rest)) && rest != []
    ensures rest[0] == CLOSE_BRACKET ==> ParseItems(t) == Some(([v], rest[1..]))
    ensures rest[0] == COMMA && ParseItems(rest[1..]).Some? ==>
              ParseItems(t) == Some(([v] + ParseItems(rest[1..]).value.0, ParseItems(rest[1..]).value.1))
  {
    hide ParseValue;
  }

  lemma {:induction false} ReaderInvertsMember(e: Entry, rest: Text)
    requires Printable(e.value) && Separates(rest)
    ensures ParseMember(OrderedMember(e) + rest) == Some((e, rest))
    decreases e, 1
  {
    hide ParseValue;
    var tail := [COLON] + (PrintOrdered(e.value) + rest);
    var whole := OrderedMember(e) + rest;
    assert whole == Quoted(e.key) + tail;
    assert whole[1..] == Escape(e.key) + [QUOTE] + tail;
    StringRoundTrip(e.key, tail);
    assert tail[1..] == PrintOrdered(e.value) + rest;
    ReaderInvertsPrinter(e.value, rest);
  }

  lemma ReadNextMember(t: Text, e: Entry, rest: Text)
    requires ParseMember(t) == Some((e, rest)) && rest != []
    ensures rest[0] == CLOSE_BRACE ==> ParseMembers(t) == Some(([e], rest[1..]))
    ensures rest[0] == COMMA && ParseMembers(rest[1..]).Some? ==>
              ParseMembers(t) == Some(([e] + ParseMembers(rest[1..]).value.0, ParseMembers(rest[1..]).value.1))
  {
    hide ParseMember;
  }

  lemma {:induction false} ReaderInvertsMembers(es: seq<Entry>, rest: Text)
    requires es != [] && forall i | 0 <= i < |es| :: Printable(es[i].value)
    ensures ParseMembers(OrderedMembers(es) + [CLOSE_BRACE] + rest) == Some((es, rest))
    decreases es, 0
  {
    hide ParseMember, ParseMembers, OrderedMember;
    if |es| == 1 {
      var tail := [CLOSE_BRACE] + rest;
      assert OrderedMembers(es) + [CLOSE_BRACE] + rest == OrderedMember(es[0]) + tail;
      ReaderInvertsMember(es[0], tail);
      ReadNextMember(OrderedMember(es[0]) + tail, es[0], tail);
      assert tail[1..] == rest && es == [es[0]];
    } else {
      var inner := OrderedMembers(es[1..]) + [CLOSE_BRACE] + rest;
      var tail := [COMMA] + inner;
      assert OrderedMembers(es) + [CLOSE_BRACE] + rest == OrderedMember(es[0]) + tail;
      ReaderInvertsMember(es[0], tail);
      ReaderInvertsMembers(es[1..], rest);
      assert tail[1..] == inner;
      ReadNextMember(OrderedMember(es[0]) + tail, es[0], tail);
      assert es == [es[0]] + es[1..];
    }
  }

  // --- Equality up to key order ---------------------------------------------------------------------------

  // Two trees that differ at most in the order of object keys; an absent value counts as null.
  ghost predicate SameUpToOrder(a: Json, b: Json) {
    match a
    case Null => b.Null? || b.Absent?
    case Absent => b.Null? || b.Absent?
    case Bool(x) => b == Bool(x)
    case Number(t) => b == Number(t)
    case Str(s) => b == Str(s)
    case Arr(xs) => b.Arr? && |xs| == |b.items| && forall i | 0 <= i < |xs| :: SameUpToOrder(xs[i], b.items[i])
    case Obj(es) =>
      b.Obj? && (forall k :: Has(es, k) <==> Has(b.entries, k)) &&
      forall i | 0 <= i < |es| ::
        Has(b.entries, es[i].key) && SameUpToOrder(es[i].value, b.entries[Find(b.entries, es[i].key)].value)
  }

  lemma FoundOnce(es: seq<Entry>, i: nat)
    requires DistinctKeys(es) && i < |es|
    ensures Has(es, es[i].key) && Find(es, es[i].key) == i
  {
    var j := Find(es, es[i].key);
    assert es[i].key == es[j].key;
  }

  lemma SortedKeysOf(es: seq<Entry>)
    requires DistinctKeys(es)
    ensures Ascending(Sort(Keys(es)))
    ensures forall k :: k in Sort(Keys(es)) <==> Has(es, k)
  {
    SortAscends(Keys(es));
    SortedKeysPresent(es);
    forall k | Has(es, k)
      ensures k in Sort(Keys(es))
    {
      var i := Find(es, k);
      assert es[i].key == k;
    }
  }

  lemma {:induction false} NormalIsPrintable(v: Json)
    requires Valid(v)
    ensures Printable(Normal(v))
    decreases v, 0
  {
    match v
    case Arr(items) => NormalItemsPrintable(items);
    case Obj(es) =>
      SortedKeysPresent(es);
      NormalMembersPrintable(es, Sort(Keys(es)));
    case _ =>
  }

  lemma {:induction false} NormalItemsPrintable(items: seq<Json>)
    requires forall i | 0 <= i < |items| :: Valid(items[i])
    ensures forall i | 0 <= i < |items| :: NormalItems(items)[i] == Normal(items[i]) && Printable(NormalItems(items)[i])
    decreases items, 0
  {
    if items != [] {
      NormalIsPrintable(items[0]);
      NormalItemsPrintable(items[1..]);
    }
  }

  lemma {:induction false} NormalMembersPrintable(es: seq<Entry>, keys: seq<Text>)
    requires forall k | k in keys :: Has(es, k)
    requires forall i | 0 <= i < |es| :: Valid(es[i].value)
    ensures forall i | 0 <= i < |keys| ::
              NormalMembers(es, keys)[i] == Entry(keys[i], Normal(es[Find(es, keys[i])].value)) &&
              Printable(NormalMembers(es, keys)[i].value)
    decreases es, 1, |keys|
  {
    if keys != [] {
      NormalIsPrintable(es[Find(es, keys[0])].value);
      NormalMembersPrintable(es, keys[1..]);
    }
  }

  lemma {:induction false} NormalItemsAt(items: seq<Json>, i: nat)
    requires i < |items|
    ensures NormalItems(items)[i] == Normal(items[i])
  {
    if i > 0 { NormalItemsAt(items[1..], i - 1); }
  }

  lemma {:induction false} NormalMembersAt(es: seq<Entry>, keys: seq<Text>, i: nat)
    requires (forall k | k in keys :: Has(es, k)) && i < |keys|
    ensures Has(es, keys[i])
    ensures NormalMembers(es, keys)[i] == Entry(keys[i], Normal(es[Find(es, keys[i])].value))
    decreases keys
  {
    if i > 0 { NormalMembersAt(es, keys[1..], i - 1); }
  }

  // Normal forms decide equality up to key order.
  lemma {:induction false} NormalDecides(a: Json, b: Json)
    requires Valid(a) && Valid(b)
    ensures Normal(a) == Normal(b) <==> SameUpToOrder(a, b)
    decreases a
  {
    match a
    case Arr(xs) =>
      if b.Arr? {
        forall i | 0 <= i < |xs| && |xs| == |b.items|
          ensures NormalItems(xs)[i] == NormalItems(b.items)[i] <==> SameUpToOrder(xs[i], b.items[i])
        {
          NormalItemsAt(xs, i);
          NormalItemsAt(b.items, i);
          NormalDecides(xs[i], b.items[i]);
        }
      }
    case Obj(es) => if b.Obj? { ObjectsDecide(a, b); }
    case _ =>
  }

  lemma {:induction false} ObjectsDecide(a: Json, b: Json)
    requires Valid(a) && Valid(b) && a.Obj? && b.Obj?
    ensures Normal(a) == Normal(b) <==> SameUpToOrder(a, b)
    decreases a, 0
  {
    hide NormalMembers, Sort, Less, Find;
    var ea, eb := a.entries, b.entries;
    var ka, kb := Sort(Keys(ea)), Sort(Keys(eb));
    SortedKeysOf(ea);
    SortedKeysOf(eb);
    if forall k :: Has(ea, k) <==> Has(eb, k) {
      AscendingUnique(ka, kb);
      forall n | 0 <= n < |ea|
        ensures Has(eb, ea[n].key)
        ensures Normal(ea[n].value) == Normal(eb[Find(eb, ea[n].key)].value) <==>
                SameUpToOrder(ea[n].value, eb[Find(eb, ea[n].key)].value)
      {
        FoundOnce(ea, n);
        NormalDecides(ea[n].value, eb[Find(eb, ea[n].key)].value);
      }
      MembersAgree(ea, eb, ka);
    } else if NormalMembers(ea, ka) == NormalMembers(eb, kb) {
      SameMembersSameKeys(ea, ka, eb, kb);
    }
  }

  lemma MembersAgree(ea: seq<Entry>, eb: seq<Entry>, keys: seq<Text>)
    requires DistinctKeys(ea)
    requires forall k :: (k in keys <==> Has(ea, k)) && (k in keys <==> Has(eb, k))
    ensures forall n | 0 <= n < |ea| :: Has(eb, ea[n].key)
    ensures NormalMembers(ea, keys) == NormalMembers(eb, keys) <==>
            forall n | 0 <= n < |ea| :: Normal(ea[n].value) == Normal(eb[Find(eb, ea[n].key)].value)
  {
    var na, nb := NormalMembers(ea, keys), NormalMembers(eb, keys);
    forall n | 0 <= n < |ea|
      ensures Has(eb, ea[n].key)
      ensures na == nb ==> Normal(ea[n].value) == Normal(eb[Find(eb, ea[n].key)].value)
    {
      FoundOnce(ea, n);
      assert ea[n].key in keys;
      var i :| 0 <= i < |keys| && keys[i] == ea[n].key;
      NormalMembersAt(ea, keys, i);
      NormalMembersAt(eb, keys, i);
    }
    if forall n | 0 <= n < |ea| :: Normal(ea[n].value) == Normal(eb[Find(eb, ea[n].key)].value) {
      forall i | 0 <= i < |keys|
        ensures na[i] == nb[i]
      {
        assert keys[i] in keys;
        NormalMembersAt(ea, keys, i);
        NormalMembersAt(eb, keys, i);
        assert ea[Find(ea, keys[i])].key == keys[i];
      }
    }
  }

  lemma SameMembersSameKeys(ea: seq<Entry>, ka: seq<Text>, eb: seq<Entry>, kb: seq<Text>)
    requires (forall k | k in ka :: Has(ea, k)) && (forall k | k in kb :: Has(eb, k))
    requires NormalMembers(ea, ka) == NormalMembers(eb, kb)
    ensures ka == kb
  {
    forall i | 0 <= i < |ka|
      ensures ka[i] == kb[i]
    {
      NormalMembersAt(ea, ka, i);
      NormalMembersAt(eb, kb, i);
    }
  }

  // Two trees have one canonical text exactly when they are equal up to key order.
  lemma CanonicalTextDecides(a: Json, b: Json)
    requires Valid(a) && Valid(b)
    ensures CanonicalStringify(a) == CanonicalStringify(b) <==> SameUpToOrder(a, b)
  {
    PrintsItsNormalForm(a);
    PrintsItsNormalForm(b);
    NormalIsPrintable(a);
    NormalIsPrintable(b);
    ReaderInvertsPrinter(Normal(a), []);
    ReaderInvertsPrinter(Normal(b), []);
    assert PrintOrdered(Normal(a)) + [] == PrintOrdered(Normal(a));
    assert PrintOrdered(Normal(b)) + [] == PrintOrdered(Normal(b));
    NormalDecides(a, b);
  }

  // An explicit undefined is indistinguishable from null.
  lemma AbsentCollidesWithNull(key: Text)
    ensures CanonicalStringify(Obj([Entry(key, Absent)])) == CanonicalStringify(Obj([Entry(key, Null)]))
    ensures Obj([Entry(key, Absent)]) != Obj([Entry(key, Null)])
  {
    CanonicalTextDecides(Obj([Entry(key, Absent)]), Obj([Entry(key, Null)]));
    FoundOnce([Entry(key, Absent)], 0);
    FoundOnce([Entry(key, Null)], 0);
    forall k
      ensures Has([Entry(key, Absent)], k) <==> Has([Entry(key, Null)], k)
    {
      assert [Entry(key, Absent)][0].key == [Entry(key, Null)][0].key;
    }
    assert Entry(key, Absent).value != Entry(key, Null).value;
    assert [Entry(key, Absent)][0] != [Entry(key, Null)][0];
  }

  // --- Cache keys -------------------------------------------------------------------------------------------

  const CACHE_PREFIX: Text := [99, 97, 99, 104, 101, 58]

  function BuildCacheKey(digest: Text -> Text, callType: Text, ns: Text, payload: Json): Text {
    CACHE_PREFIX + callType + [COLON] + ns + [COLON] + digest(CanonicalStringify(payload))
  }

  predicate NoColon(t: Text) {
    COLON !in t
  }

  lemma SplitAtColon(a: Text, b: Text, x: Text, y: Text)
    requires NoColon(a) && NoColon(x) && a + [COLON] + b == x + [COLON] + y
    ensures a == x && b == y
  {
    var whole := a + [COLON] + b;
    assert whole[|a|] == COLON && whole[|x|] == COLON;
    assert forall i | 0 <= i < |a| :: whole[i] == a[i] && a[i] != COLON;
    assert forall i | 0 <= i < |x| :: whole[i] == x[i] && x[i] != COLON;
    assert whole[..|a|] == a && whole[..|x|] == x;
    assert whole[|a| + 1..] == b && whole[|x| + 1..] == y;
  }

  lemma SplitAtLastColon(a: Text, b: Text, x: Text, y: Text)
    requires NoColon(b) && NoColon(y) && a + [COLON] + b == x + [COLON] + y
    ensures a == x && b == y
  {
    var whole := a + [COLON] + b;
    assert whole[|a|] == COLON && whole[|x|] == COLON;
    assert forall i | |a| < i < |whole| :: whole[i] == b[i - |a| - 1] && whole[i] != COLON;
    assert forall i | |x| < i < |whole| :: whole[i] == y[i - |x| - 1] && whole[i] != COLON;
    assert whole[..|a|] == a && whole[..|x|] == x;
    assert whole[|a| + 1..] == b && whole[|x| + 1..] == y;
  }

  // Tenants are isolated whatever their namespace: equal keys mean equal call type, equal namespace and
  // equal digests of the canonical texts. Call types are plain words, and a digest in hex holds no colon.
  lemma KeysIsolateNamespaces(digest: Text -> Text, c1: Text, n1: Text, p1: Json, c2: Text, n2: Text, p2: Json)
    requires NoColon(c1) && NoColon(c2) && forall t :: NoColon(digest(t))
    ensures BuildCacheKey(digest, c1, n1, p1) == BuildCacheKey(digest, c2, n2, p2) <==>
            c1 == c2 && n1 == n2 && digest(CanonicalStringify(p1)) == digest(CanonicalStringify(p2))
  {
    hide CanonicalStringify;
    var h1, h2 := digest(CanonicalStringify(p1)), digest(CanonicalStringify(p2));
    var k1, k2 := BuildCacheKey(digest, c1, n1, p1), BuildCacheKey(digest, c2, n2, p2);
    if k1 == k2 {
      assert k1[6..] == c1 + [COLON] + (n1 + [COLON] + h1);
      assert k2[6..] == c2 + [COLON] + (n2 + [COLON] + h2);
      SplitAtColon(c1, n1 + [COLON] + h1, c2, n2 + [COLON] + h2);
      SplitAtLastColon(n1, h1, n2, h2);
    }
  }
}
