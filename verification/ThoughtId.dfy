// Tool-call ids that carry a thought signature behind a separator.
module ThoughtId {
  import opened Prelude

  function Separator(): string {
    "__thought__"
  }

  // A field of the google namespace: missing or null, a string, or some other value.
  datatype Field = Absent | Text(s: string) | NonText

  datatype Google = Google(snake: Field, camel: Field)

  // None when there is no content, or when its google entry is not a record.
  type ExtraContent = Option<Google>

  // The camel-case spelling counts only where the other is missing or null.
  function SignatureOf(e: ExtraContent): (r: Option<string>)
    ensures r.Some? ==> r.value != ""
  {
    if e.None? then None
    else
      var field := if e.value.snake.Absent? then e.value.camel else e.value.snake;
      if field.Text? && field.s != "" then Some(field.s) else None
  }

  function Content(signature: string): ExtraContent {
    Some(Google(Text(signature), Absent))
  }

  // Both spellings of the field carry a signature; the snake-case one is decisive where it is not missing, even if
  // it holds no signature.
  lemma SpellingsCarryAlike(signature: string, other: Field, id: string)
    requires signature != ""
    ensures Encode(id, Some(Google(Absent, Text(signature)))) == Encode(id, Content(signature))
    ensures Encode(id, Some(Google(Text(signature), other))) == Encode(id, Content(signature))
    ensures Encode(id, Some(Google(NonText, other))) == Encode(id, Some(Google(Text(""), other))) == id
    ensures Encode(id, None) == Encode(id, Some(Google(Absent, Absent))) == Encode(id, Some(Google(Absent, Text("")))) == id
  {
  }

  predicate OccursAt(s: string, i: int) {
    0 <= i && i + |Separator()| <= |s| && s[i..i + |Separator()|] == Separator()
  }

  // The first position of the separator at or after a position, as indexOf finds it.
  function IndexFrom(s: string, from: nat): (r: int)
    requires from <= |s|
    ensures r == -1 || (from <= r && OccursAt(s, r))
    ensures forall i | from <= i < (if r == -1 then |s| else r) :: !OccursAt(s, i)
    decreases |s| - from
  {
    if OccursAt(s, from) then from
    else if from == |s| then -1
    else IndexFrom(s, from + 1)
  }

  function IndexOf(s: string): int {
    IndexFrom(s, 0)
  }

  function Encode(id: string, e: ExtraContent): string {
    if id == "" || IndexOf(id) >= 0 then id
    else
      var signature := SignatureOf(e);
      if signature.None? then id else id + Separator() + signature.value
  }

  datatype Decoded = Decoded(id: string, extraContent: ExtraContent)

  // An id that is not a string reads as the empty one.
  function Decode(id: Option<string>): Decoded {
    if id.None? then Decoded("", None)
    else
      var index := IndexOf(id.value);
      if index < 0 then Decoded(id.value, None)
      else
        var signature := id.value[index + |Separator()|..];
        Decoded(id.value[..index], if signature != "" then Content(signature) else None)
  }

  function Strip(id: string): string {
    var index := IndexOf(id);
    if index < 0 then id else id[..index]
  }

  ghost predicate EndsIn(s: string, tail: string) {
    |tail| <= |s| && s[|s| - |tail|..] == tail
  }

  // The two endings of an id that, followed by the separator, contain it early.
  ghost predicate Overlaps(id: string) {
    EndsIn(id, "__thought") || EndsIn(id, "__thought_")
  }

  // --- Where the separator first occurs in an encoded id ------------------------------------------------

  lemma IndexIsFirst(s: string, i: nat)
    requires OccursAt(s, i) && forall j | 0 <= j < i :: !OccursAt(s, j)
    ensures IndexOf(s) == i
  {
    assert IndexOf(s) >= 0 ==> OccursAt(s, IndexOf(s));
  }

  // The separator cannot start k characters before a copy of itself, for k from 1 to 8.
  lemma NoShortShift(id: string, rest: string, k: nat)
    requires 1 <= k <= 8 && k <= |id|
    ensures !OccursAt(id + Separator() + rest, |id| - k)
  {
    var s, p := id + Separator() + rest, |id| - k;
    var j := if k == 1 then 2 else k;
    assert s[p..p + |Separator()|][j] == s[p + j] == Separator()[j - k];
    assert Separator()[j - k] == '_';
    assert Separator()[j] != '_' by {
      assert Separator()[2] == 't' && Separator()[3] == 'h' && Separator()[4] == 'o' && Separator()[5] == 'u';
      assert Separator()[6] == 'g' && Separator()[7] == 'h' && Separator()[8] == 't';
    }
  }

  // It starts 9 or 10 characters before exactly when the id ends in that much of it.
  lemma LongShift(id: string, rest: string, k: nat)
    requires (k == 9 || k == 10) && k <= |id|
    ensures OccursAt(id + Separator() + rest, |id| - k) <==> EndsIn(id, Separator()[..k])
  {
    var s, p := id + Separator() + rest, |id| - k;
    assert s[p..p + |Separator()|] == id[p..] + Separator()[..|Separator()| - k];
    assert Separator()[..k] + Separator()[..|Separator()| - k] == Separator();
    assert |id[p..]| == k;
    assert (id[p..] + Separator()[..|Separator()| - k])[..k] == id[p..];
    assert Separator()[..k] == Separator()[..k];
  }

  lemma NoneInside(id: string, rest: string, i: int)
    requires IndexOf(id) < 0 && 0 <= i && i + |Separator()| <= |id|
    ensures !OccursAt(id + Separator() + rest, i)
  {
    assert !OccursAt(id, i);
    assert (id + Separator() + rest)[i..i + |Separator()|] == id[i..i + |Separator()|];
  }

  lemma Shifts(id: string, rest: string)
    ensures |id| >= 9 ==> (OccursAt(id + Separator() + rest, |id| - 9) <==> EndsIn(id, "__thought"))
    ensures |id| >= 10 ==> (OccursAt(id + Separator() + rest, |id| - 10) <==> EndsIn(id, "__thought_"))
  {
    assert Separator()[..9] == "__thought" && Separator()[..10] == "__thought_";
    hide OccursAt, EndsIn;
    if |id| >= 9 { LongShift(id, rest, 9); }
    if |id| >= 10 { LongShift(id, rest, 10); }
  }

  lemma NoneBefore(id: string, rest: string)
    requires IndexOf(id) < 0 && !Overlaps(id)
    ensures forall i | 0 <= i < |id| :: !OccursAt(id + Separator() + rest, i)
  {
    Shifts(id, rest);
    assert |Separator()| == 11;
    hide IndexFrom, OccursAt, EndsIn, Separator;
    forall i | 0 <= i < |id|
      ensures !OccursAt(id + Separator() + rest, i)
    {
      if i + |Separator()| <= |id| {
        NoneInside(id, rest, i);
      } else if |id| - i <= 8 {
        NoShortShift(id, rest, |id| - i);
      }
    }
  }

  lemma SeparatorStartsAtTheEndOfTheId(id: string, rest: string)
    requires IndexOf(id) < 0
    ensures IndexOf(id + Separator() + rest) == |id| <==> !Overlaps(id)
    ensures Overlaps(id) ==> 0 <= IndexOf(id + Separator() + rest) < |id|
  {
    var s := id + Separator() + rest;
    Shifts(id, rest);
    if !Overlaps(id) {
      NoneBefore(id, rest);
      assert s[|id|..|id| + |Separator()|] == Separator();
      IndexIsFirst(s, |id|);
    } else {
      assert EndsIn(id, "__thought") ==> |id| >= 9;
      assert EndsIn(id, "__thought_") ==> |id| >= 10;
      hide OccursAt, EndsIn, Separator;
      FirstIsBefore(s, if EndsIn(id, "__thought") then |id| - 9 else |id| - 10);
    }
  }

  lemma FirstIsBefore(s: string, i: nat)
    requires OccursAt(s, i)
    ensures 0 <= IndexOf(s) <= i
  {
  }

  // --- What the codec keeps -----------------------------------------------------------------------------

  // Decoding an encoded id gives back both parts exactly when the id does not end in a piece that overlaps
  // the separator, whatever the signature.
  lemma RoundTripIffNoOverlap(id: string, e: ExtraContent)
    requires id != "" && IndexOf(id) < 0 && SignatureOf(e).Some?
    ensures Decode(Some(Encode(id, e))) == Decoded(id, Content(SignatureOf(e).value)) <==> !Overlaps(id)
    ensures Strip(Encode(id, e)) == id <==> !Overlaps(id)
  {
    var signature := SignatureOf(e).value;
    var s := id + Separator() + signature;
    SeparatorStartsAtTheEndOfTheId(id, signature);
    if !Overlaps(id) {
      assert s[..|id|] == id && s[|id| + |Separator()|..] == signature;
    }
  }

  // An id ending in the separator's head loses that head to the signature.
  lemma OverlapMovesTheCut()
    ensures Decode(Some(Encode("a__thought", Content("sig")))) == Decoded("a", Content("thought__sig"))
  {
    assert "a__thought" + Separator() + "sig" == "a" + Separator() + "thought__sig";
    SeparatorStartsAtTheEndOfTheId("a", "thought__sig");
    hide IndexFrom, OccursAt;
    var s := "a" + Separator() + "thought__sig";
    assert s[..1] == "a" && s[1 + |Separator()|..] == "thought__sig";
  }

  // Every decoded id is free of the separator, and decoding it again changes nothing.
  lemma DecodedIdsAreClean(s: string)
    ensures IndexOf(Decode(Some(s)).id) < 0
    ensures Decode(Some(Decode(Some(s)).id)) == Decoded(Decode(Some(s)).id, None)
    ensures Strip(s) == Decode(Some(s)).id && Strip(Strip(s)) == Strip(s)
  {
    var index, clean := IndexOf(s), Decode(Some(s)).id;
    forall i
      ensures !OccursAt(clean, i)
    {
      if index >= 0 && OccursAt(clean, i) { OccursInPrefix(s, index, i); }
    }
    hide OccursAt;
  }

  lemma OccursInPrefix(s: string, n: nat, i: int)
    requires n <= |s| && OccursAt(s[..n], i)
    ensures OccursAt(s, i) && i < n
  {
    assert s[i..i + |Separator()|] == s[..n][i..i + |Separator()|];
  }

  // Re-encoding what was decoded restores the string, when both parts are there.
  lemma ReencodingRestores(s: string)
    requires Decode(Some(s)).id != "" && Decode(Some(s)).extraContent.Some?
    ensures Encode(Decode(Some(s)).id, Decode(Some(s)).extraContent) == s
  {
    DecodedIdsAreClean(s);
    var index := IndexOf(s);
    assert s == s[..index] + s[index..index + |Separator()|] + s[index + |Separator()|..];
  }

  // Once an id carries a signature, encoding leaves it alone; encoding twice is encoding once.
  lemma EncodeIsIdempotent(id: string, e: ExtraContent, later: ExtraContent)
    ensures Encode(Encode(id, e), e) == Encode(id, e)
    ensures Encode(id, e) != id ==> Encode(Encode(id, e), later) == Encode(id, e)
  {
    var s := Encode(id, e);
    if s != id {
      assert s[|id|..|id| + |Separator()|] == Separator();
      assert OccursAt(s, |id|);
    }
  }

  // Ids that do not overlap the separator, with their signatures, have distinct encodings.
  lemma EncodingIsInjective(a: string, b: string, e: ExtraContent, f: ExtraContent)
    requires a != "" && IndexOf(a) < 0 && !Overlaps(a) && SignatureOf(e).Some?
    requires b != "" && IndexOf(b) < 0 && !Overlaps(b) && SignatureOf(f).Some?
    requires Encode(a, e) == Encode(b, f)
    ensures a == b && SignatureOf(e) == SignatureOf(f)
  {
    RoundTripIffNoOverlap(a, e);
    RoundTripIffNoOverlap(b, f);
  }
}
