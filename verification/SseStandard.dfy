// The Server-Sent Events reader against the event stream interpretation of the WHATWG HTML standard,
// section 9.2.6: on which lines and texts the two agree.
module SseStandard {
  import opened Prelude
  import opened Sse

  // --- The standard's interpretation of a text -----------------------------------------------------------

  // State of the interpretation: the data buffer, the event type buffer, and what was dispatched.
  datatype Standard = Standard(dataBuffer: string, typeBuffer: string, dispatched: seq<(string, string)>)

  const BLANK := Standard("", "", [])

  function StandardLine(s: Standard, line: string): Standard {
    if line == "" then
      if s.dataBuffer == "" then s.(typeBuffer := "")
      else Standard("", "", s.dispatched + [(s.typeBuffer, s.dataBuffer[..|s.dataBuffer| - 1])])
    else
      match IndexOf(line, ':')
      case None => StandardField(s, line, "")
      case Some(i) => if i == 0 then s else StandardField(s, line[..i], DropSpace(line[i + 1..]))
  }

  function StandardField(s: Standard, name: string, value: string): Standard {
    if name == "event" then s.(typeBuffer := value)
    else if name == "data" then s.(dataBuffer := s.dataBuffer + value + "\n")
    else s
  }

  function StandardLines(s: Standard, lines: seq<string>): Standard
    decreases |lines|
  {
    if lines == [] then s else StandardLines(StandardLine(s, lines[0]), lines[1..])
  }

  // Where the first line of a text ends.
  function LineEnd(text: string): (r: Option<nat>)
    ensures r.Some? ==> r.value < |text| && (text[r.value] == '\n' || text[r.value] == '\r')
    ensures r.Some? ==> '\n' !in text[..r.value] && '\r' !in text[..r.value]
    ensures r.None? ==> '\n' !in text && '\r' !in text
  {
    if text == "" then None
    else if text[0] == '\n' || text[0] == '\r' then Some(0)
    else
      match LineEnd(text[1..])
      case None => None
      case Some(i) =>
        assert text[..i + 1] == [text[0]] + text[1..][..i];
        Some(i + 1)
  }

  // A line ends in CRLF, in LF or in CR; what follows the last end is not a line.
  function StandardSplit(text: string): seq<string>
    decreases |text|
  {
    match LineEnd(text)
    case None => []
    case Some(i) =>
      var next := if text[i] == '\r' && i + 1 < |text| && text[i + 1] == '\n' then i + 2 else i + 1;
      [text[..i]] + StandardSplit(text[next..])
  }

  // The events a whole text dispatches; what is pending at its end is dropped.
  function StandardEvents(text: string): seq<(string, string)> {
    StandardLines(BLANK, StandardSplit(text)).dispatched
  }

  // --- The same lines for reader and standard --------------------------------------------------------------

  // The pieces of a line between its carriage returns.
  function Pieces(line: string): (r: seq<string>)
    ensures |r| > 0
    ensures forall l | l in r :: '\r' !in l
    decreases |line|
  {
    match IndexOf(line, '\r')
    case None => [line]
    case Some(i) => [line[..i]] + Pieces(line[i + 1..])
  }

  function AllPieces(lines: seq<string>): seq<string>
    decreases |lines|
  {
    if lines == [] then [] else Pieces(StripCR(lines[0])) + AllPieces(lines[1..])
  }

  lemma {:induction false} LineEndIs(text: string, i: nat)
    requires i < |text| && (text[i] == '\n' || text[i] == '\r')
    requires forall k | 0 <= k < i :: text[k] != '\n' && text[k] != '\r'
    ensures LineEnd(text) == Some(i)
  {
    if i > 0 { LineEndIs(text[1..], i - 1); }
  }

  lemma PiecesOfPlain(line: string)
    requires '\r' !in line
    ensures Pieces(line) == [line]
  {
  }

  lemma PiecesCut(a: string, b: string)
    requires '\r' !in a
    ensures Pieces(a + "\r" + b) == [a] + Pieces(b)
  {
    var s := a + "\r" + b;
    assert forall k | 0 <= k < |a| :: s[k] == a[k];
    FirstIs(s, '\r', |a|);
    assert s[..|a|] == a && s[|a| + 1..] == b;
  }

  lemma SplitPlainLine(line: string, rest: string)
    requires '\n' !in line && '\r' !in line
    ensures StandardSplit(line + "\n" + rest) == [line] + StandardSplit(rest)
  {
    hide StandardSplit;
    var text := line + "\n" + rest;
    assert forall k | 0 <= k < |line| :: text[k] == line[k];
    LineEndIs(text, |line|);
    EndsAt(text, |line|, |line| + 1);
    assert text[..|line|] == line && text[|line| + 1..] == rest;
  }

  lemma SplitCRLF(a: string, rest: string)
    requires '\n' !in a && '\r' !in a
    ensures StandardSplit(a + "\r" + "\n" + rest) == [a] + StandardSplit(rest)
  {
    hide StandardSplit;
    var text := a + "\r" + "\n" + rest;
    assert forall k | 0 <= k < |a| :: text[k] == a[k];
    LineEndIs(text, |a|);
    EndsAt(text, |a|, |a| + 2);
    assert text[..|a|] == a && text[|a| + 2..] == rest;
  }

  lemma SplitLoneCR(a: string, b: string)
    requires '\n' !in a && '\r' !in a && (b != "" ==> b[0] != '\n')
    ensures StandardSplit(a + "\r" + b) == [a] + StandardSplit(b)
  {
    hide StandardSplit;
    var text := a + "\r" + b;
    assert forall k | 0 <= k < |a| :: text[k] == a[k];
    LineEndIs(text, |a|);
    EndsAt(text, |a|, |a| + 1);
    assert text[..|a|] == a && text[|a| + 1..] == b;
  }

  lemma SplitAtCR(a: string, b: string, rest: string)
    requires '\n' !in a && '\r' !in a && b != "" && b[0] != '\n'
    requires StandardSplit(b + "\n" + rest) == Pieces(StripCR(b)) + StandardSplit(rest)
    ensures StandardSplit(a + "\r" + b + "\n" + rest) == Pieces(StripCR(a + "\r" + b)) + StandardSplit(rest)
  {
    hide StandardSplit, Pieces, StripCR;
    assert a + "\r" + b + "\n" + rest == a + "\r" + (b + "\n" + rest);
    SplitLoneCR(a, b + "\n" + rest);
    StripsTheTail(a, b);
    PiecesCut(a, StripCR(b));
    assert [a] + (Pieces(StripCR(b)) + StandardSplit(rest)) == ([a] + Pieces(StripCR(b))) + StandardSplit(rest);
  }

  // A line with a carriage return, cut at the first one.
  lemma FirstCR(line: string) returns (a: string, b: string)
    requires '\r' in line && '\n' !in line
    ensures line == a + "\r" + b && '\r' !in a && '\n' !in a && '\n' !in b
  {
    var i := IndexOf(line, '\r').value;
    a, b := line[..i], line[i + 1..];
    assert forall k | 0 <= k < |a| :: a[k] == line[k] && line[k] in line;
    assert forall k | 0 <= k < |b| :: b[k] == line[i + 1 + k] && line[i + 1 + k] in line;
  }

  // One line of the reader, ended by LF, is for the standard the line's pieces.
  lemma {:induction false} SplitLine(line: string, rest: string)
    requires '\n' !in line
    ensures StandardSplit(line + "\n" + rest) == Pieces(StripCR(line)) + StandardSplit(rest)
    decreases |line|
  {
    hide StandardSplit, Pieces, StripCR;
    if '\r' !in line {
      SplitPlainLine(line, rest);
      NothingStripped(line);
      PiecesOfPlain(line);
    } else {
      var a, b := FirstCR(line);
      if b == "" {
        assert line + "\n" + rest == a + "\r" + "\n" + rest;
        SplitCRLF(a, rest);
        StrippedOnce(a);
        PiecesOfPlain(a);
      } else {
        assert b[0] in b;
        SplitLine(b, rest);
        SplitAtCR(a, b, rest);
      }
    }
  }

  lemma EndsAt(text: string, i: nat, next: nat)
    requires LineEnd(text) == Some(i)
    requires next == if text[i] == '\r' && i + 1 < |text| && text[i + 1] == '\n' then i + 2 else i + 1
    ensures StandardSplit(text) == [text[..i]] + StandardSplit(text[next..])
  {
  }

  lemma NothingStripped(line: string)
    requires '\r' !in line
    ensures StripCR(line) == line
  {
  }

  lemma StrippedOnce(a: string)
    ensures StripCR(a + "\r" + "") == a
  {
    assert (a + "\r" + "")[..|a|] == a;
  }

  lemma StripsTheTail(a: string, b: string)
    requires b != ""
    ensures StripCR(a + "\r" + b) == a + "\r" + StripCR(b)
  {
    var s := a + "\r" + b;
    assert s[|s| - 1] == b[|b| - 1];
    if EndsInCR(b) { assert s[..|s| - 1] == a + "\r" + b[..|b| - 1]; }
  }

  // The rest of a text without LF, whose last piece is no line.
  lemma {:induction false} SplitRest(rest: string)
    requires '\n' !in rest
    ensures StandardSplit(rest) == Pieces(rest)[..|Pieces(rest)| - 1]
    decreases |rest|
  {
    hide StandardSplit, Pieces;
    if '\r' !in rest {
      PiecesOfPlain(rest);
      NoEnd(rest);
    } else {
      var a, b := FirstCR(rest);
      assert b != "" ==> b[0] in b;
      SplitLoneCR(a, b);
      PiecesCut(a, b);
      SplitRest(b);
    }
  }

  lemma NoEnd(text: string)
    requires '\n' !in text && '\r' !in text
    ensures StandardSplit(text) == []
  {
  }

  // The standard's lines of a text are the pieces of the reader's lines, and of the rest all but the last.
  lemma {:induction false} SplitText(text: string)
    ensures StandardSplit(text) ==
              AllPieces(Lines(text)) + Pieces(Unfinished(text))[..|Pieces(Unfinished(text))| - 1]
    decreases |text|
  {
    hide StandardSplit, Pieces, Lines, Unfinished;
    if IndexOf(text, '\n').None? {
      NoLine(text);
      SplitRest(text);
      assert AllPieces([]) == [];
    } else {
      var i := IndexOf(text, '\n').value;
      FirstLine(text, i);
      assert text == text[..i] + "\n" + text[i + 1..];
      SplitLine(text[..i], text[i + 1..]);
      SplitText(text[i + 1..]);
      var lines := Lines(text);
      assert lines[0] == text[..i] && lines[1..] == Lines(text[i + 1..]);
    }
  }

  lemma {:induction false} StandardConcat(s: Standard, a: seq<string>, b: seq<string>)
    ensures StandardLines(s, a + b) == StandardLines(StandardLines(s, a), b)
    decreases |a|
  {
    if a == [] {
      assert a + b == b;
    } else {
      assert (a + b)[1..] == a[1..] + b;
      StandardConcat(StandardLine(s, a[0]), a[1..], b);
    }
  }

  // --- Reader against standard, line by line ---------------------------------------------------------------

  // The reader's state seen as the standard's: an event without a name has the empty type.
  function AsPairs(es: seq<Event>): (r: seq<(string, string)>)
    ensures |r| == |es|
    ensures forall i | 0 <= i < |es| :: r[i] == (if es[i].event.Some? then es[i].event.value else "", es[i].data)
  {
    seq(|es|, i requires 0 <= i < |es| => (if es[i].event.Some? then es[i].event.value else "", es[i].data))
  }

  function AsStandard(p: Pending): Standard {
    Standard(Unlines(p.dataLines), if p.eventName.Some? then p.eventName.value else "", AsPairs(p.emitted))
  }

  lemma {:induction false} UnlinesAppend(lines: seq<string>, l: string)
    ensures Unlines(lines + [l]) == Unlines(lines) + l + "\n"
    decreases |lines|
  {
    if lines == [] {
      assert lines + [l] == [l];
    } else {
      assert (lines + [l])[1..] == lines[1..] + [l];
      UnlinesAppend(lines[1..], l);
    }
  }

  lemma {:induction false} UnlinesJoin(lines: seq<string>)
    ensures lines == [] <==> Unlines(lines) == ""
    ensures lines != [] ==> Unlines(lines) == Join(lines) + "\n"
    decreases |lines|
  {
    if lines != [] {
      UnlinesJoin(lines[1..]);
      if |lines| == 1 { assert lines[1..] == []; }
    }
  }

  lemma FieldPrefix(line: string, name: string)
    requires line != "" && ':' !in name && name != ""
    ensures StartsWith(line, name + ":") <==> IndexOf(line, ':') == Some(|name|) && line[..|name|] == name
  {
    if StartsWith(line, name + ":") {
      assert line[|name|] == ':' && line[..|name|] == name;
      assert forall k | 0 <= k < |name| :: line[k] == name[k];
      FirstIs(line, ':', |name|);
    }
  }

  predicate IsField(line: string, name: string) {
    line == name || StartsWith(line, name + ":")
  }

  function FieldValue(line: string, name: string): string
    requires IsField(line, name)
  {
    if line == name then "" else DropSpace(line[|name| + 1..])
  }

  // What a line does in the standard.
  lemma StandardMeaning(s: Standard, line: string)
    requires line != ""
    ensures StandardLine(s, line) ==
              if IsField(line, "data") then s.(dataBuffer := s.dataBuffer + FieldValue(line, "data") + "\n")
              else if IsField(line, "event") then s.(typeBuffer := FieldValue(line, "event"))
              else s
  {
    FieldPrefix(line, "data");
    FieldPrefix(line, "event");
    assert ':' !in "data" && ':' !in "event";
  }

  lemma BlankLineAgrees(p: Pending, raw: string)
    requires StripCR(raw) == ""
    ensures AsStandard(TakeLine(p, raw)) == StandardLine(AsStandard(p), "")
  {
    UnlinesJoin(p.dataLines);
    var buffer := Unlines(p.dataLines);
    if p.dataLines != [] { assert buffer[..|buffer| - 1] == Join(p.dataLines); }
    hide Join, Unlines;
    assert AsStandard(TakeLine(p, raw)).dispatched == StandardLine(AsStandard(p), "").dispatched;
  }

  // What a line does in the reader.
  lemma ReaderMeaning(p: Pending, raw: string)
    requires StripCR(raw) != ""
    ensures var line := StripCR(raw);
            TakeLine(p, raw) ==
              if line != "data" && IsField(line, "data") then p.(dataLines := p.dataLines + [FieldValue(line, "data")])
              else if line != "event" && IsField(line, "event") then p.(eventName := Some(FieldValue(line, "event")))
              else p
  {
    hide StripCR, Join;
    var line := StripCR(raw);
    assert "data" + ":" == "data:" && "event" + ":" == "event:";
    assert StartsWith(line, "data:") ==> line[0] == 'd';
    assert StartsWith(line, "event:") ==> line[0] == 'e';
    assert line == "data" ==> line[0] == 'd' && !StartsWith(line, "data:");
    assert line == "event" ==> line[0] == 'e' && !StartsWith(line, "event:");
  }

  // On one line the two agree exactly if it is not a bare data field, nor a bare event field while a name is
  // pending.
  lemma LineAgreesIff(p: Pending, raw: string)
    ensures AsStandard(TakeLine(p, raw)) == StandardLine(AsStandard(p), StripCR(raw)) <==>
              StripCR(raw) != "data" && (StripCR(raw) == "event" ==> p.eventName.None? || p.eventName == Some(""))
  {
    var line := StripCR(raw);
    if line == "" {
      BlankLineAgrees(p, raw);
    } else {
      StandardMeaning(AsStandard(p), line);
      ReaderMeaning(p, raw);
      hide TakeLine, StandardLine, StripCR, StartsWith, Unlines;
      if IsField(line, "data") {
        UnlinesAppend(p.dataLines, FieldValue(line, "data"));
        assert Unlines(p.dataLines) + FieldValue(line, "data") + "\n" == Unlines(p.dataLines) + (FieldValue(line, "data") + "\n");
      }
      Exclusive(line);
    }
  }

  lemma Exclusive(line: string)
    ensures !(IsField(line, "data") && IsField(line, "event"))
  {
    assert IsField(line, "data") ==> line != "" && line[0] == 'd';
    assert IsField(line, "event") ==> line != "" && line[0] == 'e';
  }

  // A line that does nothing in the standard.
  predicate Inert(line: string) {
    line != "" && !IsField(line, "data") && !IsField(line, "event")
  }

  // A line of the reader that the standard takes the same way, whatever is pending: without a carriage return
  // inside, it is no bare field; with one, none of its pieces does anything.
  predicate PlainLine(raw: string) {
    var line := StripCR(raw);
    if '\r' in line then forall l | l in Pieces(line) :: Inert(l) else line != "data" && line != "event"
  }

  lemma {:induction false} InertLines(s: Standard, lines: seq<string>)
    requires forall l | l in lines :: Inert(l)
    ensures StandardLines(s, lines) == s
    decreases |lines|
  {
    if lines != [] {
      assert lines[0] in lines;
      StandardMeaning(s, lines[0]);
      InertLines(s, lines[1..]);
    }
  }

  // The first piece of a line starts as the line does, up to its carriage return.
  lemma FirstPiece(line: string, head: string)
    requires StartsWith(line, head) && '\r' !in head
    ensures StartsWith(Pieces(line)[0], head)
  {
    assert forall k | 0 <= k < |head| :: line[k] == head[k] && head[k] in head;
  }

  lemma PlainLineAgrees(p: Pending, raw: string)
    requires PlainLine(raw)
    ensures AsStandard(TakeLine(p, raw)) == StandardLines(AsStandard(p), Pieces(StripCR(raw)))
  {
    var line := StripCR(raw);
    if '\r' in line {
      InertLines(AsStandard(p), Pieces(line));
      if StartsWith(line, "data:") { FirstPiece(line, "data:"); }
      if StartsWith(line, "event:") { FirstPiece(line, "event:"); }
      assert "data" + ":" == "data:" && "event" + ":" == "event:";
      assert Inert(Pieces(line)[0]);
    } else {
      LineAgreesIff(p, raw);
      PiecesOfPlain(line);
      assert [line][1..] == [];
    }
  }

  lemma {:induction false} PlainLinesAgree(p: Pending, lines: seq<string>)
    requires forall l | l in lines :: PlainLine(l)
    ensures AsStandard(TakeLines(p, lines)) == StandardLines(AsStandard(p), AllPieces(lines))
    decreases |lines|
  {
    hide TakeLine, StandardLine, AsStandard, PlainLine, StripCR, Pieces;
    if lines != [] {
      assert lines[0] in lines;
      PlainLineAgrees(p, lines[0]);
      StandardConcat(AsStandard(p), Pieces(StripCR(lines[0])), AllPieces(lines[1..]));
      PlainLinesAgree(TakeLine(p, lines[0]), lines[1..]);
    }
  }

  // --- Reader against standard, on texts ---------------------------------------------------------------------

  // The complete lines of a text are taken the same way.
  predicate PlainLines(text: string) {
    forall l | l in Lines(text) :: PlainLine(l)
  }

  // What the standard takes as lines of the rest of a text, behind its last LF: the last piece is not ended.
  function RestLines(text: string): seq<string> {
    var pieces := Pieces(Unfinished(text));
    pieces[..|pieces| - 1]
  }

  // A data line that no blank line follows.
  ghost predicate LeavesData(lines: seq<string>) {
    exists i :: 0 <= i < |lines| && StartsWith(StripCR(lines[i]), "data:") &&
                forall j | i < j < |lines| :: StripCR(lines[j]) != ""
  }

  ghost predicate Agree(text: string) {
    AsPairs(EventsOf(text)) == StandardEvents(text)
  }

  lemma {:induction false} PendingIffLeft(lines: seq<string>)
    ensures TakeLines(NOTHING, lines).dataLines != [] <==> LeavesData(lines)
    decreases |lines|
  {
    if lines != [] {
      var front, last := lines[..|lines| - 1], lines[|lines| - 1];
      PendingIffLeft(front);
      assert lines == front + [last];
      TakeLinesConcat(NOTHING, front, [last]);
      assert [last][1..] == [];
      LeftStep(front, last);
    }
  }

  lemma LeftStep(front: seq<string>, last: string)
    ensures LeavesData(front + [last]) <==>
              StartsWith(StripCR(last), "data:") || (StripCR(last) != "" && LeavesData(front))
  {
    var lines := front + [last];
    hide StripCR, StartsWith;
    if StartsWith(StripCR(last), "data:") { assert lines[|front|] == last; }
    if StripCR(last) != "" && LeavesData(front) {
      var i :| 0 <= i < |front| && StartsWith(StripCR(front[i]), "data:") &&
               forall j | i < j < |front| :: StripCR(front[j]) != "";
      assert lines[i] == front[i] && forall j | i < j < |front| :: lines[j] == front[j];
    }
    if LeavesData(lines) && !StartsWith(StripCR(last), "data:") {
      var i :| 0 <= i < |lines| && StartsWith(StripCR(lines[i]), "data:") &&
               forall j | i < j < |lines| :: StripCR(lines[j]) != "";
      assert i < |front| && lines[|front|] == last;
      assert front[i] == lines[i] && forall j | i < j < |front| :: lines[j] == front[j];
    }
  }

  // A data field with a blank line behind it.
  ghost predicate Dispatches(lines: seq<string>) {
    exists i, k :: 0 <= i < k < |lines| && IsField(lines[i], "data") && lines[k] == ""
  }

  // The last event field, if there is one, sets this name.
  ghost predicate KeepsName(name: string, lines: seq<string>) {
    forall i | 0 <= i < |lines| && IsField(lines[i], "event") &&
               (forall k | i < k < |lines| :: !IsField(lines[k], "event")) ::
      FieldValue(lines[i], "event") == name
  }

  // Up to the first blank line nothing is added to the pending event or renames it, and what follows dispatches
  // nothing more.
  ghost predicate DispatchesJust(name: string, lines: seq<string>) {
    exists k :: 0 <= k < |lines| && lines[k] == "" &&
                (forall i | 0 <= i < k :: lines[i] != "" && !IsField(lines[i], "data")) &&
                KeepsName(name, lines[..k]) && !Dispatches(lines[k + 1..])
  }

  lemma DispatchesStep(lines: seq<string>)
    requires lines != []
    ensures Dispatches(lines) <==> (IsField(lines[0], "data") && "" in lines[1..]) || Dispatches(lines[1..])
  {
    hide IsField;
    var tail := lines[1..];
    assert forall n | 0 <= n < |tail| :: tail[n] == lines[n + 1];
    if Dispatches(tail) {
      var i, k :| 0 <= i < k < |tail| && IsField(tail[i], "data") && tail[k] == "";
      assert IsField(lines[i + 1], "data") && lines[k + 1] == "";
    }
    if Dispatches(lines) {
      var i, k :| 0 <= i < k < |lines| && IsField(lines[i], "data") && lines[k] == "";
      assert tail[k - 1] == "";
      if i > 0 { assert IsField(tail[i - 1], "data"); }
    }
    if IsField(lines[0], "data") && "" in tail {
      var k :| 0 <= k < |tail| && tail[k] == "";
      assert lines[k + 1] == "";
    }
  }

  // Lines dispatch nothing exactly if no data, pending or among them, has a blank line behind it.
  lemma {:induction false} NothingDispatchedIff(s: Standard, lines: seq<string>)
    ensures s.dispatched <= StandardLines(s, lines).dispatched
    ensures StandardLines(s, lines).dispatched == s.dispatched <==>
              if s.dataBuffer == "" then !Dispatches(lines) else "" !in lines
    decreases |lines|
  {
    if lines != [] {
      DispatchesStep(lines);
      assert forall l :: l in lines <==> l == lines[0] || l in lines[1..];
      var t := StandardLine(s, lines[0]);
      if lines[0] != "" { StandardMeaning(s, lines[0]); }
      hide StandardLine, IsField, Dispatches;
      NothingDispatchedIff(t, lines[1..]);
    }
  }

  lemma KeepsNameStep(name: string, front: seq<string>, last: string)
    ensures KeepsName(name, front + [last]) <==>
              if IsField(last, "event") then FieldValue(last, "event") == name else KeepsName(name, front)
  {
    hide FieldValue, IsField;
    var lines := front + [last];
    assert lines[|front|] == last && forall i | 0 <= i < |front| :: lines[i] == front[i];
    if !IsField(last, "event") && KeepsName(name, lines) {
      forall i | 0 <= i < |front| && IsField(front[i], "event") &&
                 (forall k | i < k < |front| :: !IsField(front[k], "event"))
        ensures FieldValue(front[i], "event") == name
      {
        assert IsField(lines[i], "event") && forall k | i < k < |lines| :: !IsField(lines[k], "event");
      }
    }
    if !IsField(last, "event") && KeepsName(name, front) {
      forall i | 0 <= i < |lines| && IsField(lines[i], "event") &&
                 (forall k | i < k < |lines| :: !IsField(lines[k], "event"))
        ensures FieldValue(lines[i], "event") == name
      {
        assert i < |front| && forall k | i < k < |front| :: !IsField(lines[k], "event");
      }
    }
  }

  // What lines before the first blank one change.
  lemma {:induction false} BeforeABlankLine(s: Standard, lines: seq<string>)
    requires "" !in lines
    ensures var t := StandardLines(s, lines);
            && t.dispatched == s.dispatched && s.dataBuffer <= t.dataBuffer
            && (t.dataBuffer == s.dataBuffer <==> forall i | 0 <= i < |lines| :: !IsField(lines[i], "data"))
            && (t.typeBuffer == s.typeBuffer <==> KeepsName(s.typeBuffer, lines))
    decreases |lines|
  {
    if lines != [] {
      var front, last := lines[..|lines| - 1], lines[|lines| - 1];
      assert lines == front + [last] && [last][1..] == [];
      assert last in lines && forall l | l in front :: l in lines;
      BeforeABlankLine(s, front);
      StandardConcat(s, front, [last]);
      StandardMeaning(StandardLines(s, front), last);
      KeepsNameStep(s.typeBuffer, front, last);
      Exclusive(last);
      hide StandardLine, IsField, FieldValue, KeepsName;
      assert forall i | 0 <= i < |front| :: lines[i] == front[i];
    }
  }

  lemma FirstBlank(lines: seq<string>) returns (k: nat)
    requires "" in lines
    ensures k < |lines| && lines[k] == "" && "" !in lines[..k]
  {
    k := 0;
    while lines[k] != ""
      invariant k < |lines| && "" !in lines[..k] && exists i :: k <= i < |lines| && lines[i] == ""
      decreases |lines| - k
    {
      k := k + 1;
    }
  }

  // The lines dispatch the pending event as it is, and nothing more.
  lemma DispatchedAsPendingIff(s: Standard, lines: seq<string>)
    requires s.dataBuffer != ""
    ensures StandardLines(s, lines).dispatched ==
              s.dispatched + [(s.typeBuffer, s.dataBuffer[..|s.dataBuffer| - 1])] <==>
            DispatchesJust(s.typeBuffer, lines)
  {
    hide IsField, KeepsName, Dispatches, StandardLine, StandardLines;
    var want := s.dispatched + [(s.typeBuffer, s.dataBuffer[..|s.dataBuffer| - 1])];
    NothingDispatchedIff(s, lines);
    if "" in lines {
      var k := FirstBlank(lines);
      var t := StandardLines(s, lines[..k]);
      BeforeABlankLine(s, lines[..k]);
      StandardAtBlank(s, lines, k);
      var u := Standard("", "", t.dispatched + [(t.typeBuffer, t.dataBuffer[..|t.dataBuffer| - 1])]);
      NothingDispatchedIff(u, lines[k + 1..]);
      SameHeld(s, t);
      assert StandardLines(s, lines).dispatched == want <==>
               u.dispatched == want && !Dispatches(lines[k + 1..]);
      OnlyFirstBlank(s.typeBuffer, lines, k);
    }
  }

  lemma OnlyFirstBlank(name: string, lines: seq<string>, k: nat)
    requires k < |lines| && lines[k] == "" && "" !in lines[..k]
    ensures DispatchesJust(name, lines) <==>
              (forall i | 0 <= i < k :: !IsField(lines[i], "data")) && KeepsName(name, lines[..k]) &&
              !Dispatches(lines[k + 1..])
  {
    hide IsField, KeepsName, Dispatches;
    assert forall i | 0 <= i < k :: lines[..k][i] == lines[i] && lines[..k][i] != "";
  }

  lemma StandardAtBlank(s: Standard, lines: seq<string>, k: nat)
    requires k < |lines| && lines[k] == "" && StandardLines(s, lines[..k]).dataBuffer != ""
    ensures var t := StandardLines(s, lines[..k]);
            StandardLines(s, lines) ==
              StandardLines(Standard("", "", t.dispatched + [(t.typeBuffer, t.dataBuffer[..|t.dataBuffer| - 1])]),
                            lines[k + 1..])
  {
    assert lines == lines[..k] + lines[k..];
    StandardConcat(s, lines[..k], lines[k..]);
    assert lines[k..][1..] == lines[k + 1..];
  }

  lemma SameHeld(s: Standard, t: Standard)
    requires s.dataBuffer != "" && s.dataBuffer <= t.dataBuffer
    ensures s.dispatched + [(t.typeBuffer, t.dataBuffer[..|t.dataBuffer| - 1])] ==
              s.dispatched + [(s.typeBuffer, s.dataBuffer[..|s.dataBuffer| - 1])] <==>
            t.typeBuffer == s.typeBuffer && t.dataBuffer == s.dataBuffer
  {
    var x := s.dispatched + [(t.typeBuffer, t.dataBuffer[..|t.dataBuffer| - 1])];
    var y := s.dispatched + [(s.typeBuffer, s.dataBuffer[..|s.dataBuffer| - 1])];
    if x == y {
      assert x[|s.dispatched|] == y[|s.dispatched|];
      assert |t.dataBuffer| - 1 == |t.dataBuffer[..|t.dataBuffer| - 1]| == |s.dataBuffer[..|s.dataBuffer| - 1]|;
      assert t.dataBuffer[..|s.dataBuffer|] == s.dataBuffer;
    }
  }

  // What the rest of a text may hold after complete lines that left the reader in state p: without pending data,
  // it dispatches nothing; with pending data, which the reader emits at the end, it dispatches just that.
  ghost predicate RestAgrees(p: Pending, rest: seq<string>) {
    if p.dataLines == [] then !Dispatches(rest)
    else DispatchesJust(if p.eventName.Some? then p.eventName.value else "", rest)
  }

  lemma RestAgreesIff(p: Pending, rest: seq<string>)
    ensures AsPairs(AtEof(p)) == StandardLines(AsStandard(p), rest).dispatched <==> RestAgrees(p, rest)
  {
    hide Dispatches, DispatchesJust, StandardLines, Join, Unlines;
    var s := AsStandard(p);
    UnlinesJoin(p.dataLines);
    if p.dataLines == [] {
      NothingDispatchedIff(s, rest);
    } else {
      DispatchedAsPendingIff(s, rest);
      assert s.dataBuffer[..|s.dataBuffer| - 1] == Join(p.dataLines);
      assert AsPairs(AtEof(p)) == s.dispatched + [(s.typeBuffer, Join(p.dataLines))];
    }
  }

  // On a text of plain lines the two give the same events exactly if its rest agrees with what they left. If it
  // has no carriage return, that means that nothing is left: this reader emits it and the standard drops it.
  lemma TextAgreesIff(text: string)
    requires PlainLines(text)
    ensures var p := TakeLines(NOTHING, Lines(text));
            && (Agree(text) <==> RestAgrees(p, RestLines(text)))
            && (p.dataLines != [] <==> LeavesData(Lines(text)))
    ensures '\r' !in Unfinished(text) ==> (Agree(text) <==> !LeavesData(Lines(text)))
  {
    var lines, rest := Lines(text), RestLines(text);
    var p := TakeLines(NOTHING, lines);
    hide Lines, Unfinished, Pieces, LeavesData, PlainLine, StandardSplit, TakeLines, StandardLines, RestAgrees, AsPairs;
    hide AtEof, AsStandard;
    SplitText(text);
    PlainLinesAgree(NOTHING, lines);
    assert AsStandard(NOTHING) == BLANK by { NothingIsBlank(); }
    StandardConcat(BLANK, AllPieces(lines), rest);
    RestAgreesIff(p, rest);
    PendingIffLeft(lines);
    if '\r' !in Unfinished(text) {
      PiecesOfPlain(Unfinished(text));
      NoRestAgrees(p);
      assert rest == [];
    }
  }

  lemma NothingIsBlank()
    ensures AsStandard(NOTHING) == BLANK
  {
  }

  lemma NoRestAgrees(p: Pending)
    ensures RestAgrees(p, []) <==> p.dataLines == []
  {
  }

  // A stream whose lines all end in a carriage return alone is nothing but rest: the two agree exactly if the
  // standard dispatches nothing.
  lemma LoneCRStreamAgreesIff(text: string)
    requires '\n' !in text
    ensures Agree(text) <==> !Dispatches(RestLines(text))
    ensures RestLines(text) == StandardSplit(text)
  {
    hide StandardSplit, RestAgrees;
    NoLine(text);
    SplitText(text);
    assert AllPieces([]) == [];
    TextAgreesIff(text);
    assert RestAgrees(NOTHING, RestLines(text)) <==> !Dispatches(RestLines(text)) by { RestWithoutData(RestLines(text)); }
  }

  lemma RestWithoutData(rest: seq<string>)
    ensures RestAgrees(NOTHING, rest) <==> !Dispatches(rest)
  {
  }

  // --- The line condition is exact ---------------------------------------------------------------------------

  lemma OneLine(raw: string, after: string)
    requires '\n' !in raw
    ensures Lines(raw + "\n" + after) == [raw] + Lines(after)
    ensures Unfinished(raw + "\n" + after) == Unfinished(after)
  {
    hide Lines, Unfinished;
    var text := raw + "\n" + after;
    FirstLF(raw, after);
    FirstLine(text, |raw|);
    assert text[..|raw|] == raw && text[|raw| + 1..] == after;
  }

  lemma LinesAround(before: string, raw: string, after: string)
    requires '\n' !in raw && Unfinished(before) == ""
    ensures Lines(before + raw + "\n" + after) == Lines(before) + [raw] + Lines(after)
    ensures Unfinished(before + raw + "\n" + after) == Unfinished(after)
  {
    hide Lines, Unfinished, IndexOf;
    var rest := raw + "\n" + after;
    LinesSplit(before, rest);
    OneLine(raw, after);
    assert before + raw + "\n" + after == before + rest && "" + rest == rest;
    assert Lines(before) + ([raw] + Lines(after)) == Lines(before) + [raw] + Lines(after);
  }

  lemma {:induction false} UnlinesFinish(lines: seq<string>)
    requires forall l | l in lines :: '\n' !in l
    ensures Unfinished(Unlines(lines)) == ""
    decreases |lines|
  {
    hide Lines, Unfinished;
    NoLine("");
    if lines != [] {
      assert lines[0] in lines;
      LinesAround("", lines[0], Unlines(lines[1..]));
      assert "" + lines[0] + "\n" + Unlines(lines[1..]) == Unlines(lines);
      UnlinesFinish(lines[1..]);
    }
  }

  // Something the standard did since it had this long type and nothing else.
  predicate Moved(s: Standard, size: nat) {
    |s.typeBuffer| < size || s.dataBuffer != "" || s.dispatched != []
  }

  lemma MoveOnce(s: Standard, line: string, size: nat)
    requires |line| < size
    ensures Moved(s, size) ==> Moved(StandardLine(s, line), size)
    ensures !Inert(line) ==> Moved(StandardLine(s, line), size)
    ensures Inert(line) ==> StandardLine(s, line) == s
  {
    if line != "" { StandardMeaning(s, line); }
  }

  lemma {:induction false} MovedByPieces(s: Standard, lines: seq<string>, size: nat)
    requires forall l | l in lines :: |l| < size
    requires Moved(s, size) || exists l :: l in lines && !Inert(l)
    ensures Moved(StandardLines(s, lines), size)
    decreases |lines|
  {
    hide Moved, StandardLine, Inert;
    if lines != [] {
      assert lines[0] in lines;
      MoveOnce(s, lines[0], size);
      assert forall l | l in lines :: l == lines[0] || l in lines[1..];
      MovedByPieces(StandardLine(s, lines[0]), lines[1..], size);
    }
  }

  ghost predicate NoCR(s: Standard) {
    '\r' !in s.dataBuffer && '\r' !in s.typeBuffer
  }

  lemma {:induction false} NoCRFromPieces(s: Standard, lines: seq<string>)
    requires NoCR(s) && forall l | l in lines :: '\r' !in l
    ensures NoCR(StandardLines(s, lines))
    decreases |lines|
  {
    if lines != [] {
      assert lines[0] in lines;
      if lines[0] != "" { StandardMeaning(s, lines[0]); }
      NoCRFromPieces(StandardLine(s, lines[0]), lines[1..]);
    }
  }

  lemma {:induction false} PiecesAreShort(line: string)
    ensures forall l | l in Pieces(line) :: |l| <= |line|
    decreases |line|
  {
    var i := IndexOf(line, '\r');
    if i.Some? { PiecesAreShort(line[i.value + 1..]); }
  }

  lemma DataWithCRDiffers(p: Pending, raw: string)
    requires var line := StripCR(raw); '\r' in line && StartsWith(line, "data:")
    requires p.dataLines == [] && NoCR(AsStandard(p))
    ensures AsStandard(TakeLine(p, raw)) != StandardLines(AsStandard(p), Pieces(StripCR(raw)))
  {
    var line := StripCR(raw);
    NoCRFromPieces(AsStandard(p), Pieces(line));
    hide Pieces, StandardLines, StripCR;
    CRBehind(line, "data:");
    assert TakeLine(p, raw).dataLines == [DropSpace(line[5..])];
    assert Unlines([DropSpace(line[5..])]) == DropSpace(line[5..]) + "\n" + Unlines([]);
    assert '\r' in AsStandard(TakeLine(p, raw)).dataBuffer;
  }

  lemma EventWithCRDiffers(p: Pending, raw: string)
    requires var line := StripCR(raw); '\r' in line && StartsWith(line, "event:")
    requires NoCR(AsStandard(p))
    ensures AsStandard(TakeLine(p, raw)) != StandardLines(AsStandard(p), Pieces(StripCR(raw)))
  {
    var line := StripCR(raw);
    NoCRFromPieces(AsStandard(p), Pieces(line));
    hide Pieces, StandardLines, StripCR;
    CRBehind(line, "event:");
    assert line[0] == 'e';
    assert '\r' in AsStandard(TakeLine(p, raw)).typeBuffer;
  }

  lemma LoneCRMoves(p: Pending, raw: string)
    requires var line := StripCR(raw);
             '\r' in line && !StartsWith(line, "data:") && !StartsWith(line, "event:") &&
             exists l :: l in Pieces(line) && !Inert(l)
    requires p.dataLines == [] && p.emitted == [] && p.eventName.Some? && |p.eventName.value| > |raw|
    ensures AsStandard(TakeLine(p, raw)) != StandardLines(AsStandard(p), Pieces(StripCR(raw)))
  {
    var line := StripCR(raw);
    PiecesAreShort(line);
    MovedByPieces(AsStandard(p), Pieces(line), |p.eventName.value|);
    assert TakeLine(p, raw) == p;
    hide TakeLine, StandardLines, Pieces, Inert;
    assert AsPairs([]) == [];
  }

  // A line that is not plain is taken differently where a name is pending that is longer than the line.
  lemma NotPlainIsTakenDifferently(p: Pending, raw: string)
    requires !PlainLine(raw) && p.dataLines == [] && p.emitted == []
    requires p.eventName.Some? && |p.eventName.value| > |raw| && '\r' !in p.eventName.value
    ensures AsStandard(TakeLine(p, raw)) != StandardLines(AsStandard(p), Pieces(StripCR(raw)))
  {
    var line := StripCR(raw);
    hide TakeLine, StandardLine, Inert, StripCR, StartsWith, IndexOf;
    if '\r' in line {
      if StartsWith(line, "data:") {
        DataWithCRDiffers(p, raw);
      } else if StartsWith(line, "event:") {
        EventWithCRDiffers(p, raw);
      } else {
        LoneCRMoves(p, raw);
      }
    } else {
      PiecesOfPlain(line);
      assert [line][1..] == [];
      LineAgreesIff(p, raw);
    }
  }

  lemma CRBehind(line: string, head: string)
    requires '\r' in line && StartsWith(line, head) && '\r' !in head
    ensures '\r' in DropSpace(line[|head|..])
  {
    var i :| 0 <= i < |line| && line[i] == '\r';
    assert forall k | 0 <= k < |head| :: line[k] == head[k] && head[k] in head;
    var tail := line[|head|..];
    assert tail[i - |head|] == '\r';
    if |tail| > 0 && tail[0] == ' ' { assert tail[1..][i - |head| - 1] == '\r'; }
  }

  // A data line and a blank one.
  function Closing(z: string): seq<string> {
    ["data: " + z, ""]
  }

  lemma DataLine(s: Standard, z: string)
    ensures StandardLine(s, "data: " + z) == s.(dataBuffer := s.dataBuffer + z + "\n")
  {
    var line := "data: " + z;
    assert line[5..] == " " + z && (" " + z)[1..] == z;
    assert StartsWith(line, "data" + ":");
    StandardMeaning(s, line);
    assert s.dataBuffer + z + "\n" == s.dataBuffer + (z + "\n");
  }

  lemma DispatchOf(s: Standard, z: string)
    ensures StandardLines(s, Closing(z)) ==
              Standard("", "", s.dispatched + [(s.typeBuffer, s.dataBuffer + z)])
  {
    hide StandardLine;
    var lines := Closing(z);
    assert lines[0] == "data: " + z && lines[1..] == [""] && [""][1..] == [];
    DataLine(s, z);
    BlankLine(StandardLine(s, lines[0]), s.dataBuffer + z);
  }

  lemma BlankLine(s: Standard, data: string)
    requires s.dataBuffer == data + "\n"
    ensures StandardLine(s, "") == Standard("", "", s.dispatched + [(s.typeBuffer, data)])
  {
    assert s.dataBuffer[..|s.dataBuffer| - 1] == data;
  }

  // What those two lines make of a state shows the whole of it.
  lemma SameDispatchSameState(s: Standard, t: Standard, z: string)
    requires StandardLines(s, Closing(z)).dispatched == StandardLines(t, Closing(z)).dispatched
    ensures s == t
  {
    DispatchOf(s, z);
    DispatchOf(t, z);
    var x, y := s.dispatched + [(s.typeBuffer, s.dataBuffer + z)], t.dispatched + [(t.typeBuffer, t.dataBuffer + z)];
    assert x[..|x| - 1] == s.dispatched && y[..|y| - 1] == t.dispatched;
    assert x[|x| - 1] == y[|y| - 1];
    assert |s.dataBuffer + z| == |t.dataBuffer + z|;
    assert (s.dataBuffer + z)[..|s.dataBuffer|] == s.dataBuffer && (t.dataBuffer + z)[..|t.dataBuffer|] == t.dataBuffer;
  }

  lemma {:induction false} AllPiecesConcat(a: seq<string>, b: seq<string>)
    ensures AllPieces(a + b) == AllPieces(a) + AllPieces(b)
    decreases |a|
  {
    hide Pieces, StripCR;
    if a == [] {
      assert a + b == b;
    } else {
      assert (a + b)[1..] == a[1..] + b;
      AllPiecesConcat(a[1..], b);
    }
  }

  lemma {:induction false} PlainPieces(lines: seq<string>)
    requires forall l | l in lines :: '\r' !in l
    ensures AllPieces(lines) == lines
    decreases |lines|
  {
    hide Pieces, StripCR;
    if lines != [] {
      assert lines[0] in lines;
      NothingStripped(lines[0]);
      PiecesOfPlain(lines[0]);
      PlainPieces(lines[1..]);
    }
  }

  // A text of complete lines without CR or LF inside, none of them a bare field.
  lemma PlainUnlines(lines: seq<string>)
    requires forall l | l in lines :: '\n' !in l && '\r' !in l && l != "data" && l != "event"
    ensures Lines(Unlines(lines)) == lines && Unfinished(Unlines(lines)) == "" && PlainLines(Unlines(lines))
  {
    LinesUnlines(lines);
    UnlinesFinish(lines);
    PiecesOfPlain("");
    forall l | l in lines
      ensures PlainLine(l)
    {
      NothingStripped(l);
    }
  }

  // A name longer than a line.
  function LongName(raw: string): (n: string)
    ensures |n| > |raw| && '\r' !in n && '\n' !in n
  {
    seq(|raw| + 1, _ => 'n')
  }

  // A reader with a pending name reads a line, and then a data line and a blank one dispatch.
  function Probe(raw: string): seq<string> {
    ["event: " + LongName(raw)] + [raw] + Closing("z")
  }

  lemma ReaderOnProbe(raw: string)
    ensures var p := Pending([], Some(LongName(raw)), []);
            AsPairs(AtEof(TakeLines(NOTHING, Probe(raw)))) ==
              StandardLines(AsStandard(TakeLine(p, raw)), Closing("z")).dispatched
  {
    hide TakeLine, StandardLine, Pieces;
    var n := LongName(raw);
    var p := Pending([], Some(n), []);
    TakeName(NOTHING, n);
    NothingStripped(n);
    TakeLinesConcat(NOTHING, ["event: " + n] + [raw], Closing("z"));
    TakeLinesConcat(NOTHING, ["event: " + n], [raw]);
    assert ["event: " + n][1..] == [] && [raw][1..] == [];
    var r := TakeLine(p, raw);
    assert TakeLines(NOTHING, Probe(raw)) == TakeLines(r, Closing("z"));
    ClosingIsPlain();
    PlainLinesAgree(r, Closing("z"));
    PlainPieces(Closing("z"));
    DispatchOf(AsStandard(r), "z");
    var q := TakeLines(r, Closing("z"));
    UnlinesJoin(q.dataLines);
  }

  lemma ClosingIsPlain()
    ensures forall l | l in Closing("z") :: '\n' !in l && '\r' !in l && l != "data" && l != "event" && PlainLine(l)
  {
    assert |"data: z"| == 7;
    forall l | l in Closing("z")
      ensures '\n' !in l && '\r' !in l && l != "data" && l != "event" && PlainLine(l)
    {
      assert l == "data: z" || l == "";
      NothingStripped(l);
    }
  }

  lemma StandardOnProbe(raw: string)
    ensures var p := Pending([], Some(LongName(raw)), []);
            StandardLines(BLANK, AllPieces(Probe(raw))).dispatched ==
              StandardLines(StandardLines(AsStandard(p), Pieces(StripCR(raw))), Closing("z")).dispatched
  {
    hide TakeLine, StandardLine, Pieces, StripCR;
    var n := LongName(raw);
    var name := "event: " + n;
    AllPiecesConcat([name] + [raw], Closing("z"));
    AllPiecesConcat([name], [raw]);
    ClosingIsPlain();
    PlainPieces(Closing("z"));
    PlainPieces([name]);
    assert [raw][1..] == [] && AllPieces([raw]) == Pieces(StripCR(raw)) + [] == Pieces(StripCR(raw));
    StandardConcat(BLANK, [name] + Pieces(StripCR(raw)), Closing("z"));
    StandardConcat(BLANK, [name], Pieces(StripCR(raw)));
    assert [name][1..] == [];
    NameLine(n);
  }

  lemma NameLine(n: string)
    ensures StandardLine(BLANK, "event: " + n) == AsStandard(Pending([], Some(n), []))
  {
    var line := "event: " + n;
    assert line[6..] == " " + n && (" " + n)[1..] == n;
    assert StartsWith(line, "event" + ":") && line[0] == 'e';
    StandardMeaning(BLANK, line);
  }

  // Complete lines before it and lines after it, all plain, and a rest that agrees with what they leave.
  ghost predicate PlainAround(before: string, raw: string, after: string) {
    PlainLines(before) && Unfinished(before) == "" && PlainLines(after) &&
    RestAgrees(TakeLines(NOTHING, Lines(before) + [raw] + Lines(after)), RestLines(after))
  }

  lemma PlainLineNeverShows(before: string, raw: string, after: string)
    requires '\n' !in raw && PlainLine(raw) && PlainAround(before, raw, after)
    ensures Agree(before + raw + "\n" + after)
  {
    hide Lines, Unfinished, Pieces, RestAgrees, LeavesData, PlainLine, Agree;
    LinesAround(before, raw, after);
    TextAgreesIff(before + raw + "\n" + after);
  }

  function Named(raw: string): string {
    Unlines(["event: " + LongName(raw)])
  }

  lemma NamedIsPlain(raw: string)
    ensures Lines(Named(raw)) == ["event: " + LongName(raw)] && Unfinished(Named(raw)) == "" && PlainLines(Named(raw))
  {
    var n := LongName(raw);
    var name := "event: " + n;
    assert '\n' !in "event: " && '\r' !in "event: ";
    assert forall k | 0 <= k < |name| :: name[k] == if k < 7 then "event: "[k] else n[k - 7];
    hide LongName;
    PlainUnlines([name]);
  }

  lemma ProbeIsAText(raw: string)
    requires '\n' !in raw
    ensures var text := Named(raw) + raw + "\n" + Unlines(Closing("z")); Lines(text) == Probe(raw) && Unfinished(text) == ""
    ensures PlainAround(Named(raw), raw, Unlines(Closing("z")))
  {
    ClosingIsPlain();
    NamedIsPlain(raw);
    hide Lines, Unfinished, PlainLines, PlainLine, LeavesData, Named, Unlines, StripCR, StartsWith, TakeLine;
    PlainUnlines(Closing("z"));
    PiecesOfPlain("");
    LinesAround(Named(raw), raw, Unlines(Closing("z")));
    var lines := ["event: " + LongName(raw)] + [raw] + ["data: " + "z"];
    assert Closing("z") == ["data: " + "z"] + [""];
    assert lines + [""] == Probe(raw);
    LeftStep(lines, "");
    assert StripCR("") == "" && !StartsWith("", "data:") by { EmptyLine(); }
    PendingIffLeft(Probe(raw));
    assert !Dispatches([]);
  }

  lemma EmptyLine()
    ensures StripCR("") == "" && !StartsWith("", "data:")
  {
  }

  lemma ProbeDisagrees(raw: string, text: string)
    requires !PlainLine(raw) && Lines(text) == Probe(raw) && Unfinished(text) == ""
    ensures !Agree(text)
  {
    hide Lines, Unfinished, Pieces, PlainLine, TakeLines, StandardLines, StandardSplit, Probe;
    SplitText(text);
    PiecesOfPlain("");
    assert StandardSplit(text) == AllPieces(Probe(raw));
    ReaderOnProbe(raw);
    StandardOnProbe(raw);
    var p := Pending([], Some(LongName(raw)), []);
    NotPlainIsTakenDifferently(p, raw);
    if Agree(text) {
      SameDispatchSameState(AsStandard(TakeLine(p, raw)), StandardLines(AsStandard(p), Pieces(StripCR(raw))), "z");
    }
  }

  lemma OtherLineShows(raw: string) returns (before: string, after: string)
    requires '\n' !in raw && !PlainLine(raw)
    ensures PlainAround(before, raw, after) && !Agree(before + raw + "\n" + after)
  {
    hide PlainLine, PlainAround, Agree, Probe, Lines, Unfinished;
    before, after := Named(raw), Unlines(Closing("z"));
    ProbeIsAText(raw);
    ProbeDisagrees(raw, before + raw + "\n" + after);
  }

  // The condition on lines is exact: a line is plain exactly if it makes no difference in any text of plain lines
  // whose rest agrees with what they leave.
  lemma LineConditionIsExact(raw: string)
    requires '\n' !in raw
    ensures PlainLine(raw) <==>
              forall before, after | PlainAround(before, raw, after) :: Agree(before + raw + "\n" + after)
  {
    hide PlainAround, Agree, PlainLine;
    if PlainLine(raw) {
      forall before, after | PlainAround(before, raw, after)
        ensures Agree(before + raw + "\n" + after)
      {
        PlainLineNeverShows(before, raw, after);
      }
    } else {
      var before, after := OtherLineShows(raw);
    }
  }

  // --- One text for each difference ----------------------------------------------------------------------------

  lemma {:induction false} WhatIsRead(lines: seq<string>)
    requires forall l | l in lines :: '\n' !in l
    ensures EventsOf(Unlines(lines)) == AtEof(TakeLines(NOTHING, lines))
    ensures StandardEvents(Unlines(lines)) == StandardLines(BLANK, AllPieces(lines)).dispatched
  {
    hide Lines, Unfinished, Pieces, TakeLines, StandardLines, StandardSplit;
    LinesUnlines(lines);
    UnlinesFinish(lines);
    SplitText(Unlines(lines));
    PiecesOfPlain("");
    assert AllPieces(lines) + [""][..0] == AllPieces(lines);
  }

  // A data field without a colon: the standard dispatches an empty event, this reader none.
  lemma BareDataDiffers()
    ensures EventsOf(Unlines(["data", ""])) == [] && StandardEvents(Unlines(["data", ""])) == [("", "")]
  {
    assert StripCR("data") == "data" && StripCR("") == "";
    hide StandardLine, AllPieces;
    WhatIsRead(["data", ""]);
    PlainPieces(["data", ""]);
    assert ["data", ""][1..] == [""] && [""][1..] == [];
    StandardMeaning(BLANK, "data");
    BlankLine(Standard("\n", "", []), "");
  }

  // An event field without a colon: the standard forgets the name, this reader keeps it.
  lemma BareEventDiffers(name: string, data: string)
    requires name != "" && '\n' !in name + data && '\r' !in name + data
    ensures var text := Unlines(["event: " + name, "event"] + Closing(data));
            EventsOf(text) == [Event(Some(name), data)] && StandardEvents(text) == [("", data)]
  {
    hide StandardLine, TakeLine, StripCR, Unlines, EventsOf, StandardEvents;
    var lines := ["event: " + name, "event"] + Closing(data);
    EachHasNone(name, data);
    WhatIsRead(lines);
    PlainPieces(lines);
    assert lines[1..] == ["event"] + Closing(data) && (["event"] + Closing(data))[1..] == Closing(data);
    NameForgotten(name, data);
    NameKept(name, data);
  }

  lemma NameForgotten(name: string, data: string)
    ensures StandardLines(StandardLine(StandardLine(BLANK, "event: " + name), "event"), Closing(data)).dispatched ==
              [("", data)]
  {
    hide StandardLine;
    var named := AsStandard(Pending([], Some(name), []));
    NameLine(name);
    StandardMeaning(named, "event");
    assert "event"[0] == 'e' && !IsField("event", "data");
    assert AsPairs([]) == [];
    assert StandardLine(named, "event") == BLANK;
    DispatchOf(BLANK, data);
    assert BLANK.dataBuffer + data == data;
  }

  lemma NameKept(name: string, data: string)
    requires '\r' !in name && '\r' !in data
    ensures AtEof(TakeLines(TakeLine(TakeLine(NOTHING, "event: " + name), "event"), Closing(data))) ==
              [Event(Some(name), data)]
  {
    hide TakeLine, TakeLines;
    TakeName(NOTHING, name);
    NothingStripped(name);
    BareIsIgnored(Pending([], Some(name), []));
    ReaderCloses(Pending([], Some(name), []), data);
  }

  lemma EachHasNone(name: string, data: string)
    requires '\n' !in name + data && '\r' !in name + data
    ensures forall l | l in ["event: " + name, "event"] + Closing(data) :: '\n' !in l && '\r' !in l
    ensures '\r' !in name && '\r' !in data
  {
    assert forall c :: c in name + data <==> c in name || c in data;
    assert forall c :: c in "event: " + name <==> c in "event: " || c in name;
    assert forall c :: c in "data: " + data <==> c in "data: " || c in data;
  }

  lemma BareIsIgnored(p: Pending)
    ensures TakeLine(p, "event") == p
  {
  }

  lemma ReaderCloses(p: Pending, data: string)
    requires p.dataLines == [] && '\r' !in data
    ensures TakeLines(p, Closing(data)) == Pending([], None, p.emitted + [Event(p.eventName, data)])
  {
    assert Closing(data)[0] == "data: " + data && Closing(data)[1..] == [""] && [""][1..] == [];
    TakeData(p, data);
    NothingStripped(data);
  }

  function Inner(a: string, b: string): string {
    a + "\r" + ("data: " + b)
  }

  // A carriage return inside a data line: two lines for the standard, one for this reader.
  lemma LoneCRDiffers(a: string, b: string)
    requires '\n' !in a + b && '\r' !in a + b
    ensures var text := Unlines(Closing(Inner(a, b)));
            EventsOf(text) == [Event(None, Inner(a, b))] && StandardEvents(text) == [("", a + "\n" + b)]
  {
    hide *;
    NoEndsInside(a, b);
    WhatIsRead(Closing(Inner(a, b)));
    ReaderSeesOne(a, b);
    StandardSeesTwo(a, b);
  }

  lemma ReaderSeesOne(a: string, b: string)
    requires '\r' !in "data: " + b
    ensures AtEof(TakeLines(NOTHING, Closing(Inner(a, b)))) == [Event(None, Inner(a, b))]
  {
    hide TakeLine, StripCR;
    var inner := Inner(a, b);
    TakeData(NOTHING, inner);
    StripsTheTail(a, "data: " + b);
    NothingStripped("data: " + b);
    assert Closing(inner)[0] == "data: " + inner && Closing(inner)[1..] == [""] && [""][1..] == [];
    assert StripCR(inner) == inner;
    assert TakeLine(NOTHING, "data: " + inner) == Pending([inner], None, []);
    BlankDispatches(inner);
    assert TakeLines(TakeLine(NOTHING, "data: " + inner), [""]) == TakeLine(Pending([inner], None, []), "");
  }

  lemma StandardSeesTwo(a: string, b: string)
    requires '\r' !in "data: " + a && '\r' !in "data: " + b
    ensures StandardLines(BLANK, AllPieces(Closing(Inner(a, b)))).dispatched == [("", a + "\n" + b)]
  {
    hide StandardLine, AllPieces;
    TwoPieces(a, b);
    StandardConcat(BLANK, ["data: " + a], Closing(b));
    assert ["data: " + a][1..] == [];
    DataLine(BLANK, a);
    assert BLANK.dataBuffer + a + "\n" == a + "\n";
    DispatchOf(Standard(a + "\n", "", []), b);
  }

  lemma BlankDispatches(data: string)
    ensures TakeLine(Pending([data], None, []), "") == Pending([], None, [Event(None, data)])
  {
  }

  lemma TwoPieces(a: string, b: string)
    requires '\r' !in "data: " + a && '\r' !in "data: " + b
    ensures AllPieces(Closing(Inner(a, b))) == ["data: " + a] + Closing(b)
  {
    hide Pieces, StripCR;
    var lines := Closing(Inner(a, b));
    assert lines[0] == ("data: " + a) + "\r" + ("data: " + b) && lines[1..] == [""];
    StripsTheTail("data: " + a, "data: " + b);
    NothingStripped("data: " + b);
    PiecesCut("data: " + a, "data: " + b);
    PiecesOfPlain("data: " + b);
    PlainPieces([""]);
  }

  lemma NoEndsInside(a: string, b: string)
    requires '\n' !in a + b && '\r' !in a + b
    ensures '\r' !in "data: " + a && '\r' !in "data: " + b
    ensures forall l | l in Closing(Inner(a, b)) :: '\n' !in l
  {
    assert forall c :: c in a + b <==> c in a || c in b;
    assert forall c :: c in "data: " + a <==> c in "data: " || c in a;
    assert forall c :: c in "data: " + b <==> c in "data: " || c in b;
    var inner := Inner(a, b);
    assert forall c :: c in inner <==> c in a + "\r" || c in "data: " + b;
    assert forall c :: c in a + "\r" <==> c in a || c in "\r";
    assert forall c :: c in "data: " + inner <==> c in "data: " || c in inner;
  }

  // A stream whose lines end in a carriage return alone: an event for the standard, not even a line for this reader.
  lemma LoneCRStreamDiffers(data: string)
    requires '\n' !in data && '\r' !in data
    ensures var text := "data: " + data + "\r" + "\r"; EventsOf(text) == [] && StandardEvents(text) == [("", data)]
  {
    var line := "data: " + data;
    var text := line + "\r" + "\r";
    EachHasNone("", data);
    assert "" + data == data && Closing(data)[0] == line;
    assert forall c :: c in text <==> c in line || c in "\r";
    hide StandardSplit, Lines;
    NoLine(text);
    SplitLoneCR(line, "\r");
    SplitLoneCR("", "");
    NoEnd("");
    assert "" + "\r" + "" == "\r" && [line] + ([""] + []) == Closing(data);
    DispatchOf(BLANK, data);
    assert BLANK.dataBuffer + data == data;
  }

  // A data line that no blank line follows: this reader emits it at the end, the standard drops it.
  lemma UnfinishedEventDiffers(data: string)
    requires '\n' !in data && '\r' !in data
    ensures var text := Unlines(["data: " + data]);
            EventsOf(text) == [Event(None, data)] && StandardEvents(text) == []
  {
    var lines := ["data: " + data];
    EachHasNone("", data);
    assert "" + data == data && Closing(data)[0] == lines[0];
    WhatIsRead(lines);
    PlainPieces(lines);
    assert lines[1..] == [];
    TakeData(NOTHING, data);
    NothingStripped(data);
    DataLine(BLANK, data);
  }
}
