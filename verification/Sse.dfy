// The Server-Sent Events reader: an incremental loop over decoded text, its meaning on the whole
// text, and the printed form it inverts.
module Sse {
  import opened Prelude

  datatype Event = Event(event: Option<string>, data: string)

  // --- Lines of a text -------------------------------------------------------------------------------

  function IndexOf(s: string, c: char): (r: Option<nat>)
    ensures r.Some? ==> r.value < |s| && s[r.value] == c && c !in s[..r.value]
    ensures r.None? <==> c !in s
  {
    if s == "" then None
    else if s[0] == c then Some(0)
    else
      match IndexOf(s[1..], c)
      case None => None
      case Some(i) =>
        assert s[..i + 1] == [s[0]] + s[1..][..i];
        Some(i + 1)
  }

  // The lines that end in LF; what follows the last LF is not a line yet.
  function Lines(text: string): seq<string>
    decreases |text|
  {
    var nl := IndexOf(text, '\n');
    if nl.None? then [] else [text[..nl.value]] + Lines(text[nl.value + 1..])
  }

  function Unfinished(text: string): string
    decreases |text|
  {
    var nl := IndexOf(text, '\n');
    if nl.None? then text else Unfinished(text[nl.value + 1..])
  }

  function StripCR(line: string): string {
    if |line| > 0 && line[|line| - 1] == '\r' then line[..|line| - 1] else line
  }

  predicate StartsWith(s: string, prefix: string) {
    prefix <= s
  }

  function DropSpace(s: string): string {
    if |s| > 0 && s[0] == ' ' then s[1..] else s
  }

  function Join(lines: seq<string>): string {
    if lines == [] then ""
    else if |lines| == 1 then lines[0]
    else lines[0] + "\n" + Join(lines[1..])
  }

  // --- The reader as a function of its lines -----------------------------------------------------------

  datatype Pending = Pending(dataLines: seq<string>, eventName: Option<string>, emitted: seq<Event>)

  const NOTHING := Pending([], None, [])

  function TakeLine(p: Pending, raw: string): Pending {
    var line := StripCR(raw);
    if line == "" then
      Pending([], None, if |p.dataLines| > 0 then p.emitted + [Event(p.eventName, Join(p.dataLines))] else p.emitted)
    else if StartsWith(line, ":") then p
    else if StartsWith(line, "data:") then p.(dataLines := p.dataLines + [DropSpace(line[5..])])
    else if StartsWith(line, "event:") then p.(eventName := Some(DropSpace(line[6..])))
    else p
  }

  function TakeLines(p: Pending, lines: seq<string>): Pending
    decreases |lines|
  {
    if lines == [] then p else TakeLines(TakeLine(p, lines[0]), lines[1..])
  }

  function AtEof(p: Pending): seq<Event> {
    if |p.dataLines| > 0 then p.emitted + [Event(p.eventName, Join(p.dataLines))] else p.emitted
  }

  function EventsOf(text: string): seq<Event> {
    AtEof(TakeLines(NOTHING, Lines(text)))
  }

  lemma {:induction false} TakeLinesConcat(p: Pending, a: seq<string>, b: seq<string>)
    ensures TakeLines(p, a + b) == TakeLines(TakeLines(p, a), b)
    decreases |a|
  {
    if a == [] {
      assert a + b == b;
    } else {
      assert (a + b)[1..] == a[1..] + b;
      TakeLinesConcat(TakeLine(p, a[0]), a[1..], b);
    }
  }

  lemma IndexOfPrefix(a: string, b: string, c: char)
    requires c in a
    ensures IndexOf(a + b, c) == IndexOf(a, c)
  {
    if a[0] != c { assert (a + b)[1..] == a[1..] + b; }
  }

  lemma FirstLine(text: string, i: nat)
    requires IndexOf(text, '\n') == Some(i)
    ensures Lines(text) == [text[..i]] + Lines(text[i + 1..])
    ensures Unfinished(text) == Unfinished(text[i + 1..])
  {
  }

  lemma NoLine(text: string)
    requires IndexOf(text, '\n').None?
    ensures Lines(text) == [] && Unfinished(text) == text
  {
  }

  // Reading a then b is reading the lines of a, then those of b joined to what a left unfinished.
  lemma {:induction false} LinesSplit(a: string, b: string)
    ensures Lines(a + b) == Lines(a) + Lines(Unfinished(a) + b)
    ensures Unfinished(a + b) == Unfinished(Unfinished(a) + b)
    decreases |a|
  {
    hide Lines, Unfinished;
    if IndexOf(a, '\n').None? {
      NoLine(a);
    } else {
      var i := IndexOf(a, '\n').value;
      FirstLine(a, i);
      IndexOfPrefix(a, b, '\n');
      FirstLine(a + b, i);
      assert (a + b)[..i] == a[..i] && (a + b)[i + 1..] == a[i + 1..] + b;
      LinesSplit(a[i + 1..], b);
    }
  }

  lemma {:induction false} UnfinishedHasNoLF(text: string)
    ensures '\n' !in Unfinished(text)
    decreases |text|
  {
    match IndexOf(text, '\n') {
      case None =>
      case Some(i) => UnfinishedHasNoLF(text[i + 1..]);
    }
  }

  function Concat(chunks: seq<string>): string {
    if chunks == [] then "" else Concat(chunks[..|chunks| - 1]) + chunks[|chunks| - 1]
  }

  // The loop: text is appended as it arrives and consumed line by line.
  method ParseSSE(chunks: seq<string>) returns (events: seq<Event>)
    ensures events == EventsOf(Concat(chunks))
  {
    var buffer := "";
    var dataLines: seq<string> := [];
    var eventName: Option<string> := None;
    events := [];
    for n := 0 to |chunks|
      invariant buffer == Unfinished(Concat(chunks[..n]))
      invariant Pending(dataLines, eventName, events) == TakeLines(NOTHING, Lines(Concat(chunks[..n])))
    {
      ghost var before := Concat(chunks[..n]);
      assert chunks[..n + 1][..n] == chunks[..n];
      LinesSplit(before, chunks[n]);
      TakeLinesConcat(NOTHING, Lines(before), Lines(buffer + chunks[n]));
      buffer := buffer + chunks[n];
      ghost var target := TakeLines(Pending(dataLines, eventName, events), Lines(buffer));
      ghost var rest := Unfinished(buffer);
      while true
        invariant TakeLines(Pending(dataLines, eventName, events), Lines(buffer)) == target
        invariant Unfinished(buffer) == rest
        decreases |buffer|
      {
        var nl := IndexOf(buffer, '\n');
        if nl.None? { break; }
        var line := buffer[..nl.value];
        buffer := buffer[nl.value + 1..];
        if |line| > 0 && line[|line| - 1] == '\r' { line := line[..|line| - 1]; }
        if line == "" {
          if |dataLines| > 0 { events := events + [Event(eventName, Join(dataLines))]; }
          dataLines, eventName := [], None;
          continue;
        }
        if StartsWith(line, ":") { continue; }
        if StartsWith(line, "data:") {
          dataLines := dataLines + [DropSpace(line[5..])];
        } else if StartsWith(line, "event:") {
          eventName := Some(DropSpace(line[6..]));
        }
      }
    }
    assert chunks[..|chunks|] == chunks;
    if |dataLines| > 0 { events := events + [Event(eventName, Join(dataLines))]; }
  }

  // --- Independence of the chunking ----------------------------------------------------------------------

  datatype Reader = Reader(buffer: string, pending: Pending)

  function Absorb(r: Reader, chunk: string): Reader {
    Reader(Unfinished(r.buffer + chunk), TakeLines(r.pending, Lines(r.buffer + chunk)))
  }

  // Two chunks in a row leave the reader where their concatenation does, from any reader state.
  lemma ChunkingIsIrrelevant(r: Reader, a: string, b: string)
    ensures Absorb(Absorb(r, a), b) == Absorb(r, a + b)
  {
    hide Lines, Unfinished, TakeLines;
    LinesSplit(r.buffer + a, b);
    assert r.buffer + a + b == r.buffer + (a + b);
    TakeLinesConcat(r.pending, Lines(r.buffer + a), Lines(Unfinished(r.buffer + a) + b));
  }

  // A reader that was given the chunks one by one.
  function AbsorbAll(chunks: seq<string>): Reader
    decreases |chunks|
  {
    if chunks == [] then Reader("", NOTHING) else Absorb(AbsorbAll(chunks[..|chunks| - 1]), chunks[|chunks| - 1])
  }

  // However a text is cut, reading its chunks one by one gives the events of the text.
  lemma {:induction false} ReadingChunkByChunk(chunks: seq<string>)
    ensures AbsorbAll(chunks) == Absorb(Reader("", NOTHING), Concat(chunks))
    ensures AtEof(AbsorbAll(chunks).pending) == EventsOf(Concat(chunks))
    decreases |chunks|
  {
    hide Lines, Unfinished, TakeLines;
    if chunks == [] {
      NoLine("");
      assert TakeLines(NOTHING, []) == NOTHING by { NoLinesTaken(); }
    } else {
      ReadingChunkByChunk(chunks[..|chunks| - 1]);
      ChunkingIsIrrelevant(Reader("", NOTHING), Concat(chunks[..|chunks| - 1]), chunks[|chunks| - 1]);
    }
    assert "" + Concat(chunks) == Concat(chunks);
  }

  lemma NoLinesTaken()
    ensures TakeLines(NOTHING, []) == NOTHING
  {
  }

  // --- Printing events and reading them back ---------------------------------------------------------------

  // The lines of a data string.
  function SplitLF(data: string): (r: seq<string>)
    ensures |r| > 0
    ensures forall l | l in r :: '\n' !in l
    decreases |data|
  {
    match IndexOf(data, '\n')
    case None => [data]
    case Some(i) => [data[..i]] + SplitLF(data[i + 1..])
  }

  lemma JoinStep(head: string, tail: seq<string>)
    requires tail != []
    ensures Join([head] + tail) == head + "\n" + Join(tail)
  {
    assert ([head] + tail)[1..] == tail;
  }

  lemma {:induction false} JoinSplit(data: string)
    ensures Join(SplitLF(data)) == data
    decreases |data|
  {
    if IndexOf(data, '\n').Some? {
      hide Join;
      var i := IndexOf(data, '\n').value;
      JoinSplit(data[i + 1..]);
      JoinStep(data[..i], SplitLF(data[i + 1..]));
      assert data == data[..i] + "\n" + data[i + 1..];
    }
  }

  function DataFields(lines: seq<string>): seq<string> {
    if lines == [] then [] else ["data: " + lines[0]] + DataFields(lines[1..])
  }

  // The lines an event is written as; the empty line dispatches it.
  function FieldLines(e: Event): seq<string> {
    (if e.event.Some? then ["event: " + e.event.value] else []) + DataFields(SplitLF(e.data)) + [""]
  }

  function AllFieldLines(es: seq<Event>): seq<string> {
    if es == [] then [] else FieldLines(es[0]) + AllFieldLines(es[1..])
  }

  function Unlines(lines: seq<string>): string {
    if lines == [] then "" else lines[0] + "\n" + Unlines(lines[1..])
  }

  function PrintEvents(es: seq<Event>): string {
    Unlines(AllFieldLines(es))
  }

  predicate EndsInCR(s: string) {
    |s| > 0 && s[|s| - 1] == '\r'
  }

  // An event the reader can give back: its name is one line, and no line loses a carriage return.
  predicate Faithful(e: Event) {
    (e.event.Some? ==> '\n' !in e.event.value && !EndsInCR(e.event.value)) &&
    forall l | l in SplitLF(e.data) :: !EndsInCR(l)
  }

  function StripAll(lines: seq<string>): seq<string> {
    if lines == [] then [] else [StripCR(lines[0])] + StripAll(lines[1..])
  }

  // What the reader makes of a printed event whose name is one line.
  function Received(e: Event): Event {
    Event(if e.event.Some? then Some(StripCR(e.event.value)) else None, Join(StripAll(SplitLF(e.data))))
  }

  function ReceivedAll(es: seq<Event>): (r: seq<Event>)
    ensures |r| == |es|
    ensures forall i | 0 <= i < |es| :: r[i] == Received(es[i])
  {
    seq(|es|, i requires 0 <= i < |es| => Received(es[i]))
  }

  lemma {:induction false} LinesUnlines(lines: seq<string>)
    requires forall l | l in lines :: '\n' !in l
    ensures Lines(Unlines(lines)) == lines
    decreases |lines|
  {
    hide Lines, IndexOf;
    if lines == [] {
      NoLine("");
    } else {
      var text := Unlines(lines);
      var rest := Unlines(lines[1..]);
      assert lines[0] in lines;
      FirstLF(lines[0], rest);
      assert text == lines[0] + "\n" + rest;
      assert text[..|lines[0]|] == lines[0] && text[|lines[0]| + 1..] == rest;
      FirstLine(text, |lines[0]|);
      LinesUnlines(lines[1..]);
      assert lines == [lines[0]] + lines[1..];
    }
  }

  lemma {:induction false} FirstIs(s: string, c: char, i: nat)
    requires i < |s| && s[i] == c && forall k | 0 <= k < i :: s[k] != c
    ensures IndexOf(s, c) == Some(i)
  {
    if i > 0 { FirstIs(s[1..], c, i - 1); }
  }

  lemma FirstLF(line: string, rest: string)
    requires '\n' !in line
    ensures IndexOf(line + "\n" + rest, '\n') == Some(|line|)
  {
    assert forall k | 0 <= k < |line| :: (line + "\n" + rest)[k] == line[k];
    FirstIs(line + "\n" + rest, '\n', |line|);
  }

  lemma TakeData(p: Pending, l: string)
    ensures TakeLine(p, "data: " + l) == p.(dataLines := p.dataLines + [StripCR(l)])
  {
    var raw := "data: " + l;
    var line := StripCR(raw);
    assert line == "data: " + StripCR(l);
    assert line[5..] == " " + StripCR(l);
    assert (" " + StripCR(l))[1..] == StripCR(l);
    assert line[0] == 'd';
  }

  lemma TakeName(p: Pending, name: string)
    ensures TakeLine(p, "event: " + name) == p.(eventName := Some(StripCR(name)))
  {
    var raw := "event: " + name;
    var line := StripCR(raw);
    assert line == "event: " + StripCR(name);
    assert line[6..] == " " + StripCR(name);
    assert (" " + StripCR(name))[1..] == StripCR(name);
    assert line[0] == 'e';
  }

  lemma {:induction false} TakeDataLines(p: Pending, lines: seq<string>)
    ensures TakeLines(p, DataFields(lines)) == p.(dataLines := p.dataLines + StripAll(lines))
    decreases |lines|
  {
    hide TakeLine, StripCR;
    if lines == [] {
      assert p.dataLines + StripAll(lines) == p.dataLines;
    } else {
      var fields := DataFields(lines);
      assert fields[0] == "data: " + lines[0] && fields[1..] == DataFields(lines[1..]);
      TakeData(p, lines[0]);
      var next := p.(dataLines := p.dataLines + [StripCR(lines[0])]);
      TakeDataLines(next, lines[1..]);
      assert next.dataLines + StripAll(lines[1..]) == p.dataLines + StripAll(lines);
    }
  }

  lemma TakeEvent(emitted: seq<Event>, e: Event)
    ensures TakeLines(Pending([], None, emitted), FieldLines(e)) == Pending([], None, emitted + [Received(e)])
  {
    var start := Pending([], None, emitted);
    var name := if e.event.Some? then ["event: " + e.event.value] else [];
    var data := DataFields(SplitLF(e.data));
    var named := start.(eventName := if e.event.Some? then Some(StripCR(e.event.value)) else None);
    assert TakeLines(start, name) == named by {
      if e.event.Some? {
        TakeName(start, e.event.value);
        assert name[1..] == [];
      }
    }
    TakeDataLines(named, SplitLF(e.data));
    assert [] + StripAll(SplitLF(e.data)) == StripAll(SplitLF(e.data));
    TakeLinesConcat(start, name, data);
    TakeLinesConcat(start, name + data, [""]);
    assert [""][1..] == [];
  }

  lemma {:induction false} TakeEvents(emitted: seq<Event>, es: seq<Event>)
    ensures TakeLines(Pending([], None, emitted), AllFieldLines(es)) == Pending([], None, emitted + ReceivedAll(es))
    decreases |es|
  {
    hide FieldLines, Received, TakeLine;
    if es == [] {
      assert emitted + ReceivedAll(es) == emitted;
    } else {
      TakeEvent(emitted, es[0]);
      TakeLinesConcat(Pending([], None, emitted), FieldLines(es[0]), AllFieldLines(es[1..]));
      TakeEvents(emitted + [Received(es[0])], es[1..]);
      assert emitted + [Received(es[0])] + ReceivedAll(es[1..]) == emitted + ReceivedAll(es);
    }
  }

  predicate NameIsOneLine(e: Event) {
    e.event.Some? ==> '\n' !in e.event.value
  }

  lemma {:induction false} DataFieldsAreLines(lines: seq<string>)
    requires forall l | l in lines :: '\n' !in l
    ensures forall f | f in DataFields(lines) :: '\n' !in f
  {
    if lines != [] {
      assert lines[0] in lines;
      DataFieldsAreLines(lines[1..]);
    }
  }

  lemma {:induction false} FieldLinesAreLines(es: seq<Event>)
    requires forall e | e in es :: NameIsOneLine(e)
    ensures forall l | l in AllFieldLines(es) :: '\n' !in l
  {
    if es != [] {
      FieldLinesAreLines(es[1..]);
      assert es[0] in es;
      DataFieldsAreLines(SplitLF(es[0].data));
    }
  }

  // Reading a printed list of one-line-named events strips a carriage return per line, no more.
  lemma ReadingPrinted(es: seq<Event>)
    requires forall e | e in es :: NameIsOneLine(e)
    ensures EventsOf(PrintEvents(es)) == ReceivedAll(es)
  {
    FieldLinesAreLines(es);
    LinesUnlines(AllFieldLines(es));
    TakeEvents([], es);
    assert [] + ReceivedAll(es) == ReceivedAll(es);
  }

  lemma {:induction false} JoinStripped(lines: seq<string>)
    ensures |Join(StripAll(lines))| <= |Join(lines)|
    ensures |Join(StripAll(lines))| == |Join(lines)| <==> forall l | l in lines :: !EndsInCR(l)
    ensures (forall l | l in lines :: !EndsInCR(l)) ==> StripAll(lines) == lines
    decreases |lines|
  {
    if lines != [] {
      assert forall l :: l in lines <==> l == lines[0] || l in lines[1..];
      JoinStripped(lines[1..]);
      assert |StripCR(lines[0])| == |lines[0]| <==> !EndsInCR(lines[0]);
      assert lines[0] in lines;
      if |lines| == 1 {
        assert forall l | l in lines :: l == lines[0];
      }
    }
  }

  lemma ReceivedIntact(e: Event)
    requires NameIsOneLine(e)
    ensures Received(e) == e <==> Faithful(e)
  {
    JoinSplit(e.data);
    JoinStripped(SplitLF(e.data));
  }

  // Names read from any text are one line.
  lemma {:induction false} NamesReadAreOneLine(p: Pending, lines: seq<string>)
    requires forall l | l in lines :: '\n' !in l
    requires (p.eventName.Some? ==> '\n' !in p.eventName.value) && forall e | e in p.emitted :: NameIsOneLine(e)
    ensures var q := TakeLines(p, lines);
            (q.eventName.Some? ==> '\n' !in q.eventName.value) && forall e | e in q.emitted :: NameIsOneLine(e)
    decreases |lines|
  {
    if lines != [] {
      assert lines[0] in lines;
      NamesReadAreOneLine(TakeLine(p, lines[0]), lines[1..]);
    }
  }

  lemma {:induction false} LinesHaveNoLF(text: string)
    ensures forall l | l in Lines(text) :: '\n' !in l
    decreases |text|
  {
    hide Lines;
    if IndexOf(text, '\n').None? {
      NoLine(text);
    } else {
      var i := IndexOf(text, '\n').value;
      FirstLine(text, i);
      LinesHaveNoLF(text[i + 1..]);
    }
  }

  // Printing and reading is the identity on a list of events exactly when each event's name is one
  // line and neither the name nor any data line ends in CR.
  lemma RoundTripIffFaithful(es: seq<Event>)
    ensures EventsOf(PrintEvents(es)) == es <==> forall e | e in es :: Faithful(e)
  {
    if forall e | e in es :: NameIsOneLine(e) {
      ReadingPrinted(es);
      forall i | 0 <= i < |es|
        ensures ReceivedAll(es)[i] == es[i] <==> Faithful(es[i])
      {
        assert es[i] in es;
        ReceivedIntact(es[i]);
      }
      if forall e | e in es :: Faithful(e) {
        assert ReceivedAll(es) == es;
      } else {
        var e :| e in es && !Faithful(e);
        var i :| 0 <= i < |es| && es[i] == e;
        assert ReceivedAll(es)[i] != es[i];
      }
    } else {
      var e :| e in es && !NameIsOneLine(e);
      LinesHaveNoLF(PrintEvents(es));
      NamesReadAreOneLine(NOTHING, Lines(PrintEvents(es)));
      assert e !in EventsOf(PrintEvents(es));
    }
  }
}
