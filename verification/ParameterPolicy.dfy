// The checker and the policy as they run: loops over the tables, and shallow copies of the caller's
// objects from which keys are deleted.
module ParameterPolicy {
  import opened Prelude
  import opened Parameters
  import opened ParameterLaws
  import opened SortedNames

  // A mutable record of own properties.
  class Record<K(==)> {
    var entries: map<K, string>

    constructor (entries: map<K, string>)
      ensures this.entries == entries
    {
      this.entries := entries;
    }
  }

  class ResponsesTransport {
    var own: Record<Field>
    var text: Record?<string>
    var reasoning: Record?<string>

    constructor (own: Record<Field>, text: Record?<string>, reasoning: Record?<string>)
      ensures this.own == own && this.text == text && this.reasoning == reasoning
    {
      this.own, this.text, this.reasoning := own, text, reasoning;
    }

    ghost function View(): Responses
      reads this, own, text, reasoning
    {
      Responses(own.entries, ViewOf(text), ViewOf(reasoning))
    }
  }

  class ChatRequest {
    var own: Record<Field>
    var extraBody: Record?<string>
    var responses: ResponsesTransport?
    var chat: Record?<Field>
    var messages: Record?<Field>

    constructor (own: Record<Field>, extraBody: Record?<string>, responses: ResponsesTransport?,
                 chat: Record?<Field>, messages: Record?<Field>)
      ensures this.own == own && this.extraBody == extraBody && this.responses == responses
      ensures this.chat == chat && this.messages == messages
    {
      this.own, this.extraBody, this.responses, this.chat, this.messages := own, extraBody, responses, chat, messages;
    }

    ghost function View(): Request
      reads this, own, extraBody, responses, chat, messages
      reads if responses == null then {} else {responses.own}
      reads if responses == null then {} else {responses.text, responses.reasoning}
    {
      Request(own.entries, ViewOf(extraBody), ViewOfResponses(responses),
              ViewOf(chat), ViewOf(messages))
    }
  }

  ghost function ViewOf<K>(r: Record?<K>): Option<map<K, string>>
    reads r
  {
    if r == null then None else Some(r.entries)
  }

  ghost function ViewOfResponses(t: ResponsesTransport?): Option<Responses>
    reads t
    reads if t == null then {} else {t.own}
    reads if t == null then {} else {t.text, t.reasoning}
  {
    if t == null then None else Some(t.View())
  }

  // --- Checking -----------------------------------------------------------------------------------------

  lemma OneMoreRow(fields: Fields, table: seq<Field>, i: nat, meta: Meta)
    requires i < |table|
    ensures var row, upto, next := table[i], table[..i], table[..i + 1];
            var bad := row in fields && Reported(row, meta).Some?;
            FieldNames(fields, next, meta) ==
              FieldNames(fields, upto, meta) + (if bad then {Reported(row, meta).value} else {}) &&
            CleanFields(fields, next, meta) ==
              (if bad then CleanFields(fields, upto, meta) - {row} else CleanFields(fields, upto, meta))
  {
    hide Names, ExplicitlyUnsupported;
    var row, upto, next := table[i], table[..i], table[..i + 1];
    assert next == upto + [row];
    assert forall f :: f in next <==> f in upto || f == row;
    assert row in fields && Reported(row, meta).Some? ==> Reported(row, meta).value in FieldNames(fields, next, meta);
    assert FieldNames(fields, upto, meta) <= FieldNames(fields, next, meta);
  }

  method ReportFields(r: Record<Field>, table: seq<Field>, meta: Meta) returns (found: set<string>)
    ensures found == FieldNames(r.entries, table, meta)
  {
    hide FieldNames, CleanFields, Names;
    found := {};
    assert FieldNames(r.entries, table[..0], meta) == {} by { NoRows(r.entries, table, meta); }
    for i := 0 to |table|
      invariant found == FieldNames(r.entries, table[..i], meta)
    {
      OneMoreRow(r.entries, table, i, meta);
      if table[i] in r.entries {
        var name := ExplicitlyUnsupported(meta, Names(table[i]));
        if name.Some? { found := found + {name.value}; }
      }
    }
    assert table[..|table|] == table;
  }

  lemma NoRows(fields: Fields, table: seq<Field>, meta: Meta)
    ensures FieldNames(fields, table[..0], meta) == {} && CleanFields(fields, table[..0], meta) == fields
  {
  }

  method ReportKeys(r: Record?<string>, meta: Meta) returns (found: set<string>)
    ensures found == KeyNames(Contents(ViewOf(r)), meta)
  {
    found := {};
    if r != null {
      var left := r.entries.Keys;
      while left != {}
        invariant left <= r.entries.Keys
        invariant found == KeyNames(r.entries - left, meta)
        decreases left
      {
        var name :| name in left;
        left := left - {name};
        if StateOf(meta, name) == Unsupported { found := found + {name}; }
      }
      assert r.entries - left == r.entries;
    }
  }

  method ReportFieldsOf(r: Record?<Field>, table: seq<Field>, meta: Meta) returns (found: set<string>)
    ensures found == FieldNames(Contents(ViewOf(r)), table, meta)
  {
    NoFields(table, meta);
    hide FieldNames;
    found := {};
    if r != null { found := ReportFields(r, table, meta); }
  }

  method ReportResponses(t: ResponsesTransport?, meta: Meta) returns (found: set<string>)
    ensures found == ResponsesNames(ResponsesContents(ViewOfResponses(t)), meta)
  {
    NoFields(ResponsesTransportSpecs(), meta);
    hide FieldNames, KeyNames, ResponsesTransportSpecs;
    found := {};
    if t != null {
      var own := ReportFields(t.own, ResponsesTransportSpecs(), meta);
      var text := ReportKeys(t.text, meta);
      var reasoning := ReportKeys(t.reasoning, meta);
      found := own + text + reasoning;
    }
  }

  // The unsupported names a request asks for, collected object by object.
  method CollectUnsupported(req: ChatRequest, meta: Meta) returns (unsupported: set<string>)
    ensures unsupported == UnsupportedIn(req.View(), meta)
  {
    hide FieldNames, KeyNames, ResponsesNames, Contents, ResponsesContents, ViewOf, ViewOfResponses;
    hide FieldSpecs, ChatTransportSpecs, MessagesTransportSpecs;
    unsupported := ReportFields(req.own, FieldSpecs(), meta);
    var keys := ReportKeys(req.extraBody, meta);
    var responses := ReportResponses(req.responses, meta);
    var chat := ReportFieldsOf(req.chat, ChatTransportSpecs(), meta);
    var messages := ReportFieldsOf(req.messages, MessagesTransportSpecs(), meta);
    unsupported := unsupported + keys + responses + chat + messages;
  }

  // Collected in a set, and returned as a sorted list.
  method RequestedUnsupportedParameters(req: ChatRequest, meta: Meta) returns (names: seq<string>)
    ensures Sorted(names) && Elements(names) == UnsupportedIn(req.View(), meta)
  {
    hide UnsupportedIn, ChatRequest.View;
    var unsupported := CollectUnsupported(req, meta);
    names := SortNames(unsupported);
  }

  lemma NoFields(table: seq<Field>, meta: Meta)
    ensures FieldNames(map[], table, meta) == {} && KeyNames(map[], meta) == {}
  {
  }

  // --- Dropping -----------------------------------------------------------------------------------------

  // Deletes the reported fields of a copy; `dropped` collects the names.
  method DropFields(copy: Record<Field>, table: seq<Field>, meta: Meta, unsupported: set<string>)
    returns (dropped: set<string>)
    requires FieldNames(copy.entries, table, meta) <= unsupported
    modifies copy
    ensures copy.entries == CleanFields(old(copy.entries), table, meta)
    ensures dropped == FieldNames(old(copy.entries), table, meta)
  {
    hide FieldNames, CleanFields, Names;
    ghost var before := copy.entries;
    dropped := {};
    NoRows(before, table, meta);
    for i := 0 to |table|
      invariant dropped == FieldNames(before, table[..i], meta)
      invariant copy.entries == CleanFields(before, table[..i], meta)
    {
      OneMoreRow(before, table, i, meta);
      RowIsReported(before, table, i, meta);
      if table[i] in copy.entries {
        var name := ExplicitlyUnsupported(meta, Names(table[i]));
        if name.Some? && name.value in unsupported {
          copy.entries := copy.entries - {table[i]};
          dropped := dropped + {name.value};
        }
      }
    }
    assert table[..|table|] == table;
  }

  // A field still in the copy was in the original, and a reported one of the original is in the copy
  // unless an earlier row already dropped it under the same name.
  lemma RowIsReported(fields: Fields, table: seq<Field>, i: nat, meta: Meta)
    requires i < |table|
    ensures var row, upto := table[i], table[..i];
            (row in CleanFields(fields, upto, meta) ==> row in fields) &&
            (row in fields && Reported(row, meta).Some? ==>
               Reported(row, meta).value in FieldNames(fields, table, meta) &&
               (row !in CleanFields(fields, upto, meta) ==> Reported(row, meta).value in FieldNames(fields, upto, meta)))
  {
    hide Names, ExplicitlyUnsupported;
  }

  method DropKeys(copy: Record<string>, meta: Meta, unsupported: set<string>) returns (dropped: set<string>)
    requires KeyNames(copy.entries, meta) <= unsupported
    requires forall name | name in unsupported :: StateOf(meta, name) == Unsupported
    modifies copy
    ensures copy.entries == CleanKeys(old(copy.entries), meta)
    ensures dropped == KeyNames(old(copy.entries), meta)
  {
    hide StateOf;
    dropped := {};
    ghost var before := copy.entries;
    var left := copy.entries.Keys;
    while left != {}
      invariant left <= before.Keys && left <= copy.entries.Keys
      invariant copy.entries == map k | k in before && (k in left || StateOf(meta, k) != Unsupported) :: before[k]
      invariant dropped == KeyNames(before - left, meta)
      decreases left
    {
      var name :| name in left;
      left := left - {name};
      if name in unsupported {
        copy.entries := copy.entries - {name};
        dropped := dropped + {name};
      }
    }
    assert before - left == before;
  }

  // Copies an optional record and drops its unsupported keys; an empty copy is not kept.
  method DropKeysOf(r: Record?<string>, meta: Meta, unsupported: set<string>)
    returns (kept: Record?<string>, dropped: set<string>)
    requires KeyNames(Contents(ViewOf(r)), meta) <= unsupported
    requires forall name | name in unsupported :: StateOf(meta, name) == Unsupported
    ensures kept == null || fresh(kept)
    ensures ViewOf(kept) == CleanKeysOf(ViewOf(r), meta) && dropped == KeyNames(Contents(ViewOf(r)), meta)
  {
    hide StateOf;
    kept, dropped := null, {};
    if r != null {
      var copy := new Record<string>(r.entries);
      dropped := DropKeys(copy, meta, unsupported);
      if copy.entries != map[] { kept := copy; }
    }
  }

  method DropFieldsOf(r: Record?<Field>, table: seq<Field>, meta: Meta, unsupported: set<string>)
    returns (kept: Record?<Field>, dropped: set<string>)
    requires FieldNames(Contents(ViewOf(r)), table, meta) <= unsupported
    ensures kept == null || fresh(kept)
    ensures ViewOf(kept) == CleanFieldsOf(ViewOf(r), table, meta)
    ensures dropped == FieldNames(Contents(ViewOf(r)), table, meta)
  {
    kept, dropped := null, {};
    if r == null {
      NoFields(table, meta);
    } else {
      hide FieldNames, CleanFields;
      var copy := new Record<Field>(r.entries);
      dropped := DropFields(copy, table, meta, unsupported);
      if copy.entries != map[] { kept := copy; }
    }
  }

  // The cleaned copy of a transport, before an empty one is discarded.
  method CopyResponses(t: ResponsesTransport, meta: Meta, unsupported: set<string>)
    returns (copy: ResponsesTransport, dropped: set<string>)
    requires ResponsesNames(t.View(), meta) <= unsupported
    requires forall name | name in unsupported :: StateOf(meta, name) == Unsupported
    ensures fresh(copy) && fresh(copy.own) && (copy.text == null || fresh(copy.text)) &&
            (copy.reasoning == null || fresh(copy.reasoning))
    ensures copy.View() == CleanResponses(old(t.View()), meta) && dropped == ResponsesNames(old(t.View()), meta)
  {
    hide StateOf, FieldNames, KeyNames, CleanFields, CleanKeysOf, ResponsesTransportSpecs, Contents, ViewOf;
    ghost var before := t.View();
    var own := new Record<Field>(t.own.entries);
    var fields := DropFields(own, ResponsesTransportSpecs(), meta, unsupported);
    assert t.View() == before;
    var text, texts := DropKeysOf(t.text, meta, unsupported);
    assert t.View() == before;
    var reasoning, reasonings := DropKeysOf(t.reasoning, meta, unsupported);
    copy := new ResponsesTransport(own, text, reasoning);
    dropped := fields + texts + reasonings;
  }

  method DropResponses(t: ResponsesTransport?, meta: Meta, unsupported: set<string>)
    returns (kept: ResponsesTransport?, dropped: set<string>)
    requires ResponsesNames(ResponsesContents(ViewOfResponses(t)), meta) <= unsupported
    requires forall name | name in unsupported :: StateOf(meta, name) == Unsupported
    ensures kept != null ==> fresh(kept) && fresh(kept.own) && (kept.text == null || fresh(kept.text)) &&
                             (kept.reasoning == null || fresh(kept.reasoning))
    ensures ViewOfResponses(kept) == CleanResponsesOf(old(ViewOfResponses(t)), meta)
    ensures dropped == ResponsesNames(ResponsesContents(old(ViewOfResponses(t))), meta)
  {
    hide StateOf, FieldNames, KeyNames, CleanFields, CleanKeys, ResponsesTransportSpecs;
    kept, dropped := null, {};
    if t == null {
      NoFields(ResponsesTransportSpecs(), meta);
    } else {
      hide CleanResponses, ResponsesNames;
      kept, dropped := CopyResponses(t, meta, unsupported);
      if kept.own.entries == map[] && kept.text == null && kept.reasoning == null { kept := null; }
    }
  }
  datatype Strategy = Drop | ErrorStrategy | Allow

  // An unsupported request under the error strategy throws with the reported names, the first of them as the
  // offending parameter.
  method ApplyUnsupportedParameterPolicy(req: ChatRequest, meta: Meta, strategy: Strategy)
    returns (result: Result<ChatRequest, seq<string>>, unsupported: seq<string>, dropped: seq<string>)
    ensures Sorted(unsupported) && Elements(unsupported) == UnsupportedIn(req.View(), meta)
    ensures result.Err? <==> strategy == ErrorStrategy && unsupported != []
    ensures result.Err? ==> result.error == unsupported
    ensures result.Ok? && (strategy == Allow || unsupported == []) ==> result.value == req && dropped == []
    ensures result.Ok? && strategy == Drop ==> result.value.View() == Sent(req.View(), meta) && dropped == unsupported
    ensures result.Ok? && result.value != req ==> fresh(result.value)
    ensures RulesNothingOut(meta) ==> result == Ok(req) && unsupported == []
    ensures result.Ok? && strategy == Drop ==> AllSent(req.View(), result.value.View(), meta)
    ensures AllReported(req.View(), Elements(unsupported), meta)
    ensures forall name | name in unsupported :: RuledOut(meta, name)
  {
    hide UnsupportedIn, Cleaned, ChatRequest.View, Sorted, RulesNothingOut, AllSent, AllReported, RuledOut;
    unsupported := RequestedUnsupportedParameters(req, meta);
    MeaningOfThePolicy(req.View(), meta, unsupported);
    dropped := [];
    NoneOrSome(unsupported);
    if strategy == Allow || |unsupported| == 0 { return Ok(req), unsupported, dropped; }
    if strategy == ErrorStrategy { return Err(unsupported), unsupported, dropped; }
    var next, names := DropAll(req, meta, Elements(unsupported));
    dropped := SortNames(names);
    SortedIsUnique(dropped, unsupported);
    result := Ok(next);
  }

  lemma MeaningOfThePolicy(req: Request, meta: Meta, unsupported: seq<string>)
    requires Elements(unsupported) == UnsupportedIn(req, meta)
    ensures RulesNothingOut(meta) ==> unsupported == [] && Sent(req, meta) == req
    ensures AllReported(req, Elements(unsupported), meta) && AllSent(req, Sent(req, meta), meta)
    ensures forall name | name in unsupported :: RuledOut(meta, name)
  {
    hide UnsupportedIn, AllReported, AllSent, Sent, RulesNothingOut, RuledOut;
    ExactlyTheRuledOutIsDropped(req, meta);
    if RulesNothingOut(meta) { NothingRuledOutNothingReported(req, meta); }
    NoneOrSome(unsupported);
    forall name | name in unsupported
      ensures RuledOut(meta, name)
    {
      assert name in Elements(unsupported);
      ReportedNamesAreRuledOut(req, meta, name);
    }
  }

  lemma NoneOrSome(names: seq<string>)
    ensures names == [] <==> Elements(names) == {}
  {
    if names != [] { assert names[0] in Elements(names); }
  }

  lemma ReportedNamesAreUnsupported(req: Request, meta: Meta)
    ensures forall name | name in UnsupportedIn(req, meta) :: StateOf(meta, name) == Unsupported
  {
    hide StateOf, FieldNames, Contents, ResponsesContents;
    var responses := ResponsesContents(req.responses);
    FieldNamesAreUnsupported(req.fields, FieldSpecs(), meta);
    FieldNamesAreUnsupported(responses.fields, ResponsesTransportSpecs(), meta);
    FieldNamesAreUnsupported(Contents(req.chat), ChatTransportSpecs(), meta);
    FieldNamesAreUnsupported(Contents(req.messages), MessagesTransportSpecs(), meta);
  }

  lemma FieldNamesAreUnsupported(fields: Fields, table: seq<Field>, meta: Meta)
    ensures forall name | name in FieldNames(fields, table, meta) :: StateOf(meta, name) == Unsupported
  {
    hide Names, StateOf;
  }

  method DropAll(req: ChatRequest, meta: Meta, unsupported: set<string>)
    returns (next: ChatRequest, dropped: set<string>)
    requires unsupported == UnsupportedIn(req.View(), meta)
    ensures fresh(next) && next.View() == Cleaned(old(req.View()), meta) && dropped == unsupported
  {
    ReportedNamesAreUnsupported(req.View(), meta);
    hide StateOf, FieldNames, KeyNames, CleanFields, CleanKeysOf, CleanFieldsOf, CleanResponsesOf, ResponsesNames;
    hide Contents, ResponsesContents, ViewOf, ViewOfResponses;
    hide FieldSpecs, ChatTransportSpecs, MessagesTransportSpecs;
    ghost var before := req.View();
    var own := new Record<Field>(req.own.entries);
    assert req.View() == before;
    dropped := DropFields(own, FieldSpecs(), meta, unsupported);
    assert req.View() == before;
    var extraBody, keys := DropKeysOf(req.extraBody, meta, unsupported);
    assert req.View() == before;
    var responses, names := DropResponses(req.responses, meta, unsupported);
    assert req.View() == before;
    var chat, chats := DropFieldsOf(req.chat, ChatTransportSpecs(), meta, unsupported);
    assert req.View() == before;
    var messages, others := DropFieldsOf(req.messages, MessagesTransportSpecs(), meta, unsupported);
    next := new ChatRequest(own, extraBody, responses, chat, messages);
    dropped := dropped + keys + names + chats + others;
  }
}
