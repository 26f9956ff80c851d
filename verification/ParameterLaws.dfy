// What the parameter map of a model means for a request, read off its entries.
module ParameterLaws {
  import opened Prelude
  import opened Parameters

  // An entry that rules its parameter out.
  predicate RulesOut(entry: SupportEntry) {
    entry == Flag(false) || entry == Spec(Some(ModeUnsupported)) || entry == Spec(Some(ModeIgnored))
  }

  predicate RuledOut(meta: Meta, name: string) {
    name in meta && RulesOut(meta[name])
  }

  lemma UnsupportedIffRuledOut(meta: Meta, name: string)
    ensures StateOf(meta, name) == Unsupported <==> RuledOut(meta, name)
  {
  }

  lemma ReportedIffOneRuledOut(field: Field, meta: Meta)
    ensures Reported(field, meta).Some? <==> exists n :: n in Names(field) && RuledOut(meta, n)
    ensures Reported(field, meta).Some? ==>
              Reported(field, meta).value in Names(field) && RuledOut(meta, Reported(field, meta).value)
  {
    hide Names, RuledOut;
    forall n
      ensures StateOf(meta, n) == Unsupported <==> RuledOut(meta, n)
    {
      UnsupportedIffRuledOut(meta, n);
    }
  }

  // --- What is reported -------------------------------------------------------------------------------------

  lemma FieldNamesAreRuledOut(fields: Fields, table: seq<Field>, meta: Meta, name: string)
    ensures name in FieldNames(fields, table, meta) ==>
              RuledOut(meta, name) && exists f :: f in table && f in fields && name in Names(f)
  {
    if name in FieldNames(fields, table, meta) {
      var f :| f in table && f in fields && Reported(f, meta).Some? && Reported(f, meta).value == name;
      ReportedIffOneRuledOut(f, meta);
    }
  }

  // Every reported name has an entry that rules it out.
  lemma ReportedNamesAreRuledOut(req: Request, meta: Meta, name: string)
    requires name in UnsupportedIn(req, meta)
    ensures RuledOut(meta, name)
  {
    hide FieldNames, RuledOut, StateOf, FieldSpecs, ResponsesTransportSpecs, ChatTransportSpecs, MessagesTransportSpecs;
    var responses := ResponsesContents(req.responses);
    FieldNamesAreRuledOut(req.fields, FieldSpecs(), meta, name);
    FieldNamesAreRuledOut(responses.fields, ResponsesTransportSpecs(), meta, name);
    FieldNamesAreRuledOut(Contents(req.chat), ChatTransportSpecs(), meta, name);
    FieldNamesAreRuledOut(Contents(req.messages), MessagesTransportSpecs(), meta, name);
    UnsupportedIffRuledOut(meta, name);
  }

  // Every entry is true, or a specification of another mode than unsupported or ignored.
  ghost predicate RulesNothingOut(meta: Meta) {
    forall name | name in meta ::
      meta[name] == Flag(true) ||
      (meta[name].Spec? && meta[name].mode != Some(ModeUnsupported) && meta[name].mode != Some(ModeIgnored))
  }

  // A model whose entries rule nothing out leaves every request as it is.
  lemma NothingRuledOutNothingReported(req: Request, meta: Meta)
    requires RulesNothingOut(meta)
    ensures UnsupportedIn(req, meta) == {} && Sent(req, meta) == req
  {
    hide UnsupportedIn;
    forall name
      ensures name !in UnsupportedIn(req, meta)
    {
      if name in UnsupportedIn(req, meta) { ReportedNamesAreRuledOut(req, meta, name); }
    }
  }

  // --- What is sent -----------------------------------------------------------------------------------------

  ghost predicate OneRuledOut(meta: Meta, f: Field) {
    exists n :: n in Names(f) && RuledOut(meta, n)
  }

  lemma KeysKept(keys: Keys, meta: Meta, key: string)
    ensures key in CleanKeys(keys, meta) <==> key in keys && !RuledOut(meta, key)
    ensures key in keys && RuledOut(meta, key) ==> key in KeyNames(keys, meta)
    ensures key in CleanKeys(keys, meta) ==> CleanKeys(keys, meta)[key] == keys[key]
  {
    UnsupportedIffRuledOut(meta, key);
  }

  lemma FieldsKept(fields: Fields, table: seq<Field>, meta: Meta, f: Field)
    ensures f in CleanFields(fields, table, meta) <==> f in fields && !(f in table && OneRuledOut(meta, f))
    ensures f in fields && f in table && OneRuledOut(meta, f) ==>
              exists n :: n in Names(f) && n in FieldNames(fields, table, meta)
    ensures f in CleanFields(fields, table, meta) ==> CleanFields(fields, table, meta)[f] == fields[f]
  {
    hide Names;
    ReportedIffOneRuledOut(f, meta);
    if f in fields && f in table && OneRuledOut(meta, f) {
      ReportedIsListed(fields, table, f, meta);
      assert Reported(f, meta).value in Names(f);
    }
  }

  ghost predicate KeysSent(before: Keys, after: Keys, meta: Meta) {
    forall key | key in before ::
      if RuledOut(meta, key) then key !in after else key in after && after[key] == before[key]
  }

  ghost predicate FieldsSent(before: Fields, after: Fields, table: seq<Field>, meta: Meta) {
    forall f | f in before ::
      if f in table && OneRuledOut(meta, f) then f !in after else f in after && after[f] == before[f]
  }

  lemma CleanedKeysAreSent(keys: Keys, meta: Meta)
    ensures KeysSent(keys, CleanKeys(keys, meta), meta)
  {
    hide RuledOut, CleanKeys;
    forall key { KeysKept(keys, meta, key); }
  }

  lemma CleanedFieldsAreSent(fields: Fields, table: seq<Field>, meta: Meta)
    ensures FieldsSent(fields, CleanFields(fields, table, meta), table, meta)
  {
    hide OneRuledOut, CleanFields;
    forall f { FieldsKept(fields, table, meta, f); }
  }

  ghost predicate AllSent(before: Request, after: Request, meta: Meta) {
    && FieldsSent(before.fields, after.fields, FieldSpecs(), meta)
    && KeysSent(Contents(before.extraBody), Contents(after.extraBody), meta)
    && FieldsSent(ResponsesContents(before.responses).fields, ResponsesContents(after.responses).fields,
                  ResponsesTransportSpecs(), meta)
    && KeysSent(Contents(ResponsesContents(before.responses).text), Contents(ResponsesContents(after.responses).text), meta)
    && KeysSent(Contents(ResponsesContents(before.responses).reasoning),
                Contents(ResponsesContents(after.responses).reasoning), meta)
    && FieldsSent(Contents(before.chat), Contents(after.chat), ChatTransportSpecs(), meta)
    && FieldsSent(Contents(before.messages), Contents(after.messages), MessagesTransportSpecs(), meta)
  }

  lemma CleanedIsSent(req: Request, meta: Meta)
    ensures AllSent(req, Cleaned(req, meta), meta)
  {
    hide FieldsSent, KeysSent, Cleaned, CleanFields, CleanKeys, FieldSpecs, ResponsesTransportSpecs, ChatTransportSpecs;
    hide MessagesTransportSpecs;
    ContentsOfClean(req, meta);
    ContentsOfCleanResponses(req.responses, meta);
    CleanedShape(req, meta);
    var before := ResponsesContents(req.responses);
    CleanedFieldsAreSent(req.fields, FieldSpecs(), meta);
    CleanedKeysAreSent(Contents(req.extraBody), meta);
    CleanedFieldsAreSent(before.fields, ResponsesTransportSpecs(), meta);
    CleanedKeysAreSent(Contents(before.text), meta);
    CleanedKeysAreSent(Contents(before.reasoning), meta);
    CleanedFieldsAreSent(Contents(req.chat), ChatTransportSpecs(), meta);
    CleanedFieldsAreSent(Contents(req.messages), MessagesTransportSpecs(), meta);
  }

  ghost predicate KeyReported(keys: Keys, names: set<string>, meta: Meta) {
    forall key | key in keys && RuledOut(meta, key) :: key in names
  }

  ghost predicate FieldReported(fields: Fields, table: seq<Field>, names: set<string>, meta: Meta) {
    forall f | f in fields && f in table && OneRuledOut(meta, f) :: exists n :: n in Names(f) && n in names
  }

  ghost predicate AllReported(req: Request, names: set<string>, meta: Meta) {
    && FieldReported(req.fields, FieldSpecs(), names, meta)
    && KeyReported(Contents(req.extraBody), names, meta)
    && FieldReported(ResponsesContents(req.responses).fields, ResponsesTransportSpecs(), names, meta)
    && KeyReported(Contents(ResponsesContents(req.responses).text), names, meta)
    && KeyReported(Contents(ResponsesContents(req.responses).reasoning), names, meta)
    && FieldReported(Contents(req.chat), ChatTransportSpecs(), names, meta)
    && FieldReported(Contents(req.messages), MessagesTransportSpecs(), names, meta)
  }

  lemma KeysReported(keys: Keys, meta: Meta, names: set<string>)
    requires KeyNames(keys, meta) <= names
    ensures KeyReported(keys, names, meta)
  {
    hide RuledOut, KeyNames;
    forall key { KeysKept(keys, meta, key); }
  }

  lemma FieldsReported(fields: Fields, table: seq<Field>, meta: Meta, names: set<string>)
    requires FieldNames(fields, table, meta) <= names
    ensures FieldReported(fields, table, names, meta)
  {
    hide OneRuledOut, FieldNames, Names;
    forall f | f in fields && f in table && OneRuledOut(meta, f)
      ensures exists n :: n in Names(f) && n in names
    {
      FieldsKept(fields, table, meta, f);
    }
  }

  lemma EverythingIsReported(req: Request, meta: Meta)
    ensures AllReported(req, UnsupportedIn(req, meta), meta)
  {
    hide FieldNames, KeyNames, FieldReported, KeyReported, FieldSpecs, ResponsesTransportSpecs, ChatTransportSpecs;
    hide MessagesTransportSpecs;
    var names, responses := UnsupportedIn(req, meta), ResponsesContents(req.responses);
    FieldsReported(req.fields, FieldSpecs(), meta, names);
    KeysReported(Contents(req.extraBody), meta, names);
    FieldsReported(responses.fields, ResponsesTransportSpecs(), meta, names);
    KeysReported(Contents(responses.text), meta, names);
    KeysReported(Contents(responses.reasoning), meta, names);
    FieldsReported(Contents(req.chat), ChatTransportSpecs(), meta, names);
    FieldsReported(Contents(req.messages), MessagesTransportSpecs(), meta, names);
  }

  // Wherever a request asks for it, a key whose entry rules it out, and a table field one of whose names is ruled
  // out, is reported and not sent; everything else is sent as it is.
  lemma ExactlyTheRuledOutIsDropped(req: Request, meta: Meta)
    ensures AllReported(req, UnsupportedIn(req, meta), meta)
    ensures AllSent(req, Sent(req, meta), meta)
  {
    hide AllReported, UnsupportedIn, Cleaned;
    EverythingIsReported(req, meta);
    if UnsupportedIn(req, meta) == {} {
      NothingReportedNothingRuledOut(req, meta);
    } else {
      CleanedIsSent(req, meta);
    }
  }

  lemma NothingReportedNothingRuledOut(req: Request, meta: Meta)
    requires AllReported(req, {}, meta)
    ensures AllSent(req, req, meta)
  {
    hide FieldSpecs, ResponsesTransportSpecs, ChatTransportSpecs, MessagesTransportSpecs, RuledOut, OneRuledOut;
  }

  // An optional object of keys before and after: without a key left it is not sent at all.
  ghost predicate ObjectSent(before: Option<Keys>, after: Option<Keys>, meta: Meta) {
    match (before, after)
    case (None, a) => a.None?
    case (Some(b), None) => forall key | key in b :: RuledOut(meta, key)
    case (Some(b), Some(a)) => a != map[] && a.Keys <= b.Keys && KeysSent(b, a, meta)
  }

  ghost predicate TableSent(before: Option<Fields>, after: Option<Fields>, table: seq<Field>, meta: Meta) {
    match (before, after)
    case (None, a) => a.None?
    case (Some(b), None) => forall f | f in b :: f in table && OneRuledOut(meta, f)
    case (Some(b), Some(a)) => a != map[] && a.Keys <= b.Keys && FieldsSent(b, a, table, meta)
  }

  lemma CleanedObject(before: Option<Keys>, meta: Meta)
    ensures ObjectSent(before, CleanKeysOf(before, meta), meta)
  {
    hide RuledOut, KeysSent;
    if before.Some? {
      CleanedKeysAreSent(before.value, meta);
      forall key { KeysKept(before.value, meta, key); }
    }
  }

  lemma CleanedTable(before: Option<Fields>, table: seq<Field>, meta: Meta)
    ensures TableSent(before, CleanFieldsOf(before, table, meta), table, meta)
  {
    hide OneRuledOut, FieldsSent;
    if before.Some? {
      CleanedFieldsAreSent(before.value, table, meta);
      forall f { FieldsKept(before.value, table, meta, f); }
    }
  }

  // The transport with its own fields and two objects; with nothing left in any of them it is not sent either.
  ghost predicate ResponsesSent(before: Option<Responses>, after: Option<Responses>, meta: Meta) {
    match (before, after)
    case (None, a) => a.None?
    case (Some(b), None) =>
      (forall f | f in b.fields :: f in ResponsesTransportSpecs() && OneRuledOut(meta, f)) &&
      ObjectSent(b.text, None, meta) && ObjectSent(b.reasoning, None, meta)
    case (Some(b), Some(a)) =>
      (a.fields != map[] || a.text.Some? || a.reasoning.Some?) &&
      FieldsSent(b.fields, a.fields, ResponsesTransportSpecs(), meta) && a.fields.Keys <= b.fields.Keys &&
      ObjectSent(b.text, a.text, meta) && ObjectSent(b.reasoning, a.reasoning, meta)
  }

  lemma CleanedTransport(before: Option<Responses>, meta: Meta)
    ensures ResponsesSent(before, CleanResponsesOf(before, meta), meta)
  {
    hide OneRuledOut, ObjectSent, FieldsSent, CleanKeysOf, ResponsesTransportSpecs;
    if before.Some? {
      CleanedFieldsAreSent(before.value.fields, ResponsesTransportSpecs(), meta);
      CleanedObject(before.value.text, meta);
      CleanedObject(before.value.reasoning, meta);
      forall f { FieldsKept(before.value.fields, ResponsesTransportSpecs(), meta, f); }
    }
  }

  // Where something is dropped, no object is sent empty, none is added, and one is left out only if all it held
  // was ruled out.
  lemma DroppingLeavesNoEmptyObject(req: Request, meta: Meta)
    requires UnsupportedIn(req, meta) != {}
    ensures var sent := Sent(req, meta);
            && ObjectSent(req.extraBody, sent.extraBody, meta) && ResponsesSent(req.responses, sent.responses, meta)
            && TableSent(req.chat, sent.chat, ChatTransportSpecs(), meta)
            && TableSent(req.messages, sent.messages, MessagesTransportSpecs(), meta)
            && sent.fields.Keys <= req.fields.Keys
  {
    hide ObjectSent, ResponsesSent, TableSent, UnsupportedIn, CleanKeysOf, CleanResponsesOf, CleanFieldsOf;
    hide ChatTransportSpecs, MessagesTransportSpecs, FieldSpecs;
    CleanedObject(req.extraBody, meta);
    CleanedTransport(req.responses, meta);
    CleanedTable(req.chat, ChatTransportSpecs(), meta);
    CleanedTable(req.messages, MessagesTransportSpecs(), meta);
  }

  // --- The tables -------------------------------------------------------------------------------------------

  // The words in the name of the property a table field stands for.
  function Words(f: Field): seq<string> {
    match f
    case Temperature => ["temperature"]
    case TopP => ["top", "p"]
    case TopK => ["top", "k"]
    case MaxTokens => ["max", "tokens"]
    case Stop => ["stop"]
    case NField => ["n"]
    case PresencePenalty => ["presence", "penalty"]
    case FrequencyPenalty => ["frequency", "penalty"]
    case Seed => ["seed"]
    case User => ["user"]
    case Tools => ["tools"]
    case ToolChoice => ["tool", "choice"]
    case ParallelToolCalls => ["parallel", "tool", "calls"]
    case ResponseFormat => ["response", "format"]
    case Reasoning => ["reasoning"]
    case PromptCacheKey => ["prompt", "cache", "key"]
    case Include => ["include"]
    case Metadata => ["metadata"]
    case ServiceTier => ["service", "tier"]
    case SafetyIdentifier => ["safety", "identifier"]
    case TopLogprobs => ["top", "logprobs"]
    case MaxToolCalls => ["max", "tool", "calls"]
    case Truncation => ["truncation"]
    case ContextManagement => ["context", "management"]
    case Audio => ["audio"]
    case Logprobs => ["logprobs"]
    case LogitBias => ["logit", "bias"]
    case Modalities => ["modalities"]
    case Prediction => ["prediction"]
    case Store => ["store"]
    case Verbosity => ["verbosity"]
    case WebSearchOptions => ["web", "search", "options"]
    case Other(_) => []
  }

  // Words as the public interface joins them.
  function Joined(words: seq<string>): string {
    if words == [] then "" else if |words| == 1 then words[0] else words[0] + "_" + Joined(words[1..])
  }

  lemma JoinedTwo(a: string, b: string)
    ensures Joined([a, b]) == a + "_" + b
  {
    assert [a, b][1..] == [b];
  }

  lemma JoinedThree(a: string, b: string, c: string)
    ensures Joined([a, b, c]) == a + "_" + b + "_" + c
  {
    assert [a, b, c][1..] == [b, c];
    JoinedTwo(b, c);
    assert a + "_" + (b + "_" + c) == a + "_" + b + "_" + c;
  }

  lemma SpelledInRequests()
    ensures Joined(["max", "tokens"]) == "max_tokens"
    ensures Joined(["top", "p"]) == "top_p"
    ensures Joined(["top", "k"]) == "top_k"
    ensures Joined(["presence", "penalty"]) == "presence_penalty"
  {
    hide Joined;
    JoinedTwo("max", "tokens");
    JoinedTwo("top", "p");
    JoinedTwo("top", "k");
    JoinedTwo("presence", "penalty");
  }

  lemma SpelledInRequestsToo()
    ensures Joined(["frequency", "penalty"]) == "frequency_penalty"
    ensures Joined(["tool", "choice"]) == "tool_choice"
    ensures Joined(["response", "format"]) == "response_format"
    ensures Joined(["service", "tier"]) == "service_tier"
  {
    hide Joined;
    JoinedTwo("frequency", "penalty");
    JoinedTwo("tool", "choice");
    JoinedTwo("response", "format");
    JoinedTwo("service", "tier");
  }

  lemma SpelledInTransports()
    ensures Joined(["safety", "identifier"]) == "safety_identifier"
    ensures Joined(["top", "logprobs"]) == "top_logprobs"
    ensures Joined(["context", "management"]) == "context_management"
    ensures Joined(["logit", "bias"]) == "logit_bias"
  {
    hide Joined;
    JoinedTwo("safety", "identifier");
    JoinedTwo("top", "logprobs");
    JoinedTwo("context", "management");
    JoinedTwo("logit", "bias");
  }

  lemma SpelledInThreeWords()
    ensures Joined(["parallel", "tool", "calls"]) == "parallel_tool_calls"
    ensures Joined(["prompt", "cache", "key"]) == "prompt_cache_key"
    ensures Joined(["max", "tool", "calls"]) == "max_tool_calls"
    ensures Joined(["web", "search", "options"]) == "web_search_options"
  {
    hide Joined;
    JoinedThree("parallel", "tool", "calls");
    JoinedThree("prompt", "cache", "key");
    JoinedThree("max", "tool", "calls");
    JoinedThree("web", "search", "options");
  }

  // Every table field answers first to the public spelling of its own property.
  lemma FieldsAnswerToTheirOwnName(f: Field)
    requires !f.Other?
    ensures Names(f) != [] && Names(f)[0] == Joined(Words(f))
  {
    SpelledInRequests();
    SpelledInRequestsToo();
    SpelledInTransports();
    SpelledInThreeWords();
    if |Words(f)| > 1 { hide Joined; }
  }

  // Every field of the tables' language is checked somewhere, and nothing else is.
  lemma TablesCoverEveryField(f: Field)
    ensures !f.Other? <==>
              f in FieldSpecs() || f in ResponsesTransportSpecs() || f in ChatTransportSpecs() || f in MessagesTransportSpecs()
  {
  }

  // The two larger transports share four fields, one of which is all the third one has; the request's own fields
  // recur in one of them, twice.
  lemma TablesShareFields(f: Field)
    ensures f in ResponsesTransportSpecs() && f in ChatTransportSpecs() <==>
              f in {Metadata, ServiceTier, SafetyIdentifier, TopLogprobs}
    ensures f in MessagesTransportSpecs() <==> f == Metadata
  {
    hide FieldSpecs;
  }

  lemma RequestFieldsRecurTwice()
    ensures User in FieldSpecs() && User in ResponsesTransportSpecs()
    ensures PromptCacheKey in FieldSpecs() && PromptCacheKey in ResponsesTransportSpecs()
  {
    hide ChatTransportSpecs;
    assert FieldSpecs()[9] == ResponsesTransportSpecs()[7] == User;
    assert FieldSpecs()[15] == ResponsesTransportSpecs()[4] == PromptCacheKey;
  }
}
