// Parameters a model declares unsupported: the checker that reports them and the policy that drops
// them from a copy of the request.
module Parameters {
  import opened Prelude

  // The request and transport fields the tables name; Other stands for every other own property.
  datatype Field =
    | Temperature | TopP | TopK | MaxTokens | Stop | NField
    | PresencePenalty | FrequencyPenalty | Seed | User | Tools | ToolChoice
    | ParallelToolCalls | ResponseFormat | Reasoning | PromptCacheKey | Include | Metadata
    | ServiceTier | SafetyIdentifier | TopLogprobs | MaxToolCalls | Truncation | ContextManagement
    | Audio | Logprobs | LogitBias | Modalities | Prediction | Store
    | Verbosity | WebSearchOptions
    | Other(name: string)

  // Own properties of an object, by table field or by name; values are opaque.
  type Fields = map<Field, string>

  type Keys = map<string, string>

  datatype Mode = ModeSupported | ModeUnsupported | ModeIgnored | ModeRange | ModeMapped

  datatype SupportEntry = Flag(supported: bool) | Spec(mode: Option<Mode>)

  // The parameter map of the model's text operation.
  type Meta = map<string, SupportEntry>

  datatype ParameterState = Supported | Unsupported | Unknown

  function StateOf(meta: Meta, name: string): ParameterState {
    if name !in meta then Unknown
    else
      match meta[name]
      case Flag(supported) => if supported then Supported else Unsupported
      case Spec(mode) =>
        if mode == Some(ModeUnsupported) || mode == Some(ModeIgnored) then Unsupported else Supported
  }

  // The first of several public names that the model declares unsupported.
  function ExplicitlyUnsupported(meta: Meta, names: seq<string>): (r: Option<string>)
    ensures r.Some? ==> r.value in names && StateOf(meta, r.value) == Unsupported
    ensures r.None? <==> forall n | n in names :: StateOf(meta, n) != Unsupported
  {
    if names == [] then None
    else if StateOf(meta, names[0]) == Unsupported then Some(names[0])
    else ExplicitlyUnsupported(meta, names[1..])
  }

  // --- The tables: which fields each object is checked for, and the public names of a field ------------

  function FieldSpecs(): seq<Field> {
    [Temperature, TopP, TopK, MaxTokens, Stop, NField, PresencePenalty, FrequencyPenalty, Seed, User,
     Tools, ToolChoice, ParallelToolCalls, ResponseFormat, Reasoning, PromptCacheKey]
  }

  function ResponsesTransportSpecs(): seq<Field> {
    [Include, Metadata, ServiceTier, SafetyIdentifier, PromptCacheKey, TopLogprobs, MaxToolCalls, User,
     Truncation, ContextManagement]
  }

  function ChatTransportSpecs(): seq<Field> {
    [Audio, Logprobs, TopLogprobs, LogitBias, Metadata, Modalities, Prediction, ServiceTier,
     SafetyIdentifier, Store, Verbosity, WebSearchOptions]
  }

  function MessagesTransportSpecs(): seq<Field> {
    [Metadata]
  }

  // A field answers to the same names in every table it occurs in.
  function Names(field: Field): seq<string> {
    match field
    case Temperature => ["temperature"]
    case TopP => ["top_p"]
    case TopK => ["top_k"]
    case MaxTokens => ["max_tokens", "max_completion_tokens"]
    case Stop => ["stop"]
    case NField => ["n"]
    case PresencePenalty => ["presence_penalty"]
    case FrequencyPenalty => ["frequency_penalty"]
    case Seed => ["seed"]
    case User => ["user"]
    case Tools => ["tools"]
    case ToolChoice => ["tool_choice"]
    case ParallelToolCalls => ["parallel_tool_calls"]
    case ResponseFormat => ["response_format", "structured_outputs"]
    case Reasoning => ["reasoning", "reasoning_effort"]
    case PromptCacheKey => ["prompt_cache_key"]
    case Include => ["include"]
    case Metadata => ["metadata"]
    case ServiceTier => ["service_tier"]
    case SafetyIdentifier => ["safety_identifier"]
    case TopLogprobs => ["top_logprobs"]
    case MaxToolCalls => ["max_tool_calls"]
    case Truncation => ["truncation"]
    case ContextManagement => ["context_management"]
    case Audio => ["audio"]
    case Logprobs => ["logprobs"]
    case LogitBias => ["logit_bias"]
    case Modalities => ["modalities"]
    case Prediction => ["prediction"]
    case Store => ["store"]
    case Verbosity => ["verbosity"]
    case WebSearchOptions => ["web_search_options"]
    case Other(_) => []
  }

  // --- Requests as values -------------------------------------------------------------------------------

  // Every part of a request the policy looks at; `fields` of the transport excludes text and reasoning.
  datatype Responses = Responses(fields: Fields, text: Option<Keys>, reasoning: Option<Keys>)

  datatype Request = Request(fields: Fields, extraBody: Option<Keys>, responses: Option<Responses>,
                             chat: Option<Fields>, messages: Option<Fields>)

  // The unsupported name a field is reported under.
  function Reported(field: Field, meta: Meta): Option<string> {
    ExplicitlyUnsupported(meta, Names(field))
  }

  function FieldNames(fields: Fields, table: seq<Field>, meta: Meta): set<string> {
    set f | f in table && f in fields && Reported(f, meta).Some? :: Reported(f, meta).value
  }

  function KeyNames(keys: Keys, meta: Meta): set<string> {
    set k | k in keys && StateOf(meta, k) == Unsupported
  }

  function Contents<K>(o: Option<map<K, string>>): map<K, string> {
    if o.None? then map[] else o.value
  }

  function ResponsesContents(o: Option<Responses>): Responses {
    if o.None? then Responses(map[], None, None) else o.value
  }

  function ResponsesNames(r: Responses, meta: Meta): set<string> {
    FieldNames(r.fields, ResponsesTransportSpecs(), meta) + KeyNames(Contents(r.text), meta) +
    KeyNames(Contents(r.reasoning), meta)
  }

  // The unsupported parameters a request asks for.
  function UnsupportedIn(req: Request, meta: Meta): set<string> {
    FieldNames(req.fields, FieldSpecs(), meta) + KeyNames(Contents(req.extraBody), meta) +
    ResponsesNames(ResponsesContents(req.responses), meta) +
    FieldNames(Contents(req.chat), ChatTransportSpecs(), meta) +
    FieldNames(Contents(req.messages), MessagesTransportSpecs(), meta)
  }

  // --- What dropping leaves -----------------------------------------------------------------------------

  function CleanFields(fields: Fields, table: seq<Field>, meta: Meta): Fields {
    map f | f in fields && !(f in table && Reported(f, meta).Some?) :: fields[f]
  }

  function CleanKeys(keys: Keys, meta: Meta): Keys {
    map k | k in keys && StateOf(meta, k) != Unsupported :: keys[k]
  }

  // An object left without keys is removed from the object holding it.
  function IfAny<K>(m: map<K, string>): Option<map<K, string>> {
    if m == map[] then None else Some(m)
  }

  function CleanKeysOf(o: Option<Keys>, meta: Meta): Option<Keys> {
    if o.None? then None else IfAny(CleanKeys(o.value, meta))
  }

  function CleanFieldsOf(o: Option<Fields>, table: seq<Field>, meta: Meta): Option<Fields> {
    if o.None? then None else IfAny(CleanFields(o.value, table, meta))
  }

  function CleanResponses(r: Responses, meta: Meta): Responses {
    Responses(CleanFields(r.fields, ResponsesTransportSpecs(), meta), CleanKeysOf(r.text, meta),
              CleanKeysOf(r.reasoning, meta))
  }

  function CleanResponsesOf(o: Option<Responses>, meta: Meta): Option<Responses> {
    if o.None? then None
    else if CleanResponses(o.value, meta) == Responses(map[], None, None) then None
    else Some(CleanResponses(o.value, meta))
  }

  function Cleaned(req: Request, meta: Meta): Request {
    Request(CleanFields(req.fields, FieldSpecs(), meta), CleanKeysOf(req.extraBody, meta),
            CleanResponsesOf(req.responses, meta), CleanFieldsOf(req.chat, ChatTransportSpecs(), meta),
            CleanFieldsOf(req.messages, MessagesTransportSpecs(), meta))
  }

  // What the drop strategy sends: a request with nothing to drop is sent as it is.
  function Sent(req: Request, meta: Meta): Request {
    if UnsupportedIn(req, meta) == {} then req else Cleaned(req, meta)
  }

  // --- Dropping keeps the largest part with nothing to report -------------------------------------------

  ghost predicate Within<K>(part: map<K, string>, whole: map<K, string>) {
    forall k | k in part :: k in whole && part[k] == whole[k]
  }

  // `part` asks for nothing that `whole` does not ask for, with the same values.
  ghost predicate PartOf(part: Request, whole: Request) {
    Within(part.fields, whole.fields) && Within(Contents(part.extraBody), Contents(whole.extraBody)) &&
    Within(ResponsesContents(part.responses).fields, ResponsesContents(whole.responses).fields) &&
    Within(Contents(ResponsesContents(part.responses).text), Contents(ResponsesContents(whole.responses).text)) &&
    Within(Contents(ResponsesContents(part.responses).reasoning),
           Contents(ResponsesContents(whole.responses).reasoning)) &&
    Within(Contents(part.chat), Contents(whole.chat)) && Within(Contents(part.messages), Contents(whole.messages))
  }

  lemma ReportedIsListed(fields: Fields, table: seq<Field>, f: Field, meta: Meta)
    requires f in table && f in fields && Reported(f, meta).Some?
    ensures Reported(f, meta).value in FieldNames(fields, table, meta)
  {
    hide Names, ExplicitlyUnsupported;
  }

  lemma FieldsAreGreatest(fields: Fields, part: Fields, table: seq<Field>, meta: Meta)
    requires Within(part, fields) && FieldNames(part, table, meta) == {}
    ensures Within(part, CleanFields(fields, table, meta))
  {
    hide Names, ExplicitlyUnsupported;
    forall f | f in part
      ensures f in CleanFields(fields, table, meta)
    {
      if f in table && Reported(f, meta).Some? { ReportedIsListed(part, table, f, meta); }
    }
  }

  lemma KeysAreGreatest(keys: Keys, part: Keys, meta: Meta)
    requires Within(part, keys) && KeyNames(part, meta) == {}
    ensures Within(part, CleanKeys(keys, meta))
  {
    forall k | k in part
      ensures k in CleanKeys(keys, meta)
    {
      assert StateOf(meta, k) == Unsupported ==> k in KeyNames(part, meta);
    }
  }

  lemma ContentsOfClean(req: Request, meta: Meta)
    ensures Contents(Cleaned(req, meta).extraBody) == CleanKeys(Contents(req.extraBody), meta)
    ensures Contents(Cleaned(req, meta).chat) == CleanFields(Contents(req.chat), ChatTransportSpecs(), meta)
    ensures Contents(Cleaned(req, meta).messages) == CleanFields(Contents(req.messages), MessagesTransportSpecs(), meta)
  {
    hide StateOf, Reported;
  }

  lemma ContentsOfCleanResponses(o: Option<Responses>, meta: Meta)
    ensures var before, after := ResponsesContents(o), ResponsesContents(CleanResponsesOf(o, meta));
            after.fields == CleanFields(before.fields, ResponsesTransportSpecs(), meta) &&
            Contents(after.text) == CleanKeys(Contents(before.text), meta) &&
            Contents(after.reasoning) == CleanKeys(Contents(before.reasoning), meta)
  {
    hide StateOf, Reported;
  }

  lemma CleanFieldsReportNothing(fields: Fields, table: seq<Field>, meta: Meta)
    ensures FieldNames(CleanFields(fields, table, meta), table, meta) == {}
    ensures Within(CleanFields(fields, table, meta), fields)
  {
    hide Names, ExplicitlyUnsupported;
  }

  lemma CleanKeysReportNothing(keys: Keys, meta: Meta)
    ensures KeyNames(CleanKeys(keys, meta), meta) == {} && Within(CleanKeys(keys, meta), keys)
  {
  }

  lemma CleanedReportsNothing(req: Request, meta: Meta)
    ensures UnsupportedIn(Cleaned(req, meta), meta) == {} && PartOf(Cleaned(req, meta), req)
  {
    hide StateOf, Reported, Cleaned, FieldNames, KeyNames, CleanFields, CleanKeys, Within;
    ContentsOfClean(req, meta);
    ContentsOfCleanResponses(req.responses, meta);
    CleanedShape(req, meta);
    var before := ResponsesContents(req.responses);
    CleanFieldsReportNothing(req.fields, FieldSpecs(), meta);
    CleanKeysReportNothing(Contents(req.extraBody), meta);
    CleanFieldsReportNothing(before.fields, ResponsesTransportSpecs(), meta);
    CleanKeysReportNothing(Contents(before.text), meta);
    CleanKeysReportNothing(Contents(before.reasoning), meta);
    CleanFieldsReportNothing(Contents(req.chat), ChatTransportSpecs(), meta);
    CleanFieldsReportNothing(Contents(req.messages), MessagesTransportSpecs(), meta);
  }

  // After dropping, the checker has nothing to report, and nothing that could have stayed is gone: what is
  // sent contains every part of the request that has nothing to report.
  lemma DroppingKeepsTheGreatestCleanPart(req: Request, meta: Meta)
    ensures UnsupportedIn(Cleaned(req, meta), meta) == {} && PartOf(Cleaned(req, meta), req)
    ensures forall part: Request | PartOf(part, req) && UnsupportedIn(part, meta) == {} ::
              PartOf(part, Cleaned(req, meta))
  {
    hide UnsupportedIn, Cleaned, PartOf;
    CleanedReportsNothing(req, meta);
    forall part: Request | PartOf(part, req) && UnsupportedIn(part, meta) == {}
      ensures PartOf(part, Cleaned(req, meta))
    {
      GreatestOf(req, part, meta);
    }
  }

  lemma CleanedShape(req: Request, meta: Meta)
    ensures Cleaned(req, meta).fields == CleanFields(req.fields, FieldSpecs(), meta)
    ensures Cleaned(req, meta).responses == CleanResponsesOf(req.responses, meta)
  {
  }

  lemma GreatestOf(req: Request, part: Request, meta: Meta)
    requires PartOf(part, req) && UnsupportedIn(part, meta) == {}
    ensures PartOf(part, Cleaned(req, meta))
  {
    hide StateOf, Reported, Cleaned, FieldNames, KeyNames, CleanFields, CleanKeys, Within;
    ContentsOfClean(req, meta);
    ContentsOfCleanResponses(req.responses, meta);
    CleanedShape(req, meta);
    FieldsAreGreatest(req.fields, part.fields, FieldSpecs(), meta);
    KeysAreGreatest(Contents(req.extraBody), Contents(part.extraBody), meta);
    var before, kept := ResponsesContents(req.responses), ResponsesContents(part.responses);
    FieldsAreGreatest(before.fields, kept.fields, ResponsesTransportSpecs(), meta);
    KeysAreGreatest(Contents(before.text), Contents(kept.text), meta);
    KeysAreGreatest(Contents(before.reasoning), Contents(kept.reasoning), meta);
    FieldsAreGreatest(Contents(req.chat), Contents(part.chat), ChatTransportSpecs(), meta);
    FieldsAreGreatest(Contents(req.messages), Contents(part.messages), MessagesTransportSpecs(), meta);
  }

  // Sending twice sends what sending once does, and the second pass has nothing to drop.
  lemma SentOnceIsEnough(req: Request, meta: Meta)
    ensures UnsupportedIn(Sent(req, meta), meta) == {} && Sent(Sent(req, meta), meta) == Sent(req, meta)
  {
    hide UnsupportedIn, Cleaned;
    DroppingKeepsTheGreatestCleanPart(req, meta);
  }
}
