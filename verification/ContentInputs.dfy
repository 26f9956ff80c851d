// Materializing the content inputs of a request: each source is fetched or decoded once, each part is
// counted once, and the bytes of all counted parts stand against one limit.
module ContentInputs {
  import opened Prelude

  const MAX_PORTABLE_CONTENT_INPUT_BYTES: nat := 50_000_000

  datatype PartKind = File | Image

  datatype SourceKind = Url | DataUrl | ProviderFileId

  // A part is an object with its own identity; two parts may have the same contents.
  datatype Part = Part(id: nat, kind: PartKind, source: SourceKind, value: string, filename: Option<string>)

  // --- Source keys --------------------------------------------------------------------------------------

  function KindName(k: PartKind): string {
    if k.File? then "file" else "image"
  }

  function SourceName(k: SourceKind): string {
    match k
    case Url => "url"
    case DataUrl => "data_url"
    case ProviderFileId => "provider_file_id"
  }

  // Only files have a name.
  function NameOf(p: Part): string {
    if p.kind.File? && p.filename.Some? then p.filename.value else ""
  }

  function SourceKey(p: Part): string {
    if p.source.Url? then SourceName(Url) + ":" + p.value
    else KindName(p.kind) + ":" + (SourceName(p.source) + ":" + (p.value + ":" + NameOf(p)))
  }

  // What the key is meant to stand for.
  ghost predicate SameSource(p: Part, q: Part) {
    if p.source.Url? || q.source.Url? then p.source == q.source && p.value == q.value
    else p.kind == q.kind && p.source == q.source && p.value == q.value && NameOf(p) == NameOf(q)
  }

  // The length of a string before its first colon.
  function Before(s: string): nat {
    if s == "" || s[0] == ':' then 0 else 1 + Before(s[1..])
  }

  lemma {:induction false} BeforeIsTheHead(a: string, b: string)
    requires ':' !in a
    ensures Before(a + ":" + b) == |a|
  {
    if a != "" {
      BeforeIsTheHead(a[1..], b);
      assert (a + ":" + b)[1..] == a[1..] + ":" + b;
    }
  }

  lemma SameCut(a: string, b: string, c: string, d: string)
    requires a + ":" + b == c + ":" + d && |a| == |c|
    ensures a == c && b == d
  {
    var s := a + ":" + b;
    assert s[..|a|] == a && s[..|c|] == c && s[|a| + 1..] == b && s[|c| + 1..] == d;
  }

  lemma HeadBeforeColon(a: string, b: string, c: string, d: string)
    requires a + ":" + b == c + ":" + d && ':' !in a && ':' !in c
    ensures a == c && b == d
  {
    BeforeIsTheHead(a, b);
    BeforeIsTheHead(c, d);
    SameCut(a, b, c, d);
  }

  function Head(p: Part): string {
    if p.source.Url? then SourceName(Url) else KindName(p.kind)
  }

  function Rest(p: Part): string {
    if p.source.Url? then p.value else SourceName(p.source) + ":" + (p.value + ":" + NameOf(p))
  }

  lemma Heads(p: Part)
    ensures SourceKey(p) == Head(p) + ":" + Rest(p) && ':' !in Head(p) && ':' !in SourceName(p.source)
  {
  }

  // --- What can be a source -----------------------------------------------------------------------------

  // A data URL has only base64 behind its first comma, and so no colon.
  ghost predicate DataShape(v: string) {
    exists i :: 0 <= i < |v| && v[i] == ',' && (forall j | 0 <= j < i :: v[j] != ',') &&
                forall j | i < j < |v| :: v[j] != ':'
  }

  // Whether a data URL decodes. Nothing else is used of decoding than that it rejects all other texts.
  type Decoder = string -> bool

  ghost predicate IsDecoder(d: Decoder) {
    forall v :: d(v) ==> DataShape(v)
  }

  // A part that materializes from its own source: empty values are refused before anything else, and
  // provider file ids never materialize.
  ghost predicate Yields(d: Decoder, p: Part) {
    p.value != "" && (p.source.Url? || (p.source.DataUrl? && d(p.value)))
  }

  lemma HasComma(v: string) returns (i: nat)
    requires DataShape(v)
    ensures i < |v| && v[i] == ','
  {
    i :| i < |v| && v[i] == ',';
  }

  lemma NoColonBehindAComma(v: string, i: nat, j: nat)
    requires DataShape(v) && i < j < |v| && v[i] == ','
    ensures v[j] != ':'
  {
  }

  // Of two decodable values neither continues the other by a colon.
  lemma ShapedCut(v: string, m: string, w: string, n: string)
    requires DataShape(v) && DataShape(w) && v + ":" + m == w + ":" + n
    ensures |w| <= |v|
  {
    hide DataShape;
    var s, t := v + ":" + m, w + ":" + n;
    var i := HasComma(v);
    assert s[i] == v[i] && s[|v|] == ':';
    if |v| < |w| {
      assert t[i] == w[i] && t[|v|] == w[|v|];
      NoColonBehindAComma(w, i, |v|);
    }
  }

  // Sources that materialize share a key exactly if they are the same source, whatever files are called.
  lemma KeysSeparateSources(d: Decoder, p: Part, q: Part)
    requires IsDecoder(d) && Yields(d, p) && Yields(d, q)
    ensures SourceKey(p) == SourceKey(q) <==> SameSource(p, q)
  {
    if SourceKey(p) == SourceKey(q) {
      SameHeads(p, q);
      if p.source.DataUrl? {
        ShapedCut(p.value, NameOf(p), q.value, NameOf(q));
        ShapedCut(q.value, NameOf(q), p.value, NameOf(p));
        SameCut(p.value, NameOf(p), q.value, NameOf(q));
      }
    }
  }

  // Equal keys agree on the kind of source, and behind it on value and name together.
  lemma SameHeads(p: Part, q: Part)
    requires SourceKey(p) == SourceKey(q)
    ensures p.source == q.source
    ensures if p.source.Url? then p.value == q.value
            else p.kind == q.kind && p.value + ":" + NameOf(p) == q.value + ":" + NameOf(q)
  {
    Heads(p);
    Heads(q);
    HeadBeforeColon(Head(p), Rest(p), Head(q), Rest(q));
    if !p.source.Url? {
      HeadBeforeColon(SourceName(p.source), p.value + ":" + NameOf(p), SourceName(q.source), q.value + ":" + NameOf(q));
    }
  }

  ghost predicate SharesWithADecoded(d: Decoder, q: Part) {
    exists p: Part :: p.source.DataUrl? && Yields(d, p) && SourceKey(p) == SourceKey(q)
  }

  // A decodable text followed by a colon.
  ghost predicate StartsDecodable(d: Decoder, text: string, i: nat) {
    i < |text| && text[i] == ':' && d(text[..i])
  }

  lemma SharingStartsDecodable(d: Decoder, p: Part, q: Part)
    requires p.source.DataUrl? && d(p.value) && !d(q.value) && SourceKey(p) == SourceKey(q)
    ensures q.kind.File? && StartsDecodable(d, q.value + ":" + NameOf(q), |p.value|)
  {
    SameHeads(p, q);
    hide SourceKey;
    var text := q.value + ":" + NameOf(q);
    assert p.value + ":" + NameOf(p) == text;
    assert text[|p.value|] == ':' && text[..|p.value|] == p.value;
    if q.kind.Image? { SameCut(p.value, "", q.value, ""); }
  }

  lemma StartingDecodableShares(d: Decoder, q: Part, i: nat) returns (p: Part)
    requires IsDecoder(d) && q.source.DataUrl? && q.kind.File? && StartsDecodable(d, q.value + ":" + NameOf(q), i)
    ensures p.source.DataUrl? && Yields(d, p) && SourceKey(p) == SourceKey(q)
  {
    var text := q.value + ":" + NameOf(q);
    p := Part(q.id, File, DataUrl, text[..i], Some(text[i + 1..]));
    assert text == text[..i] + ":" + text[i + 1..];
    assert DataShape(p.value);
  }

  // A data URL that does not decode has the key of one that does exactly if it is a file whose value and name,
  // joined by a colon, begin with a decodable value and a colon.
  lemma MalformedSharesAKeyIff(d: Decoder, q: Part)
    requires IsDecoder(d) && q.source.DataUrl? && !d(q.value)
    ensures SharesWithADecoded(d, q) <==>
              q.kind.File? && exists i: nat :: StartsDecodable(d, q.value + ":" + NameOf(q), i)
  {
    hide SourceKey, IsDecoder, StartsDecodable;
    if SharesWithADecoded(d, q) {
      var p: Part :| p.source.DataUrl? && Yields(d, p) && SourceKey(p) == SourceKey(q);
      SharingStartsDecodable(d, p, q);
    }
    if q.kind.File? && exists i: nat :: StartsDecodable(d, q.value + ":" + NameOf(q), i) {
      var i: nat :| StartsDecodable(d, q.value + ":" + NameOf(q), i);
      var p := StartingDecodableShares(d, q, i);
    }
  }

  // --- The resolver's tables ----------------------------------------------------------------------------

  // Promises are numbered in the order of their creation; `launched` holds the key each was made for.
  // `accounted` lists parts in the order they were counted, `refused` counts the calls that met the limit.
  datatype Resolver = Resolver(materialized: map<Part, nat>, bySource: map<string, nat>, launched: seq<string>,
                               accounted: seq<Part>, total: nat, refused: nat)

  const EMPTY := Resolver(map[], map[], [], [], 0, 0)

  // The part of a call before it waits: finds the promise of a part, or makes one. A data URL that does
  // not decode throws before anything is remembered.
  function Begin(r: Resolver, p: Part, decodes: bool): (Resolver, Option<nat>) {
    var key := SourceKey(p);
    if p in r.materialized then (r, Some(r.materialized[p]))
    else if key in r.bySource then
      (r.(materialized := r.materialized[p := r.bySource[key]]), Some(r.bySource[key]))
    else if p.source.DataUrl? && !decodes then (r, None)
    else
      var promise := |r.launched|;
      (r.(materialized := r.materialized[p := promise], bySource := r.bySource[key := promise],
          launched := r.launched + [key]), Some(promise))
  }

  // The part after the wait, with the size the promise gave or None when it was rejected.
  function Finish(r: Resolver, p: Part, size: Option<nat>): (Resolver, bool) {
    if size.None? then (r, false)
    else if p in r.accounted then (r, true)
    else
      var total := r.total + size.value;
      var over := total > MAX_PORTABLE_CONTENT_INPUT_BYTES;
      (r.(accounted := r.accounted + [p], total := total, refused := r.refused + if over then 1 else 0), !over)
  }

  class ContentInputResolver {
    var materialized: map<Part, nat>
    var bySource: map<string, nat>
    var accounted: set<Part>
    var totalBytes: nat
    var promises: nat
    ghost var launched: seq<string>
    ghost var order: seq<Part>
    ghost var refused: nat

    ghost function Model(): Resolver
      reads this
    {
      Resolver(materialized, bySource, launched, order, totalBytes, refused)
    }

    ghost predicate Valid()
      reads this
    {
      promises == |launched| && accounted == Elements(order)
    }

    constructor ()
      ensures Valid() && Model() == EMPTY
    {
      materialized, bySource, accounted, totalBytes, promises := map[], map[], {}, 0, 0;
      launched, order, refused := [], [], 0;
    }

    method BeginMaterialize(p: Part, decodes: bool) returns (promise: Option<nat>)
      requires Valid()
      modifies this
      ensures Valid() && (Model(), promise) == Begin(old(Model()), p, decodes)
    {
      if p in materialized { return Some(materialized[p]); }
      var key := SourceKey(p);
      if key !in bySource {
        if p.source.DataUrl? && !decodes { return None; }
        bySource := bySource[key := promises];
        promises, launched := promises + 1, launched + [key];
      }
      materialized := materialized[p := bySource[key]];
      promise := Some(bySource[key]);
    }

    method FinishMaterialize(p: Part, size: Option<nat>) returns (ok: bool)
      requires Valid()
      modifies this
      ensures Valid() && (Model(), ok) == Finish(old(Model()), p, size)
    {
      if size.None? { return false; }
      ok := true;
      if p !in accounted {
        accounted, order := accounted + {p}, order + [p];
        totalBytes := totalBytes + size.value;
        if totalBytes > MAX_PORTABLE_CONTENT_INPUT_BYTES {
          refused := refused + 1;
          ok := false;
        }
      }
    }
  }

  // --- Over all runs ------------------------------------------------------------------------------------

  // Calls interleave freely: a call begins, and later answers with what its promise settled to.
  datatype Step = Call(part: Part, decodes: bool) | Answer(part: Part)

  predicate Enabled(r: Resolver, step: Step) {
    step.Answer? ==> step.part in r.materialized
  }

  // A promise settles once, so its size is a function of its number.
  type Sizes = nat -> Option<nat>

  function Apply(r: Resolver, step: Step, size: Sizes): Resolver
    requires Enabled(r, step)
  {
    match step
    case Call(p, decodes) => Begin(r, p, decodes).0
    case Answer(p) => Finish(r, p, size(r.materialized[p])).0
  }

  function Bytes(r: Resolver, p: Part, size: Sizes): nat {
    if p in r.materialized && size(r.materialized[p]).Some? then size(r.materialized[p]).value else 0
  }

  function SumBytes(r: Resolver, parts: seq<Part>, size: Sizes): nat
    decreases |parts|
  {
    if parts == [] then 0 else SumBytes(r, parts[..|parts| - 1], size) + Bytes(r, parts[|parts| - 1], size)
  }

  // One promise per source, and every part has the promise of its source.
  ghost predicate Shared(r: Resolver) {
    Distinct(r.launched) &&
    (forall k | k in r.bySource :: r.bySource[k] < |r.launched| && r.launched[r.bySource[k]] == k) &&
    (forall i | 0 <= i < |r.launched| :: r.launched[i] in r.bySource) &&
    forall p | p in r.materialized :: SourceKey(p) in r.bySource && r.materialized[p] == r.bySource[SourceKey(p)]
  }

  // Every part is counted at most once, and the total is the sum over the counted ones.
  ghost predicate Accounted(r: Resolver, size: Sizes) {
    Distinct(r.accounted) && (forall p | p in r.accounted :: p in r.materialized && size(r.materialized[p]).Some?) &&
    r.total == SumBytes(r, r.accounted, size)
  }

  ghost predicate Inv(r: Resolver, size: Sizes) {
    Shared(r) && Accounted(r, size) && (r.refused == 0 <==> r.total <= MAX_PORTABLE_CONTENT_INPUT_BYTES)
  }

  lemma {:induction false} SumOfSame(r: Resolver, s: Resolver, parts: seq<Part>, size: Sizes)
    requires forall p | p in parts :: p in r.materialized && p in s.materialized && r.materialized[p] == s.materialized[p]
    ensures SumBytes(r, parts, size) == SumBytes(s, parts, size)
    decreases |parts|
  {
    if parts != [] { SumOfSame(r, s, parts[..|parts| - 1], size); }
  }

  lemma CallShares(r: Resolver, p: Part, decodes: bool)
    requires Shared(r)
    ensures Shared(Begin(r, p, decodes).0)
  {
    hide SourceKey;
  }

  lemma CallRemembers(r: Resolver, p: Part, decodes: bool)
    ensures var s := Begin(r, p, decodes).0;
            s.accounted == r.accounted && s.total == r.total && s.refused == r.refused &&
            forall x | x in r.materialized :: x in s.materialized && s.materialized[x] == r.materialized[x]
  {
    hide SourceKey;
  }

  lemma CallKeeps(r: Resolver, p: Part, decodes: bool, size: Sizes)
    requires Inv(r, size)
    ensures Inv(Apply(r, Call(p, decodes), size), size)
  {
    var s := Begin(r, p, decodes).0;
    CallShares(r, p, decodes);
    CallRemembers(r, p, decodes);
    hide SourceKey, Begin, Shared, Distinct;
    SumOfSame(r, s, r.accounted, size);
  }

  lemma AnswerKeeps(r: Resolver, p: Part, size: Sizes)
    requires Inv(r, size) && p in r.materialized
    ensures Inv(Apply(r, Answer(p), size), size)
  {
    hide SourceKey;
    var s := Finish(r, p, size(r.materialized[p])).0;
    SumOfSame(r, s, r.accounted, size);
    if s != r {
      assert s.accounted[..|s.accounted| - 1] == r.accounted;
    }
  }

  // A call is made for a part with a value, and a data URL decodes or not by its value alone.
  ghost predicate Proper(step: Step, d: Decoder) {
    step.Call? ==> step.part.value != "" && step.decodes == d(step.part.value)
  }

  ghost predicate Run(states: seq<Resolver>, steps: seq<Step>, size: Sizes, d: Decoder) {
    |states| == |steps| + 1 && states[0] == EMPTY && IsDecoder(d) &&
    forall i | 0 <= i < |steps| ::
      Proper(steps[i], d) && Enabled(states[i], steps[i]) && states[i + 1] == Apply(states[i], steps[i], size)
  }

  lemma {:induction false} RunsKeepTheInvariant(states: seq<Resolver>, steps: seq<Step>, size: Sizes, d: Decoder, n: nat)
    requires Run(states, steps, size, d) && n < |states|
    ensures Inv(states[n], size)
  {
    hide Inv;
    if n == 0 {
      StartsInOrder(size);
    } else {
      RunsKeepTheInvariant(states, steps, size, d, n - 1);
      match steps[n - 1]
      case Call(p, decodes) => CallKeeps(states[n - 1], p, decodes, size);
      case Answer(p) => AnswerKeeps(states[n - 1], p, size);
    }
  }

  lemma StartsInOrder(size: Sizes)
    ensures Inv(EMPTY, size)
  {
  }

  // In every run, parts that materialize from their own sources share a promise exactly if they have the same
  // source, and the total is the sum over distinct parts, so resolving again for another candidate counts
  // nothing twice.
  lemma EachSourceOnceEachPartOnce(states: seq<Resolver>, steps: seq<Step>, size: Sizes, d: Decoder, n: nat)
    requires Run(states, steps, size, d) && n < |states|
    ensures var r := states[n];
            (forall p, q | p in r.materialized && q in r.materialized ::
               (r.materialized[p] == r.materialized[q] <==> SourceKey(p) == SourceKey(q)) &&
               (Yields(d, p) && Yields(d, q) ==> (r.materialized[p] == r.materialized[q] <==> SameSource(p, q)))) &&
            Distinct(r.launched) && Distinct(r.accounted) && r.total == SumBytes(r, r.accounted, size)
  {
    hide SourceKey, SameSource, Yields, IsDecoder;
    RunsKeepTheInvariant(states, steps, size, d, n);
    var r := states[n];
    forall p, q | p in r.materialized && q in r.materialized && Yields(d, p) && Yields(d, q)
      ensures SourceKey(p) == SourceKey(q) <==> SameSource(p, q)
    {
      KeysSeparateSources(d, p, q);
    }
  }

  // The total is within the limit exactly as long as no call was refused for it.
  lemma WithinTheLimitUntilRefused(states: seq<Resolver>, steps: seq<Step>, size: Sizes, d: Decoder, n: nat)
    requires Run(states, steps, size, d) && n < |states|
    ensures states[n].refused == 0 <==> SumBytes(states[n], states[n].accounted, size) <= MAX_PORTABLE_CONTENT_INPUT_BYTES
  {
    RunsKeepTheInvariant(states, steps, size, d, n);
  }

  // The parts that answered with a size so far, by their first answers.
  function Answered(states: seq<Resolver>, steps: seq<Step>, size: Sizes, n: nat): seq<Part>
    requires n <= |steps| && |states| == |steps| + 1
  {
    if n == 0 then []
    else
      var before, step := Answered(states, steps, size, n - 1), steps[n - 1];
      if step.Answer? && step.part !in before && step.part in states[n - 1].materialized &&
         size(states[n - 1].materialized[step.part]).Some?
      then before + [step.part] else before
  }

  lemma {:induction false} CountedAreTheAnswered(states: seq<Resolver>, steps: seq<Step>, size: Sizes, d: Decoder, n: nat)
    requires Run(states, steps, size, d) && n < |states|
    ensures states[n].accounted == Answered(states, steps, size, n)
  {
    hide SourceKey, IsDecoder;
    if n > 0 {
      CountedAreTheAnswered(states, steps, size, d, n - 1);
      assert states[n] == Apply(states[n - 1], steps[n - 1], size);
    }
  }

  // Over a run, an answer with a size is refused exactly if its part has not answered before and the sizes of
  // the parts that have, with its own, exceed the limit.
  lemma RefusedExactlyWhenNewAndOver(states: seq<Resolver>, steps: seq<Step>, size: Sizes, d: Decoder, n: nat, p: Part)
    requires Run(states, steps, size, d) && n < |steps| && steps[n] == Answer(p)
    requires p in states[n].materialized && size(states[n].materialized[p]).Some?
    ensures var earlier := Answered(states, steps, size, n);
            var over := p !in earlier &&
              SumBytes(states[n], earlier, size) + Bytes(states[n], p, size) > MAX_PORTABLE_CONTENT_INPUT_BYTES;
            && (states[n + 1].refused > states[n].refused <==> over)
            && (Finish(states[n], p, size(states[n].materialized[p])).1 <==> !over)
  {
    CountedAreTheAnswered(states, steps, size, d, n);
    RunsKeepTheInvariant(states, steps, size, d, n);
    assert states[n + 1] == Apply(states[n], steps[n], size);
  }

  // A part whose promise was rejected is answered with the failure every time, and is never counted.
  lemma RejectedIsNeverCounted(states: seq<Resolver>, steps: seq<Step>, size: Sizes, d: Decoder, n: nat, p: Part)
    requires Run(states, steps, size, d) && n < |states| && p in states[n].materialized
    requires size(states[n].materialized[p]).None?
    ensures !Finish(states[n], p, size(states[n].materialized[p])).1
    ensures p !in states[n].accounted && Finish(states[n], p, size(states[n].materialized[p])).0 == states[n]
  {
    hide SourceKey, IsDecoder;
    RunsKeepTheInvariant(states, steps, size, d, n);
  }

  ghost predicate PassesOverTheLimit(r: Resolver, p: Part, size: Sizes) {
    r.refused > 0 && r.total > MAX_PORTABLE_CONTENT_INPUT_BYTES && p in r.materialized &&
    Finish(r, p, size(r.materialized[p])).1
  }

  lemma {:induction false} RunStep(states: seq<Resolver>, steps: seq<Step>, size: Sizes, d: Decoder, step: Step)
    returns (more: seq<Resolver>)
    requires Run(states, steps, size, d) && Proper(step, d) && Enabled(states[|steps|], step)
    ensures Run(more, steps + [step], size, d) && |more| == |steps| + 2
    ensures more[|steps| + 1] == Apply(states[|steps|], step, size)
  {
    hide Apply, IsDecoder;
    more := states + [Apply(states[|steps|], step, size)];
  }

  lemma Launches(r: Resolver, p: Part, d: Decoder)
    requires p.source.Url? && p !in r.materialized && SourceKey(p) !in r.bySource
    ensures Begin(r, p, d(p.value)).0 ==
              r.(materialized := r.materialized[p := |r.launched|], bySource := r.bySource[SourceKey(p) := |r.launched|],
                 launched := r.launched + [SourceKey(p)])
  {
  }

  // Three files of the largest size that is fetched are asked for.
  lemma ThreeLaunched(p: Part, q: Part, r: Part, size: Sizes, d: Decoder) returns (states: seq<Resolver>)
    requires p.source.Url? && q.source.Url? && r.source.Url? && p.value != "" && q.value != "" && r.value != ""
    requires p.value != q.value && q.value != r.value && p.value != r.value && IsDecoder(d)
    ensures |states| == 4 && Run(states, [Call(p, d(p.value)), Call(q, d(q.value)), Call(r, d(r.value))], size, d)
    ensures states[3].materialized == map[p := 0, q := 1, r := 2] && states[3].accounted == [] && states[3].total == 0
    ensures states[3].refused == 0
  {
    assert SourceKey(p) != SourceKey(q) && SourceKey(q) != SourceKey(r) && SourceKey(p) != SourceKey(r) by {
      if SourceKey(p) == SourceKey(q) { SameHeads(p, q); }
      if SourceKey(q) == SourceKey(r) { SameHeads(q, r); }
      if SourceKey(p) == SourceKey(r) { SameHeads(p, r); }
    }
    hide SourceKey, IsDecoder, Begin, Run;
    assert Run([EMPTY], [], size, d) by { StartsEmpty(size, d); }
    states := RunStep([EMPTY], [], size, d, Call(p, d(p.value)));
    Launches(EMPTY, p, d);
    assert [] + [Call(p, d(p.value))] == [Call(p, d(p.value))];
    Launches(states[1], q, d);
    states := RunStep(states, [Call(p, d(p.value))], size, d, Call(q, d(q.value)));
    Launches(states[2], r, d);
    states := RunStep(states, [Call(p, d(p.value)), Call(q, d(q.value))], size, d, Call(r, d(r.value)));
  }

  lemma StartsEmpty(size: Sizes, d: Decoder)
    requires IsDecoder(d)
    ensures Run([EMPTY], [], size, d)
  {
    hide IsDecoder;
  }

  // The part that went over the limit passes when the request is resolved again: the check is made only as a
  // part is counted.
  lemma RetryAfterRefusalPasses(p: Part, q: Part, r: Part, size: Sizes, d: Decoder)
    requires p.source.Url? && q.source.Url? && r.source.Url? && p.value != "" && q.value != "" && r.value != ""
    requires p.value != q.value && q.value != r.value && p.value != r.value && IsDecoder(d)
    requires forall i :: size(i) == Some(20_000_000)
    ensures exists states: seq<Resolver>, steps: seq<Step> ::
              Run(states, steps, size, d) && PassesOverTheLimit(states[|steps|], r, size)
  {
    hide Run, IsDecoder, SourceKey, PassesOverTheLimit;
    var states := ThreeLaunched(p, q, r, size, d);
    var steps := [Call(p, d(p.value)), Call(q, d(q.value)), Call(r, d(r.value))];
    states := Counts(states, steps, size, d, p);
    states := Counts(states, steps + [Answer(p)], size, d, q);
    states := Counts(states, steps + [Answer(p)] + [Answer(q)], size, d, r);
    CountedPasses(states[6], r, size);
    assert |steps + [Answer(p)] + [Answer(q)] + [Answer(r)]| == 6;
  }

  lemma CountedPasses(r: Resolver, p: Part, size: Sizes)
    requires r.refused > 0 && r.total > MAX_PORTABLE_CONTENT_INPUT_BYTES && p in r.accounted
    requires p in r.materialized && size(r.materialized[p]).Some?
    ensures PassesOverTheLimit(r, p, size)
  {
  }

  // One more part of that size is counted.
  lemma Counts(states: seq<Resolver>, steps: seq<Step>, size: Sizes, d: Decoder, p: Part) returns (more: seq<Resolver>)
    requires Run(states, steps, size, d) && p in states[|steps|].materialized && p !in states[|steps|].accounted
    requires size(states[|steps|].materialized[p]) == Some(20_000_000)
    ensures Run(more, steps + [Answer(p)], size, d) && |more| == |steps| + 2
    ensures var s, r := states[|steps|], more[|steps| + 1];
            var over := s.total + 20_000_000 > MAX_PORTABLE_CONTENT_INPUT_BYTES;
            r == s.(accounted := s.accounted + [p], total := s.total + 20_000_000,
                    refused := s.refused + if over then 1 else 0)
  {
    hide Run;
    more := RunStep(states, steps, size, d, Answer(p));
  }

  // Every promise was made for a part that is no data URL or that decodes.
  ghost predicate MadeForDecodable(d: Decoder, r: Resolver) {
    forall k | k in r.bySource :: exists p: Part :: SourceKey(p) == k && (p.source.DataUrl? ==> Yields(d, p))
  }

  lemma {:induction false} PromisesAreForDecodable(states: seq<Resolver>, steps: seq<Step>, size: Sizes, d: Decoder, n: nat)
    requires Run(states, steps, size, d) && n < |states|
    ensures MadeForDecodable(d, states[n])
  {
    hide SourceKey, IsDecoder;
    if n > 0 {
      PromisesAreForDecodable(states, steps, size, d, n - 1);
      var r, s := states[n - 1], states[n];
      assert Proper(steps[n - 1], d) && s == Apply(r, steps[n - 1], size);
      if steps[n - 1].Call? {
        var p := steps[n - 1].part;
        assert s.bySource != r.bySource ==> s.bySource.Keys == r.bySource.Keys + {SourceKey(p)} &&
                                            (p.source.DataUrl? ==> Yields(d, p));
      }
    }
  }

  // Two calls: the decoded part first, then the malformed one with its key.
  lemma ServedAfter(d: Decoder, size: Sizes, p: Part, q: Part) returns (states: seq<Resolver>)
    requires IsDecoder(d) && p.source.DataUrl? && Yields(d, p) && SourceKey(p) == SourceKey(q)
    requires q.value != "" && !d(q.value)
    ensures Run(states, [Call(p, true), Call(q, false)], size, d) && |states| == 3
    ensures q in states[2].materialized && p in states[2].materialized
    ensures states[2].materialized[q] == states[2].materialized[p]
  {
    hide SourceKey, IsDecoder;
    var one := Begin(EMPTY, p, true).0;
    states := [EMPTY, one, Begin(one, q, false).0];
  }

  ghost predicate SomeRunServes(d: Decoder, size: Sizes, q: Part) {
    exists states: seq<Resolver>, steps: seq<Step> :: Run(states, steps, size, d) && q in states[|steps|].materialized
  }

  // Some run serves a data URL that does not decode exactly if it is a nonempty file whose value and name, joined
  // by a colon, begin with a decodable value and a colon.
  lemma MalformedIsServedIff(d: Decoder, size: Sizes, q: Part)
    requires IsDecoder(d) && q.source.DataUrl? && !d(q.value)
    ensures SomeRunServes(d, size, q) <==>
            q.value != "" && q.kind.File? && exists i: nat :: StartsDecodable(d, q.value + ":" + NameOf(q), i)
  {
    hide SourceKey, IsDecoder, StartsDecodable;
    if q.value != "" && q.kind.File? && exists i: nat :: StartsDecodable(d, q.value + ":" + NameOf(q), i) {
      var i: nat :| StartsDecodable(d, q.value + ":" + NameOf(q), i);
      var p := StartingDecodableShares(d, q, i);
      var states := ServedAfter(d, size, p, q);
      assert |[Call(p, true), Call(q, false)]| == 2;
    }
    if SomeRunServes(d, size, q) {
      var states: seq<Resolver>, steps: seq<Step> :|
        Run(states, steps, size, d) && q in states[|steps|].materialized;
      ServedShares(d, states, steps, size, q);
      MalformedSharesAKeyIff(d, q);
    }
  }

  lemma ServedShares(d: Decoder, states: seq<Resolver>, steps: seq<Step>, size: Sizes, q: Part)
    requires Run(states, steps, size, d) && q in states[|steps|].materialized && q.source.DataUrl?
    ensures q.value != "" && SharesWithADecoded(d, q)
  {
    hide SourceKey, IsDecoder;
    RunsKeepTheInvariant(states, steps, size, d, |steps|);
    PromisesAreForDecodable(states, steps, size, d, |steps|);
    var p: Part :| SourceKey(p) == SourceKey(q) && (p.source.DataUrl? ==> Yields(d, p));
    SameHeads(p, q);
    CalledWithAValue(states, steps, size, d, |steps|, q);
  }

  lemma {:induction false} CalledWithAValue(states: seq<Resolver>, steps: seq<Step>, size: Sizes, d: Decoder, n: nat, q: Part)
    requires Run(states, steps, size, d) && n < |states| && q in states[n].materialized
    ensures q.value != ""
  {
    hide SourceKey, IsDecoder;
    if n > 0 {
      assert Proper(steps[n - 1], d) && states[n] == Apply(states[n - 1], steps[n - 1], size);
      if q in states[n - 1].materialized { CalledWithAValue(states, steps, size, d, n - 1, q); }
    }
  }

  // A file with a decodable value v and name x:y, then one with the malformed value v:x and name y: alone it is
  // refused, after the other it is served with the other's content.
  lemma MalformedValueIsServed(d: Decoder, size: Sizes, v: string, x: string, y: string)
    requires IsDecoder(d) && d(v)
    ensures var p, q := Part(0, File, DataUrl, v, Some(x + ":" + y)), Part(1, File, DataUrl, v + ":" + x, Some(y));
            && !d(q.value) && Begin(EMPTY, q, false) == (EMPTY, None)
            && exists states: seq<Resolver> ::
                 Run(states, [Call(p, true), Call(q, false)], size, d) &&
                 q in states[2].materialized && p in states[2].materialized &&
                 states[2].materialized[q] == states[2].materialized[p]
  {
    var p, q := Part(0, File, DataUrl, v, Some(x + ":" + y)), Part(1, File, DataUrl, v + ":" + x, Some(y));
    if d(q.value) {
      assert v + ":" + (x + ":") == q.value + ":" + "";
      ShapedCut(v, x + ":", q.value, "");
    }
    assert p.value + ":" + NameOf(p) == q.value + ":" + NameOf(q);
    assert SourceKey(p) == SourceKey(q);
    assert DataShape(v);
    hide SourceKey, IsDecoder;
    var states := ServedAfter(d, size, p, q);
  }
}
