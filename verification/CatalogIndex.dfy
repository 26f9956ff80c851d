// Looking a model up in an adapter's catalog: by exact name, or as a dated snapshot of a listed base.
module CatalogIndex {
  import opened Prelude

  // Entries in declaration order; names are keys of an object and so distinct.
  type Entries<E> = seq<(string, E)>

  ghost predicate DistinctNames<E>(entries: Entries<E>) {
    forall i, j | 0 <= i < j < |entries| :: entries[i].0 != entries[j].0
  }

  predicate IsDigit(c: char) {
    '0' <= c <= '9'
  }

  // Four digits, two, two; or two digits and four.
  predicate IsSnapshotSuffix(s: string) {
    (|s| == 10 && IsDigit(s[0]) && IsDigit(s[1]) && IsDigit(s[2]) && IsDigit(s[3]) && s[4] == '-' &&
     IsDigit(s[5]) && IsDigit(s[6]) && s[7] == '-' && IsDigit(s[8]) && IsDigit(s[9])) ||
    (|s| == 7 && IsDigit(s[0]) && IsDigit(s[1]) && s[2] == '-' && IsDigit(s[3]) && IsDigit(s[4]) && IsDigit(s[5]) &&
     IsDigit(s[6]))
  }

  ghost predicate Digits(s: string, n: nat) {
    |s| == n && forall c | c in s :: c in "0123456789"
  }

  lemma DigitsAreListed(c: char)
    ensures IsDigit(c) <==> c in "0123456789"
  {
    if IsDigit(c) { assert "0123456789"[c as int - '0' as int] == c; }
  }

  // A suffix marks a snapshot exactly if it spells a year, month and day, or a month and year, with dashes between.
  lemma SnapshotSuffixesAreDates(s: string)
    ensures IsSnapshotSuffix(s) <==>
              (exists y, m, d :: Digits(y, 4) && Digits(m, 2) && Digits(d, 2) && s == y + "-" + m + "-" + d) ||
              (exists m, y :: Digits(m, 2) && Digits(y, 4) && s == m + "-" + y)
  {
    hide Digits;
    if IsSnapshotSuffix(s) && |s| == 10 {
      TenUnitsAreADate(s);
    } else if IsSnapshotSuffix(s) {
      SevenUnitsAreADate(s);
    }
    if y, m, d :| Digits(y, 4) && Digits(m, 2) && Digits(d, 2) && s == y + "-" + m + "-" + d { LongDate(s, y, m, d); }
    if m, y :| Digits(m, 2) && Digits(y, 4) && s == m + "-" + y { ShortDate(s, m, y); }
  }

  lemma TenUnitsAreADate(s: string)
    requires IsSnapshotSuffix(s) && |s| == 10
    ensures Digits(s[..4], 4) && Digits(s[5..7], 2) && Digits(s[8..], 2)
    ensures s == s[..4] + "-" + s[5..7] + "-" + s[8..]
  {
    forall c { DigitsAreListed(c); }
    hide IsDigit;
  }

  lemma SevenUnitsAreADate(s: string)
    requires IsSnapshotSuffix(s) && |s| != 10
    ensures |s| == 7 && Digits(s[..2], 2) && Digits(s[3..], 4) && s == s[..2] + "-" + s[3..]
  {
    forall c { DigitsAreListed(c); }
    hide IsDigit;
  }

  lemma LongDate(s: string, y: string, m: string, d: string)
    requires Digits(y, 4) && Digits(m, 2) && Digits(d, 2) && s == y + "-" + m + "-" + d
    ensures IsSnapshotSuffix(s)
  {
    forall c { DigitsAreListed(c); }
    assert s[0] == y[0] && s[1] == y[1] && s[2] == y[2] && s[3] == y[3] && s[5] == m[0] && s[6] == m[1];
    assert s[8] == d[0] && s[9] == d[1];
  }

  lemma ShortDate(s: string, m: string, y: string)
    requires Digits(m, 2) && Digits(y, 4) && s == m + "-" + y
    ensures IsSnapshotSuffix(s)
  {
    forall c { DigitsAreListed(c); }
    assert s[0] == m[0] && s[1] == m[1] && s[3] == y[0] && s[4] == y[1] && s[5] == y[2] && s[6] == y[3];
  }

  predicate IsSnapshotOf(model: string, base: string) {
    base + "-" <= model && IsSnapshotSuffix(model[|base| + 1..])
  }

  // A name is a dated snapshot of at most one base: the two suffix shapes never fit one ending.
  lemma OneBaseAtMost(model: string, a: string, b: string)
    requires IsSnapshotOf(model, a) && IsSnapshotOf(model, b)
    ensures a == b
  {
    SuffixLengths(model[|a| + 1..]);
    SuffixLengths(model[|b| + 1..]);
    hide IsSnapshotSuffix;
    if |a| < |b| {
      LongIsNotShort(model, a, b);
    } else if |b| < |a| {
      LongIsNotShort(model, b, a);
    } else {
      assert a == model[..|a|] && b == model[..|b|];
    }
  }

  lemma SuffixLengths(s: string)
    requires IsSnapshotSuffix(s)
    ensures |s| == 10 || |s| == 7
  {
  }

  lemma LongIsNotShort(model: string, a: string, b: string)
    requires IsSnapshotOf(model, a) && |model| == |a| + 11 && |b| == |a| + 3
    ensures !IsSnapshotOf(model, b)
  {
    assert model[|a| + 1..][4] == '-';
    assert model[|b| + 1..][1] == model[|a| + 1..][4];
  }

  // --- The lookup as one scan -------------------------------------------------------------------------------

  function Exact<E>(entries: Entries<E>, model: string): Option<E>
    decreases |entries|
  {
    if entries == [] then None
    else if entries[0].0 == model then Some(entries[0].1)
    else Exact(entries[1..], model)
  }

  function Base<E>(entries: Entries<E>, model: string): Option<E>
    decreases |entries|
  {
    if entries == [] then None
    else if IsSnapshotOf(model, entries[0].0) then Some(entries[0].1)
    else Base(entries[1..], model)
  }

  function Lookup<E>(entries: Entries<E>, model: string): Option<E> {
    var exact := Exact(entries, model);
    if exact.Some? then exact else Base(entries, model)
  }

  lemma {:induction false} ExactMeans<E>(entries: Entries<E>, model: string)
    requires DistinctNames(entries)
    ensures forall e | e in entries && e.0 == model :: Exact(entries, model) == Some(e.1)
    ensures (forall e | e in entries :: e.0 != model) ==> Exact(entries, model).None?
    decreases |entries|
  {
    if entries != [] {
      ExactMeans(entries[1..], model);
      assert forall e | e in entries :: e == entries[0] || e in entries[1..];
    }
  }

  lemma {:induction false} BaseMeans<E>(entries: Entries<E>, model: string)
    requires DistinctNames(entries)
    ensures forall e | e in entries && IsSnapshotOf(model, e.0) :: Base(entries, model) == Some(e.1)
    ensures (forall e | e in entries :: !IsSnapshotOf(model, e.0)) ==> Base(entries, model).None?
    decreases |entries|
  {
    hide IsSnapshotOf;
    if entries != [] {
      BaseMeans(entries[1..], model);
      forall e | e in entries && IsSnapshotOf(model, e.0)
        ensures Base(entries, model) == Some(e.1)
      {
        if IsSnapshotOf(model, entries[0].0) {
          OneBaseAtMost(model, e.0, entries[0].0);
        }
      }
    }
  }

  // An exact name wins; otherwise the one base, if any, that the name is a snapshot of.
  lemma LookupMeans<E>(entries: Entries<E>, model: string)
    requires DistinctNames(entries)
    ensures forall e | e in entries && e.0 == model :: Lookup(entries, model) == Some(e.1)
    ensures (forall e | e in entries :: e.0 != model) ==>
              (forall e | e in entries && IsSnapshotOf(model, e.0) :: Lookup(entries, model) == Some(e.1)) &&
              ((forall e | e in entries :: !IsSnapshotOf(model, e.0)) ==> Lookup(entries, model).None?)
  {
    hide IsSnapshotOf;
    ExactMeans(entries, model);
    BaseMeans(entries, model);
  }

  // The answer does not depend on the order in which entries are scanned.
  lemma AnyOrderFindsTheSame<E>(a: Entries<E>, b: Entries<E>, model: string)
    requires DistinctNames(a) && DistinctNames(b) && forall e :: e in a <==> e in b
    ensures Exact(a, model) == Exact(b, model) && Base(a, model) == Base(b, model)
    ensures Lookup(a, model) == Lookup(b, model)
  {
    hide IsSnapshotOf;
    ExactMeans(a, model);
    ExactMeans(b, model);
    BaseMeans(a, model);
    BaseMeans(b, model);
  }

  // --- The cached index ---------------------------------------------------------------------------------------

  // One adapter's catalog; the index cache is keyed by the object.
  class AdapterCatalog<E> {
    const entries: Entries<E>

    constructor (entries: Entries<E>)
      requires DistinctNames(entries)
      ensures this.entries == entries
    {
      this.entries := entries;
    }
  }

  datatype Index<E> = Index(exact: map<string, E>, snapshotBases: Entries<E>)

  ghost predicate LongestFirst<E>(entries: Entries<E>) {
    forall i, j | 0 <= i < j < |entries| :: |entries[i].0| >= |entries[j].0|
  }

  ghost predicate IsIndexOf<E>(index: Index<E>, entries: Entries<E>) {
    (forall name :: name in index.exact <==> exists e :: e in entries && e.0 == name) &&
    (forall e | e in entries :: e.0 in index.exact && index.exact[e.0] == e.1) &&
    DistinctNames(index.snapshotBases) && LongestFirst(index.snapshotBases) &&
    (forall e | e in index.snapshotBases :: e in entries) && forall e | e in entries :: e in index.snapshotBases
  }

  // A sequence with one element put in at a place, and where its elements come from.
  function InsertedAt<E>(s: Entries<E>, e: (string, E), i: nat): (r: Entries<E>)
    requires i <= |s|
    ensures |r| == |s| + 1
    ensures forall j: nat | j < |r| :: r[j] == if j < i then s[j] else if j == i then e else s[j - 1]
  {
    s[..i] + [e] + s[i..]
  }

  lemma InsertedElements<E>(s: Entries<E>, e: (string, E), i: nat)
    requires i <= |s|
    ensures forall other :: other in InsertedAt(s, e, i) <==> other in s || other == e
  {
    assert s == s[..i] + s[i..];
  }

  lemma InsertedInPlace<E>(s: Entries<E>, e: (string, E), i: nat)
    requires LongestFirst(s) && i <= |s| && (i > 0 ==> |s[i - 1].0| >= |e.0|)
    requires forall j | i <= j < |s| :: |s[j].0| < |e.0|
    ensures LongestFirst(InsertedAt(s, e, i))
  {
  }

  // A name not yet placed is none of the names placed so far.
  lemma InsertedDistinct<E>(s: Entries<E>, entries: Entries<E>, n: nat, i: nat)
    requires DistinctNames(s) && DistinctNames(entries) && n < |entries| && i <= |s|
    requires forall e | e in s :: e in entries[..n]
    ensures DistinctNames(InsertedAt(s, entries[n], i))
  {
    assert forall j | 0 <= j < |s| :: s[j] in s;
  }

  // The platform sort on name length, longest first.
  method SortLongestFirst<E>(entries: Entries<E>) returns (sorted: Entries<E>)
    requires DistinctNames(entries)
    ensures LongestFirst(sorted) && DistinctNames(sorted)
    ensures forall e :: e in sorted <==> e in entries
  {
    sorted := [];
    assert LongestFirst(sorted) && DistinctNames(sorted);
    hide LongestFirst, DistinctNames, InsertedAt;
    for n := 0 to |entries|
      invariant LongestFirst(sorted) && DistinctNames(sorted)
      invariant forall e :: e in sorted <==> e in entries[..n]
    {
      var i := |sorted|;
      while i > 0 && |sorted[i - 1].0| < |entries[n].0|
        invariant 0 <= i <= |sorted|
        invariant forall j | i <= j < |sorted| :: |sorted[j].0| < |entries[n].0|
      {
        i := i - 1;
      }
      InsertedElements(sorted, entries[n], i);
      InsertedInPlace(sorted, entries[n], i);
      InsertedDistinct(sorted, entries, n, i);
      assert entries[..n + 1] == entries[..n] + [entries[n]];
      sorted := InsertedAt(sorted, entries[n], i);
    }
    assert entries[..|entries|] == entries;
  }

  // The map of all entries by name.
  method MapOf<E>(entries: Entries<E>) returns (exact: map<string, E>)
    requires DistinctNames(entries)
    ensures forall name :: name in exact <==> exists e :: e in entries && e.0 == name
    ensures forall e | e in entries :: e.0 in exact && exact[e.0] == e.1
  {
    exact := map[];
    for n := 0 to |entries|
      invariant forall name :: name in exact <==> exists i :: 0 <= i < n && entries[i].0 == name
      invariant forall i | 0 <= i < n :: entries[i].0 in exact && exact[entries[i].0] == entries[i].1
    {
      exact := exact[entries[n].0 := entries[n].1];
    }
  }

  // The adapters' catalogs and the indexes made for them so far.
  class Catalogs<E> {
    const byAdapter: map<string, AdapterCatalog<E>>
    var indexes: map<AdapterCatalog<E>, Index<E>>

    constructor (byAdapter: map<string, AdapterCatalog<E>>)
      requires forall key | key in byAdapter :: DistinctNames(byAdapter[key].entries)
      ensures Valid() && this.byAdapter == byAdapter
    {
      this.byAdapter, indexes := byAdapter, map[];
    }

    // Every cached index is the index of its catalog.
    ghost predicate Valid()
      reads this
    {
      (forall key | key in byAdapter :: DistinctNames(byAdapter[key].entries)) &&
      forall c | c in indexes :: IsIndexOf(indexes[c], c.entries)
    }

    method CatalogIndexFor(c: AdapterCatalog<E>) returns (index: Index<E>)
      requires Valid() && DistinctNames(c.entries)
      modifies this
      ensures Valid() && IsIndexOf(index, c.entries) && indexes == old(indexes)[c := index]
    {
      if c in indexes { return indexes[c]; }
      var exact := MapOf(c.entries);
      var bases := SortLongestFirst(c.entries);
      index := Index(exact, bases);
      indexes := indexes[c := index];
    }

    // What the cached, sorted index answers is what one scan of the catalog in declaration order answers.
    method GetAdapterCatalogEntry(adapterKey: string, model: string) returns (entry: Option<E>)
      requires Valid()
      modifies this
      ensures Valid()
      ensures entry == if adapterKey in byAdapter then Lookup(byAdapter[adapterKey].entries, model) else None
    {
      if adapterKey !in byAdapter { return None; }
      var c := byAdapter[adapterKey];
      var index := CatalogIndexFor(c);
      IndexAnswersLikeTheScan(index, c.entries, model);
      if model in index.exact { return Some(index.exact[model]); }
      hide IsIndexOf, IsSnapshotOf;
      assert index.snapshotBases[0..] == index.snapshotBases;
      for n := 0 to |index.snapshotBases|
        invariant Base(index.snapshotBases, model) == Base(index.snapshotBases[n..], model)
      {
        if IsSnapshotOf(model, index.snapshotBases[n].0) { return Some(index.snapshotBases[n].1); }
      }
      entry := None;
    }
  }

  lemma IndexAnswersLikeTheScan<E>(index: Index<E>, entries: Entries<E>, model: string)
    requires DistinctNames(entries) && IsIndexOf(index, entries)
    ensures Lookup(entries, model) ==
              if model in index.exact then Some(index.exact[model]) else Base(index.snapshotBases, model)
  {
    hide IsSnapshotOf;
    ExactMeans(entries, model);
    AnyOrderFindsTheSame(entries, index.snapshotBases, model);
  }
}
