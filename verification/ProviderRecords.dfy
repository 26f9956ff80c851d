// The deep merge of provider-namespaced records: what it keeps, and when its grouping matters.
module ProviderRecords {
  import opened Prelude

  // Strings, numbers, lists and null are leaves for the merge.
  datatype Value = Leaf(text: string) | Record(fields: map<string, Value>)

  type Fields = map<string, Value>

  // Later values win per key; two records under one key are merged.
  function Merged(base: Fields, over: Value): Fields
    requires over.Record?
    decreases over
  {
    map k | k in base.Keys + over.fields.Keys ::
      if k !in over.fields then base[k]
      else if k in base && base[k].Record? && over.fields[k].Record?
        then Record(Merged(base[k].fields, over.fields[k]))
      else over.fields[k]
  }

  // What stands at a path of keys.
  function At(fields: Fields, p: seq<string>): Option<Value>
    requires p != []
    decreases |p|
  {
    if p[0] !in fields then None
    else if |p| == 1 then Some(fields[p[0]])
    else if fields[p[0]].Record? then At(fields[p[0]].fields, p[1..])
    else None
  }

  // A leaf on the way hides everything below it.
  predicate LeafAbove(fields: Fields, p: seq<string>)
    decreases |p|
  {
    p != [] && p[0] in fields && (fields[p[0]].Leaf? || LeafAbove(fields[p[0]].fields, p[1..]))
  }

  // Every leaf of the override is in the result; a leaf of the base is kept exactly where the override has
  // nothing and no leaf above; and the result has no other leaves.
  lemma {:induction false} LaterLeavesWin(base: Fields, over: Value, p: seq<string>, v: string)
    requires over.Record? && p != []
    ensures At(Merged(base, over), p) == Some(Leaf(v)) <==>
              At(over.fields, p) == Some(Leaf(v)) ||
              (At(base, p) == Some(Leaf(v)) && At(over.fields, p).None? && !LeafAbove(over.fields, p))
    decreases |p|
  {
    var k := p[0];
    if |p| > 1 && k in base && k in over.fields && base[k].Record? && over.fields[k].Record? {
      LaterLeavesWin(base[k].fields, over.fields[k], p[1..], v);
    }
  }

  // Merging a record into itself changes nothing.
  lemma {:induction false} MergeIsIdempotent(r: Value)
    requires r.Record?
    ensures Merged(r.fields, r) == r.fields
    decreases r
  {
    forall k | k in r.fields
      ensures Merged(r.fields, r)[k] == r.fields[k]
    {
      if r.fields[k].Record? { MergeIsIdempotent(r.fields[k]); }
    }
  }

  // Every key of the base occurs in the override, also inside records both have under one key.
  ghost predicate Covers(over: Value, base: Fields)
    requires over.Record?
    decreases over
  {
    forall k | k in base ::
      k in over.fields && (base[k].Record? && over.fields[k].Record? ==> Covers(over.fields[k], base[k].fields))
  }

  // An override swallows the base exactly when it covers it.
  lemma {:induction false} SwallowsIffCovers(base: Fields, over: Value)
    requires over.Record?
    ensures Merged(base, over) == over.fields <==> Covers(over, base)
    decreases over
  {
    var m := Merged(base, over);
    forall k | k in base && k in over.fields
      ensures m[k] == over.fields[k] <==>
                (base[k].Record? && over.fields[k].Record? ==> Covers(over.fields[k], base[k].fields))
    {
      if base[k].Record? && over.fields[k].Record? { SwallowsIffCovers(base[k].fields, over.fields[k]); }
    }
    assert forall k | k in base :: k in m;
    assert m == over.fields ==> forall k | k in base :: k in over.fields && m[k] == over.fields[k];
    assert Covers(over, base) ==> m.Keys == over.fields.Keys;
  }

  // Under a key, a record is replaced by a leaf and that by a record which lacks some of the first one's
  // keys; or this happens further down.
  ghost predicate ForgetsAt(a: Fields, b: Fields, c: Value, k: string)
    requires c.Record?
    decreases c, 0
  {
    k in a && k in b && k in c.fields && a[k].Record? && c.fields[k].Record? &&
    if b[k].Leaf? then !Covers(c.fields[k], a[k].fields)
    else Forgets(a[k].fields, b[k].fields, c.fields[k])
  }

  ghost predicate Forgets(a: Fields, b: Fields, c: Value)
    requires c.Record?
    decreases c, 1
  {
    exists k :: k in c.fields && ForgetsAt(a, b, c, k)
  }

  // Merging from the left and merging the last two first agree exactly when nothing is forgotten that way.
  lemma {:induction false} GroupingMattersIffForgotten(a: Fields, b: Fields, c: Value)
    requires c.Record?
    ensures Merged(Merged(a, Record(b)), c) == Merged(a, Record(Merged(b, c))) <==> !Forgets(a, b, c)
    decreases c
  {
    var left, right := Merged(Merged(a, Record(b)), c), Merged(a, Record(Merged(b, c)));
    forall k | k in left.Keys + right.Keys
      ensures k in left && k in right && (left[k] == right[k] <==> !ForgetsAt(a, b, c, k))
    {
      if k in a && k in b && k in c.fields && a[k].Record? && b[k].Record? && c.fields[k].Record? {
        GroupingMattersIffForgotten(a[k].fields, b[k].fields, c.fields[k]);
      } else if k in a && k in c.fields && a[k].Record? && c.fields[k].Record? {
        SwallowsIffCovers(a[k].fields, c.fields[k]);
      }
    }
  }

  // Merging the records of a stream one after the other, as the gateway does, is not the same as merging
  // later ones first.
  lemma GroupingMatters(k: string, x: string, v: Value)
    ensures var a, b, c := map[k := Record(map[x := v])], map[k := Leaf("null")], Record(map[k := Record(map[])]);
            Merged(Merged(a, Record(b)), c) != Merged(a, Record(Merged(b, c)))
  {
    var a, b, c := map[k := Record(map[x := v])], map[k := Leaf("null")], Record(map[k := Record(map[])]);
    assert x in Merged(a[k].fields, c.fields[k]);
    assert ForgetsAt(a, b, c, k);
    GroupingMattersIffForgotten(a, b, c);
  }

  // The merge as it runs: the clone of the base is overwritten key by key.
  method MergeRecords(base: Fields, over: Value) returns (merged: Fields)
    requires over.Record?
    ensures merged == Merged(base, over)
    decreases over
  {
    merged := base;
    var left := over.fields.Keys;
    while left != {}
      invariant left <= over.fields.Keys && merged.Keys == base.Keys + (over.fields.Keys - left)
      invariant forall k | k in merged :: merged[k] == if k in over.fields && k !in left then Merged(base, over)[k] else base[k]
      decreases left
    {
      var k :| k in left;
      left := left - {k};
      if k in merged && merged[k].Record? && over.fields[k].Record? {
        var inner := MergeRecords(merged[k].fields, over.fields[k]);
        merged := merged[k := Record(inner)];
      } else {
        merged := merged[k := over.fields[k]];
      }
    }
  }
}
