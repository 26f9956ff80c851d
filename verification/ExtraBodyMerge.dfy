// The merge as it runs: a clone of the body is a tree of mutable objects, and the merge writes into
// those objects while the caller's body keeps its own.
module ExtraBodyMerge {
  import opened Prelude
  import opened ExtraBody

  datatype Cell = Held(value: Value) | Nested(node: Node)

  class Node {
    var cells: map<string, Cell>
    ghost var Repr: set<Node>

    // A tree: sub-objects have disjoint footprints, none of which contains this object.
    ghost predicate Valid()
      reads this, Repr
      decreases Repr
    {
      this in Repr &&
      (forall k | k in cells && cells[k].Held? :: !cells[k].value.Object?) &&
      (forall k | k in cells && cells[k].Nested? ::
         cells[k].node in Repr && cells[k].node.Repr <= Repr && this !in cells[k].node.Repr && cells[k].node.Valid()) &&
      (forall a, b | a in cells && b in cells && a != b && cells[a].Nested? && cells[b].Nested? ::
         cells[a].node.Repr !! cells[b].node.Repr)
    }

    ghost function AsFields(): Fields
      requires Valid()
      reads this, Repr
      decreases Repr
    {
      map k | k in cells :: if cells[k].Nested? then Object(cells[k].node.AsFields()) else cells[k].value
    }

    constructor ()
      ensures Valid() && fresh(Repr) && AsFields() == map[] && cells == map[]
    {
      cells := map[];
      Repr := {this};
    }

    // Merges into the object stored under a key, in place.
    method MergeChild(k: string, value: Value, path: string, managed: set<string>) returns (error: Option<Error>)
      requires Valid() && k in cells && cells[k].Nested? && value.Object?
      modifies Repr
      ensures Valid() && fresh(Repr - old(Repr)) && cells == old(cells)
      ensures error.None? <==> MergeOk(old(AsFields())[k].fields, value, path, managed)
      ensures error.None? ==>
                AsFields() == old(AsFields())[k := Object(Merged(old(AsFields())[k].fields, value))]
      decreases value, 1
    {
      hide MergeOk, Merged, MergedAt;
      var child := cells[k].node;
      error := Merge(child, value, path, managed);
      Repr := Repr + child.Repr;
    }

    method PutHeld(k: string, v: Value)
      requires Valid() && k !in cells && !v.Object?
      modifies this
      ensures Valid() && Repr == old(Repr) && AsFields() == old(AsFields())[k := v]
      ensures cells == old(cells)[k := Held(v)]
    {
      cells := cells[k := Held(v)];
    }

    method PutNested(k: string, child: Node)
      requires Valid() && k !in cells && child.Valid() && child.Repr !! Repr
      modifies this
      ensures Valid() && Repr == old(Repr + child.Repr)
      ensures AsFields() == old(AsFields())[k := Object(old(child.AsFields()))]
      ensures cells == old(cells)[k := Nested(child)]
    {
      cells := cells[k := Nested(child)];
      Repr := Repr + child.Repr;
    }
  }

  function Without(fields: Fields, keys: set<string>): Fields {
    map k | k in fields && k !in keys :: fields[k]
  }

  lemma TakenFromTheRest(fields: Fields, keys: set<string>, k: string)
    requires k in keys && k in fields
    ensures Without(fields, keys - {k}) == Without(fields, keys)[k := fields[k]]
  {
  }

  // structuredClone of a plain object.
  method Clone(v: Value) returns (node: Node)
    requires v.Object?
    ensures node.Valid() && fresh(node.Repr) && node.AsFields() == v.fields
    decreases v
  {
    hide Node.Valid, Node.AsFields;
    node := new Node();
    var left := v.fields.Keys;
    while left != {}
      invariant left <= v.fields.Keys
      invariant node.Valid() && fresh(node.Repr)
      invariant node.AsFields() == Without(v.fields, left)
      invariant node.cells.Keys == v.fields.Keys - left
      decreases left
    {
      var k :| k in left;
      left := left - {k};
      if v.fields[k].Object? {
        var child := Clone(v.fields[k]);
        node.PutNested(k, child);
      } else {
        node.PutHeld(k, v.fields[k]);
      }
    }
  }

  // What the source's keys taken so far have made of the target.
  function PartlyMerged(target: Fields, source: Value, left: set<string>): Fields
    requires source.Object?
  {
    Merged(target, Object(Without(source.fields, left)))
  }

  ghost predicate PartlyOk(target: Fields, source: Value, left: set<string>, path: string, managed: set<string>)
    requires source.Object?
  {
    MergeOk(target, Object(Without(source.fields, left)), path, managed)
  }

  ghost predicate KeyOk(target: Fields, source: Value, k: string, path: string, managed: set<string>)
    requires source.Object? && k in source.fields
  {
    Relative(path, k) !in managed &&
    (k in target ==>
      target[k].Object? && source.fields[k].Object? &&
      MergeOk(target[k].fields, source.fields[k], Relative(path, k), managed))
  }

  lemma NothingTaken(target: Fields, source: Value, path: string, managed: set<string>)
    requires source.Object?
    ensures PartlyOk(target, source, source.fields.Keys, path, managed)
    ensures PartlyMerged(target, source, source.fields.Keys) == target
  {
    assert Without(source.fields, source.fields.Keys) == map[];
  }

  lemma AllTaken(target: Fields, source: Value, path: string, managed: set<string>)
    requires source.Object?
    ensures PartlyOk(target, source, {}, path, managed) <==> MergeOk(target, source, path, managed)
    ensures PartlyMerged(target, source, {}) == Merged(target, source)
  {
    assert Without(source.fields, {}) == source.fields;
  }

  lemma MergedLookup(target: Fields, source: Value)
    requires source.Object?
    ensures Merged(target, source).Keys == target.Keys + source.fields.Keys
    ensures forall x | x in source.fields :: Merged(target, source)[x] == MergedAt(target, source, x)
    ensures forall x | x in target && x !in source.fields :: Merged(target, source)[x] == target[x]
  {
    hide MergedAt;
  }

  lemma SameValueSameMerge(target: Fields, a: Value, b: Value, x: string)
    requires a.Object? && b.Object? && x in a.fields && x in b.fields && a.fields[x] == b.fields[x]
    ensures MergedAt(target, a, x) == MergedAt(target, b, x)
  {
  }

  lemma OneKeyMore(target: Fields, source: Value, left: set<string>, k: string, path: string, managed: set<string>)
    requires source.Object? && k in left && left <= source.fields.Keys
    ensures PartlyOk(target, source, left - {k}, path, managed) <==>
            PartlyOk(target, source, left, path, managed) && KeyOk(target, source, k, path, managed)
    ensures PartlyMerged(target, source, left - {k}) == PartlyMerged(target, source, left)[k := MergedAt(target, source, k)]
    ensures k in PartlyMerged(target, source, left) <==> k in target
    ensures k in target ==> PartlyMerged(target, source, left)[k] == target[k]
  {
    var a, b := Object(Without(source.fields, left)), Object(Without(source.fields, left - {k}));
    assert b.fields == a.fields[k := source.fields[k]];
    OneKeyOk(target, source, a, b, k, path, managed);
    OneKeyMerged(target, source, a, b, k);
  }

  lemma OneKeyOk(target: Fields, source: Value, a: Value, b: Value, k: string, path: string, managed: set<string>)
    requires source.Object? && a.Object? && b.Object? && k in source.fields && k !in a.fields
    requires b.fields == a.fields[k := source.fields[k]]
    ensures MergeOk(target, b, path, managed) <==> MergeOk(target, a, path, managed) && KeyOk(target, source, k, path, managed)
  {
    assert forall x :: x in b.fields <==> x == k || x in a.fields;
    assert forall x | x in a.fields :: b.fields[x] == a.fields[x];
    assert b.fields[k] == source.fields[k];
  }

  lemma OneKeyMerged(target: Fields, source: Value, a: Value, b: Value, k: string)
    requires source.Object? && a.Object? && b.Object? && k in source.fields && k !in a.fields
    requires b.fields == a.fields[k := source.fields[k]]
    ensures Merged(target, b) == Merged(target, a)[k := MergedAt(target, source, k)]
    ensures k in Merged(target, a) <==> k in target
    ensures k in target ==> Merged(target, a)[k] == target[k]
  {
    hide Merged, MergedAt;
    MergedLookup(target, a);
    MergedLookup(target, b);
    SameValueSameMerge(target, source, b, k);
    var merged := Merged(target, a)[k := MergedAt(target, source, k)];
    forall x | x in merged
      ensures x in Merged(target, b) && merged[x] == Merged(target, b)[x]
    {
      if x != k && x in a.fields { SameValueSameMerge(target, a, b, x); }
    }
    assert merged.Keys == Merged(target, b).Keys;
  }

  lemma BadKeyRefuses(target: Fields, source: Value, k: string, path: string, managed: set<string>)
    requires source.Object? && k in source.fields && !KeyOk(target, source, k, path, managed)
    ensures !MergeOk(target, source, path, managed)
  {
  }

  lemma CellShape(node: Node)
    requires node.Valid()
    ensures node in node.Repr && node.cells.Keys == node.AsFields().Keys
    ensures forall k | k in node.cells :: node.cells[k].Nested? <==> node.AsFields()[k].Object?
  {
  }

  method Merge(target: Node, source: Value, path: string, managed: set<string>) returns (error: Option<Error>)
    requires source.Object? && target.Valid()
    modifies target.Repr
    ensures target.Valid() && fresh(target.Repr - old(target.Repr))
    ensures error.None? <==> MergeOk(old(target.AsFields()), source, path, managed)
    ensures error.None? ==> target.AsFields() == Merged(old(target.AsFields()), source)
    decreases source, 0
  {
    hide Node.Valid, Node.AsFields, MergeOk, Merged, PartlyOk, PartlyMerged, Without;
    ghost var before := target.AsFields();
    CellShape(target);
    NothingTaken(before, source, path, managed);
    var left := source.fields.Keys;
    while left != {}
      invariant left <= source.fields.Keys
      invariant target.Valid() && fresh(target.Repr - old(target.Repr))
      invariant PartlyOk(before, source, left, path, managed)
      invariant target.AsFields() == PartlyMerged(before, source, left)
      decreases left
    {
      var k :| k in left;
      var value := source.fields[k];
      var relative := Relative(path, k);
      OneKeyMore(before, source, left, k, path, managed);
      CellShape(target);
      if relative in managed {
        BadKeyRefuses(before, source, k, path, managed);
        return Some(CollidesWithManaged(relative));
      }
      if k in target.cells {
        if !target.cells[k].Nested? || !value.Object? {
          BadKeyRefuses(before, source, k, path, managed);
          return Some(CollidesWithGenerated(relative));
        }
        error := target.MergeChild(k, value, relative, managed);
        if error.Some? {
          BadKeyRefuses(before, source, k, path, managed);
          return;
        }
      } else if value.Object? {
        var copy := Clone(value);
        target.PutNested(k, copy);
      } else {
        target.PutHeld(k, value);
      }
      left := left - {k};
    }
    AllTaken(before, source, path, managed);
    error := None;
  }

  // structuredClone of an object graph.
  method CloneNode(node: Node) returns (copy: Node)
    requires node.Valid()
    ensures copy.Valid() && fresh(copy.Repr) && copy.AsFields() == node.AsFields()
    decreases node.Repr
  {
    hide Node.Valid, Node.AsFields;
    copy := new Node();
    var left := node.cells.Keys;
    CellShape(node);
    assert Without(node.AsFields(), left) == map[];
    hide Without;
    while left != {}
      invariant left <= node.cells.Keys
      invariant copy.Valid() && fresh(copy.Repr)
      invariant copy.AsFields() == Without(node.AsFields(), left)
      invariant copy.cells.Keys == node.cells.Keys - left
      decreases left
    {
      var k :| k in left;
      CellMeaning(node, k);
      TakenFromTheRest(node.AsFields(), left, k);
      left := left - {k};
      match node.cells[k] {
        case Nested(child) =>
          var childCopy := CloneNode(child);
          copy.PutNested(k, childCopy);
        case Held(v) => copy.PutHeld(k, v);
      }
    }
  }

  lemma CellMeaning(node: Node, k: string)
    requires node.Valid() && k in node.cells
    ensures k in node.AsFields()
    ensures match node.cells[k]
            case Nested(child) =>
              child.Valid() && child.Repr < node.Repr && node.AsFields()[k] == Object(child.AsFields())
            case Held(v) => !v.Object? && node.AsFields()[k] == v
  {
  }

  // The whole operation. Nothing that existed before is in its frame: only the clone is written.
  method MergeExtraBodyDeep(body: Node, extraBody: Option<Value>, bytes: nat, managed: set<string>)
    returns (result: Result<Node, Error>)
    requires body.Valid() && (extraBody.Some? ==> extraBody.value.Object?)
    ensures body.Valid() && body.AsFields() == old(body.AsFields())
    ensures extraBody.None? ==> result == Ok(body)
    ensures extraBody.Some? ==>
              (result.Ok? <==> Acceptable(extraBody.value, 0) && bytes <= MAX_BYTES &&
                               MergeOk(body.AsFields(), extraBody.value, "", managed)) &&
              (result.Ok? ==> result.value.Valid() && fresh(result.value.Repr) &&
                              result.value.AsFields() == Merged(body.AsFields(), extraBody.value))
  {
    hide Node.Valid, Node.AsFields, MergeOk, Merged, Acceptable;
    if extraBody.None? { return Ok(body); }
    var invalid := ValidateJsonValue(extraBody.value, 0);
    if invalid.Some? { return Err(invalid.value); }
    if bytes > MAX_BYTES { return Err(TooLarge); }
    var clone := CloneNode(body);
    var collision := Merge(clone, extraBody.value, "", managed);
    if collision.Some? { return Err(collision.value); }
    return Ok(clone);
  }
}
