// Merging provider-specific extras into a generated request body: what the merge means on values,
// and which managed paths it protects.
module ExtraBody {
  import opened Prelude

  // Scalars and lists are leaves for the merge; NotJson stands for values that are not JSON (such as
  // undefined or class instances).
  datatype Value = Scalar(text: string) | List(items: seq<Value>) | NotJson(what: string) | Object(fields: map<string, Value>)

  type Fields = map<string, Value>

  datatype Error =
    | TooDeep
    | NotJsonValue
    | ForbiddenKey(key: string)
    | TooLarge
    | CollidesWithManaged(path: string)
    | CollidesWithGenerated(path: string)

  const DANGEROUS_KEYS := {"__proto__", "prototype", "constructor"}
  const MAX_DEPTH := 12
  const MAX_BYTES := 65536

  // --- Validation of the extras ------------------------------------------------------------------------

  ghost predicate Acceptable(v: Value, depth: int)
    decreases v
  {
    depth <= MAX_DEPTH &&
    match v
    case Scalar(_) => true
    case NotJson(_) => false
    case List(items) => forall i | 0 <= i < |items| :: Acceptable(items[i], depth + 1)
    case Object(fields) =>
      forall k | k in fields :: k !in DANGEROUS_KEYS && Acceptable(fields[k], depth + 1)
  }

  method ValidateJsonValue(v: Value, depth: int) returns (error: Option<Error>)
    ensures error.None? <==> Acceptable(v, depth)
    decreases v
  {
    if depth > MAX_DEPTH { return Some(TooDeep); }
    match v {
      case Scalar(_) => return None;
      case NotJson(_) => return Some(NotJsonValue);
      case List(items) =>
        for i := 0 to |items|
          invariant forall n | 0 <= n < i :: Acceptable(items[n], depth + 1)
        {
          error := ValidateJsonValue(items[i], depth + 1);
          if error.Some? { return; }
        }
        return None;
      case Object(fields) =>
        var left := fields.Keys;
        while left != {}
          invariant left <= fields.Keys
          invariant forall k | k in fields && k !in left :: k !in DANGEROUS_KEYS && Acceptable(fields[k], depth + 1)
          decreases left
        {
          var k :| k in left;
          left := left - {k};
          if k in DANGEROUS_KEYS { return Some(ForbiddenKey(k)); }
          error := ValidateJsonValue(fields[k], depth + 1);
          if error.Some? { return; }
        }
        return None;
    }
  }

  // A step into a value: to the property of an object or the item of a list.
  datatype Move = Property(key: string) | Item(index: nat)

  function Reach(v: Value, moves: seq<Move>): Option<Value>
    decreases |moves|
  {
    if moves == [] then Some(v)
    else
      match moves[0]
      case Property(key) => if v.Object? && key in v.fields then Reach(v.fields[key], moves[1..]) else None
      case Item(index) => if v.List? && index < |v.items| then Reach(v.items[index], moves[1..]) else None
  }

  // Something reachable that must not be sent on: below a forbidden key, too deep or not JSON.
  ghost predicate Harmful(v: Value, moves: seq<Move>, depth: int) {
    Reach(v, moves).Some? &&
    (Reach(v, moves).value.NotJson? || depth + |moves| > MAX_DEPTH ||
     exists i :: 0 <= i < |moves| && moves[i].Property? && moves[i].key in DANGEROUS_KEYS)
  }

  lemma {:induction false} NothingHarmfulInside(v: Value, depth: int, moves: seq<Move>)
    requires Acceptable(v, depth)
    ensures !Harmful(v, moves, depth)
    decreases |moves|
  {
    if moves != [] && Reach(v, moves).Some? {
      var rest := moves[1..];
      var child := if moves[0].Property? then v.fields[moves[0].key] else v.items[moves[0].index];
      assert Acceptable(child, depth + 1);
      NothingHarmfulInside(child, depth + 1, rest);
      assert forall i | 1 <= i < |moves| :: moves[i] == rest[i - 1];
    }
  }

  lemma OneMoveDeeper(v: Value, depth: int, move: Move, rest: seq<Move>)
    requires Reach(v, [move]).Some?
    ensures Harmful(Reach(v, [move]).value, rest, depth + 1) ==> Harmful(v, [move] + rest, depth)
  {
    var moves := [move] + rest;
    assert moves[1..] == rest && [move][1..] == [];
    if Harmful(Reach(v, [move]).value, rest, depth + 1) {
      assert Reach(v, moves) == Reach(Reach(v, [move]).value, rest);
      if i :| 0 <= i < |rest| && rest[i].Property? && rest[i].key in DANGEROUS_KEYS {
        assert moves[i + 1] == rest[i];
      }
    }
  }

  lemma {:induction false} SomethingHarmfulInside(v: Value, depth: int) returns (moves: seq<Move>)
    requires !Acceptable(v, depth)
    ensures Harmful(v, moves, depth)
    decreases v
  {
    moves := [];
    if depth <= MAX_DEPTH && !v.NotJson? {
      if v.List? {
        var i :| 0 <= i < |v.items| && !Acceptable(v.items[i], depth + 1);
        var rest := SomethingHarmfulInside(v.items[i], depth + 1);
        assert [Item(i)][1..] == [] && Reach(v, [Item(i)]) == Some(v.items[i]);
        OneMoveDeeper(v, depth, Item(i), rest);
        moves := [Item(i)] + rest;
      } else {
        var k :| k in v.fields && (k in DANGEROUS_KEYS || !Acceptable(v.fields[k], depth + 1));
        assert [Property(k)][1..] == [] && Reach(v, [Property(k)]) == Some(v.fields[k]);
        if k in DANGEROUS_KEYS {
          moves := [Property(k)];
        } else {
          var rest := SomethingHarmfulInside(v.fields[k], depth + 1);
          OneMoveDeeper(v, depth, Property(k), rest);
          moves := [Property(k)] + rest;
        }
      }
    }
  }

  // Extras are accepted exactly if nothing in them, inside lists as well as objects, is below a dangerous key,
  // deeper than 12 or not JSON.
  lemma AcceptedIffNothingHarmful(v: Value)
    ensures Acceptable(v, 0) <==> forall moves :: !Harmful(v, moves, 0)
  {
    if Acceptable(v, 0) {
      forall moves
        ensures !Harmful(v, moves, 0)
      {
        NothingHarmfulInside(v, 0, moves);
      }
    } else {
      var moves := SomethingHarmfulInside(v, 0);
    }
  }

  // --- The merge on values -----------------------------------------------------------------------------

  function Relative(path: string, key: string): string {
    if path == "" then key else path + "." + key
  }

  // No key of the extras is managed, and a key the body already has is an object on both sides.
  ghost predicate MergeOk(target: Fields, source: Value, path: string, managed: set<string>)
    requires source.Object?
    decreases source
  {
    forall k | k in source.fields ::
      Relative(path, k) !in managed &&
      (k in target ==>
        target[k].Object? && source.fields[k].Object? &&
        MergeOk(target[k].fields, source.fields[k], Relative(path, k), managed))
  }

  function Merged(target: Fields, source: Value): Fields
    requires source.Object?
    decreases source, 1
  {
    (map k | k in target && k !in source.fields :: target[k]) +
    (map k | k in source.fields :: MergedAt(target, source, k))
  }

  function MergedAt(target: Fields, source: Value, k: string): Value
    requires source.Object? && k in source.fields
    decreases source, 0
  {
    var value := source.fields[k];
    if k in target && target[k].Object? && value.Object? then Object(Merged(target[k].fields, value))
    else value
  }

  // --- Paths ----------------------------------------------------------------------------------------------

  function At(fields: Fields, path: seq<string>): Option<Value>
    decreases |path|
  {
    if path == [] then Some(Object(fields))
    else if path[0] !in fields then None
    else if |path| == 1 then Some(fields[path[0]])
    else if fields[path[0]].Object? then At(fields[path[0]].fields, path[1..])
    else None
  }

  ghost predicate LeafAt(fields: Fields, path: seq<string>, v: Value) {
    At(fields, path) == Some(v) && !v.Object?
  }

  // On success the merge is a union without conflicts: a leaf of the result is a leaf of the body or
  // of the extras, unchanged and at its own path, and never both.
  lemma {:induction false} MergeIsDisjointUnion(target: Fields, source: Value, path: string, managed: set<string>,
                                                p: seq<string>, v: Value)
    requires source.Object? && MergeOk(target, source, path, managed)
    ensures LeafAt(Merged(target, source), p, v) <==> LeafAt(target, p, v) || LeafAt(source.fields, p, v)
    ensures !(At(target, p).Some? && At(source.fields, p).Some? &&
              !(At(target, p).value.Object? && At(source.fields, p).value.Object?))
    decreases |p|
  {
    if |p| > 1 && p[0] in target && p[0] in source.fields {
      MergeIsDisjointUnion(target[p[0]].fields, source.fields[p[0]], Relative(path, p[0]), managed, p[1..], v);
    }
  }

  // --- Managed paths ------------------------------------------------------------------------------------------

  function Dotted(path: string, p: seq<string>): string
    decreases |p|
  {
    if p == [] then path else Dotted(Relative(path, p[0]), p[1..])
  }

  lemma DottedOnce(path: string, p: seq<string>)
    requires p != []
    ensures |p| == 1 ==> Dotted(path, p) == Relative(path, p[0])
  {
  }

  // The keys of a path, each behind a dot.
  function Tail(p: seq<string>): string {
    if p == [] then "" else "." + p[0] + Tail(p[1..])
  }

  // A path reads as its keys with dots between.
  lemma {:induction false} PathsReadWithDots(path: string, p: seq<string>)
    requires path != "" || (p != [] && p[0] != "")
    ensures Dotted(path, p) == if path != "" then path + Tail(p) else p[0] + Tail(p[1..])
    decreases |p|
  {
    if p != [] {
      PathsReadWithDots(Relative(path, p[0]), p[1..]);
      assert path != "" ==> path + "." + p[0] + Tail(p[1..]) == path + ("." + p[0] + Tail(p[1..]));
    }
  }

  // The body has an object along every proper prefix of the path.
  predicate ObjectsAlong(fields: Fields, p: seq<string>)
    decreases |p|
  {
    |p| > 1 ==> p[0] in fields && fields[p[0]].Object? && ObjectsAlong(fields[p[0]].fields, p[1..])
  }

  // The body lacks some proper prefix of the path, with objects up to there, and no prefix up to that one is
  // managed: below a key the body does not have, nothing is compared with the managed paths any more.
  ghost predicate Open(fields: Fields, path: string, p: seq<string>, managed: set<string>)
    decreases |p|
  {
    |p| > 1 && Relative(path, p[0]) !in managed &&
    (p[0] !in fields || (fields[p[0]].Object? && Open(fields[p[0]].fields, Relative(path, p[0]), p[1..], managed)))
  }

  // An accepted merge never sets a managed path of which the body has objects along every proper prefix.
  lemma {:induction false} ManagedPathIsProtected(target: Fields, source: Value, path: string, managed: set<string>,
                                                  p: seq<string>)
    requires source.Object? && MergeOk(target, source, path, managed)
    requires p != [] && Dotted(path, p) in managed && ObjectsAlong(target, p)
    ensures At(source.fields, p).None?
    decreases |p|
  {
    DottedOnce(path, p);
    if p[0] in source.fields && |p| > 1 {
      ManagedPathIsProtected(target[p[0]].fields, source.fields[p[0]], Relative(path, p[0]), managed, p[1..]);
    }
  }

  // Extras that set one path.
  function Nest(p: seq<string>, v: Value): Value
    requires p != []
    ensures Nest(p, v).Object?
    decreases |p|
  {
    Object(map[p[0] := if |p| == 1 then v else Nest(p[1..], v)])
  }

  lemma {:induction false} NestSetsThePath(p: seq<string>, v: Value)
    requires p != []
    ensures At(Nest(p, v).fields, p) == Some(v)
    decreases |p|
  {
    if |p| > 1 { NestSetsThePath(p[1..], v); }
  }

  // Extras nested along a path pass validation exactly if the path is short enough and has no dangerous key.
  lemma {:induction false} NestIsAcceptable(p: seq<string>, v: Value, depth: int)
    requires p != []
    ensures Acceptable(Nest(p, v), depth) <==> Acceptable(v, depth + |p|) && forall k | k in p :: k !in DANGEROUS_KEYS
    decreases |p|
  {
    var child := if |p| == 1 then v else Nest(p[1..], v);
    assert Acceptable(Nest(p, v), depth) <==> depth <= MAX_DEPTH && p[0] !in DANGEROUS_KEYS && Acceptable(child, depth + 1)
    by {
      assert Nest(p, v).fields == map[p[0] := child];
    }
    if |p| > 1 { NestIsAcceptable(p[1..], v, depth + 1); }
    assert forall k :: k in p <==> k == p[0] || k in p[1..];
  }

  // And nothing accepted reaches further, or through a dangerous key.
  lemma {:induction false} AcceptedPathsAreShort(source: Value, p: seq<string>, depth: int)
    requires source.Object? && p != [] && Acceptable(source, depth) && At(source.fields, p).Some?
    ensures depth + |p| <= MAX_DEPTH && forall k | k in p :: k !in DANGEROUS_KEYS
    decreases |p|
  {
    assert Acceptable(source.fields[p[0]], depth + 1);
    if |p| > 1 { AcceptedPathsAreShort(source.fields[p[0]], p[1..], depth + 1); }
    assert forall k :: k in p <==> k == p[0] || k in p[1..];
  }

  // Extras nested along an open path collide with nothing.
  lemma {:induction false} OpenPathIsUnchecked(target: Fields, path: string, p: seq<string>, v: Value,
                                               managed: set<string>)
    requires Open(target, path, p, managed)
    ensures MergeOk(target, Nest(p, v), path, managed)
    decreases |p|
  {
    if p[0] in target {
      OpenPathIsUnchecked(target[p[0]].fields, Relative(path, p[0]), p[1..], v, managed);
    }
  }

  // A managed path that extras set without a collision is open.
  lemma {:induction false} SettingNeedsOpenPath(target: Fields, source: Value, path: string, p: seq<string>,
                                                managed: set<string>)
    requires source.Object? && p != [] && MergeOk(target, source, path, managed)
    requires Dotted(path, p) in managed && At(source.fields, p).Some?
    ensures Open(target, path, p, managed)
    decreases |p|
  {
    DottedOnce(path, p);
    if |p| > 1 && p[0] in target {
      SettingNeedsOpenPath(target[p[0]].fields, source.fields[p[0]], Relative(path, p[0]), p[1..], managed);
    }
  }

  // Extras that pass validation and merge without a collision.
  ghost predicate Accepted(target: Fields, source: Value, managed: set<string>) {
    source.Object? && Acceptable(source, 0) && MergeOk(target, source, "", managed)
  }

  // Whatever other paths are managed, accepted extras can set a managed path exactly when it is open, no longer
  // than extras may nest, and without a dangerous key.
  lemma ManagedPathSetIffOpen(target: Fields, p: seq<string>, managed: set<string>)
    requires p != [] && Dotted("", p) in managed
    ensures (exists source :: Accepted(target, source, managed) && At(source.fields, p).Some?) <==>
            Open(target, "", p, managed) && |p| <= MAX_DEPTH && forall k | k in p :: k !in DANGEROUS_KEYS
  {
    var extras := Nest(p, Scalar("x"));
    NestIsAcceptable(p, Scalar("x"), 0);
    NestSetsThePath(p, Scalar("x"));
    if Open(target, "", p, managed) && |p| <= MAX_DEPTH && forall k | k in p :: k !in DANGEROUS_KEYS {
      OpenPathIsUnchecked(target, "", p, Scalar("x"), managed);
      assert Accepted(target, extras, managed);
    }
    if source: Value :| Accepted(target, source, managed) && At(source.fields, p).Some? {
      SettingNeedsOpenPath(target, source, "", p, managed);
      AcceptedPathsAreShort(source, p, 0);
    }
  }

  // A missing prefix does no harm where it is managed itself, as `a` is beside `a.b`.
  lemma ManagedPrefixProtects()
    ensures var managed := {Dotted("", ["a"]), Dotted("", ["a", "b"])};
            !exists source :: Accepted(map[], source, managed) && At(source.fields, ["a", "b"]).Some?
  {
    var managed := {Dotted("", ["a"]), Dotted("", ["a", "b"])};
    DottedOnce("", ["a"]);
    ManagedPathSetIffOpen(map[], ["a", "b"], managed);
    assert !Open(map[], "", ["a", "b"], managed);
  }
}
