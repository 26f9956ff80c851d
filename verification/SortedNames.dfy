// Sets of names enumerated in the order the platform sorts strings in.
module SortedNames {
  import opened Prelude
  import opened Lexicographic

  function Units(name: string): (r: seq<int>)
    ensures |r| == |name|
    ensures forall i | 0 <= i < |name| :: r[i] == name[i] as int
  {
    seq(|name|, i requires 0 <= i < |name| => name[i] as int)
  }

  lemma UnitsDecide(a: string, b: string)
    ensures Units(a) == Units(b) <==> a == b
  {
    if Units(a) == Units(b) {
      assert forall i | 0 <= i < |a| :: a[i] as int == Units(a)[i] == Units(b)[i] == b[i] as int;
    }
  }

  predicate Before(a: string, b: string) {
    Less(Units(a), Units(b))
  }

  lemma BeforeIsTotal(a: string, b: string)
    ensures Before(a, b) || a == b || Before(b, a)
    ensures !(Before(a, b) && Before(b, a)) && !Before(a, a)
  {
    UnitsDecide(a, b);
    LessTotal(Units(a), Units(b));
    LessTotal(Units(a), Units(a));
  }

  lemma BeforeIsTransitive(a: string, b: string, c: string)
    requires Before(a, b) && Before(b, c)
    ensures Before(a, c)
  {
    LessTransitive(Units(a), Units(b), Units(c));
  }

  ghost predicate Sorted(names: seq<string>) {
    forall i, j | 0 <= i < j < |names| :: Before(names[i], names[j])
  }

  lemma {:induction false} FirstExists(s: set<string>)
    requires s != {}
    ensures exists m :: m in s && forall x | x in s && x != m :: Before(m, x)
    decreases |s|
  {
    hide Before;
    var y := SomeElement(s);
    var rest := s - {y};
    if rest == {} {
      assert s == {y};
      assert y in s;
    } else {
      FirstExists(rest);
      var m :| m in rest && forall x | x in rest && x != m :: Before(m, x);
      BeforeIsTotal(m, y);
      var first := if Before(y, m) then y else m;
      forall x | x in s && x != first
        ensures Before(first, x)
      {
        if first == y && x != m { BeforeIsTransitive(y, m, x); }
      }
      assert first in s;
    }
  }

  function AllUnits(names: seq<string>): (r: seq<seq<int>>)
    ensures |r| == |names|
    ensures forall i | 0 <= i < |names| :: r[i] == Units(names[i])
  {
    seq(|names|, i requires 0 <= i < |names| => Units(names[i]))
  }

  lemma UnitsOccur(names: seq<string>, k: seq<int>)
    ensures k in AllUnits(names) <==> exists x :: x in Elements(names) && k == Units(x)
  {
    if k in AllUnits(names) {
      var i :| 0 <= i < |names| && AllUnits(names)[i] == k;
      assert names[i] in Elements(names);
    }
    if x: string :| x in Elements(names) && k == Units(x) {
      var i :| 0 <= i < |names| && names[i] == x;
      assert AllUnits(names)[i] == k;
    }
  }

  // Two sorted enumerations of one set are the same.
  lemma SortedIsUnique(a: seq<string>, b: seq<string>)
    requires Sorted(a) && Sorted(b) && Elements(a) == Elements(b)
    ensures a == b
  {
    forall k
      ensures k in AllUnits(a) <==> k in AllUnits(b)
    {
      UnitsOccur(a, k);
      UnitsOccur(b, k);
    }
    AscendingUnique(AllUnits(a), AllUnits(b));
    forall i | 0 <= i < |a|
      ensures a[i] == b[i]
    {
      assert AllUnits(a)[i] == AllUnits(b)[i];
      UnitsDecide(a[i], b[i]);
    }
  }

  // The platform sort of a set of names.
  method SortNames(s: set<string>) returns (r: seq<string>)
    ensures Sorted(r) && Elements(r) == s
  {
    r := [];
    var left := s;
    while left != {}
      invariant Sorted(r) && Elements(r) + left == s
      invariant forall i, y | 0 <= i < |r| && y in left :: Before(r[i], y)
      decreases left
    {
      FirstExists(left);
      var m :| m in left && forall x | x in left && x != m :: Before(m, x);
      r := r + [m];
      left := left - {m};
    }
  }
}
