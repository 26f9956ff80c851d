// Shared building blocks: optional values, results, and ascending enumeration of integer sets.
module Prelude {
  datatype Option<+T> = None | Some(value: T)

  datatype Result<+T, +E> = Ok(value: T) | Err(error: E)

  ghost predicate StrictlyAscending(s: seq<int>) {
    forall i, j | 0 <= i < j < |s| :: s[i] < s[j]
  }

  ghost predicate Distinct<T>(s: seq<T>) {
    forall i, j | 0 <= i < j < |s| :: s[i] != s[j]
  }

  function Elements<T>(s: seq<T>): set<T> {
    set x | x in s
  }

  lemma SomeElement<T>(s: set<T>) returns (x: T)
    requires s != {}
    ensures x in s
  {
    x :| x in s;
  }

  lemma {:induction false} MinimumExists(s: set<int>)
    requires s != {}
    ensures exists m :: m in s && forall x | x in s :: m <= x
    decreases |s|
  {
    var y := SomeElement(s);
    var rest := s - {y};
    if rest == {} {
      assert s == {y};
      assert y in s && forall x | x in s :: y <= x;
    } else {
      MinimumExists(rest);
      var m :| m in rest && forall x | x in rest :: m <= x;
      var least := if y < m then y else m;
      assert s == rest + {y};
      assert least in s && forall x | x in s :: least <= x;
    }
  }

  // Two strictly ascending enumerations of one set are the same sequence.
  lemma {:induction false} AscendingIsUnique(a: seq<int>, b: seq<int>)
    requires StrictlyAscending(a) && StrictlyAscending(b)
    requires Elements(a) == Elements(b)
    ensures a == b
  {
    assert b == [] || b[0] in Elements(b);
    if a != [] {
      assert a[0] in Elements(b);
      assert a[0] in Elements(b) && b[0] in Elements(a);
      assert a[0] == b[0];
      forall x
        ensures x in Elements(a[1..]) <==> x in Elements(b[1..])
      {
        assert x in Elements(a[1..]) <==> x in Elements(a) && x != a[0];
        assert x in Elements(b[1..]) <==> x in Elements(b) && x != b[0];
      }
      AscendingIsUnique(a[1..], b[1..]);
      assert a == [a[0]] + a[1..] && b == [b[0]] + b[1..];
    }
  }

  // Sorts the keys of a record of integers; the platform sort, seen through its contract.
  method SortAscending(s: set<int>) returns (r: seq<int>)
    ensures StrictlyAscending(r) && Elements(r) == s
  {
    r := [];
    var left := s;
    while left != {}
      invariant StrictlyAscending(r)
      invariant Elements(r) + left == s
      invariant forall i, y | 0 <= i < |r| && y in left :: r[i] < y
      decreases left
    {
      MinimumExists(left);
      var m :| m in left && forall x | x in left :: m <= x;
      r := r + [m];
      left := left - {m};
    }
  }
}
