/**
 Python's ordering of strings (lexicographic by code point, a proper prefix
 first) and `sorted` on a list of distinct names.
 */
module Names {

  /** Python's `a < b` on `str`; no name is below itself. */
  predicate Below(a: string, b: string)
    ensures Below(a, b) ==> a != b
    decreases |a|
  {
    if |a| == 0 then |b| > 0
    else if |b| == 0 then false
    else if a[0] != b[0] then a[0] < b[0]
    else Below(a[1..], b[1..])
  }

  lemma {:induction false} BelowTransitive(a: string, b: string, c: string)
    requires Below(a, b) && Below(b, c)
    ensures Below(a, c)
    decreases |a|
  {
    if |a| > 0 && a[0] == b[0] && b[0] == c[0] {
      BelowTransitive(a[1..], b[1..], c[1..]);
    }
  }

  /** Any two different names are ordered one way or the other. */
  lemma {:induction false} BelowTotal(a: string, b: string)
    requires a != b
    ensures Below(a, b) || Below(b, a)
    decreases |a|
  {
    if |a| > 0 && |b| > 0 && a[0] == b[0] {
      assert a == [a[0]] + a[1..] && b == [b[0]] + b[1..];
      BelowTotal(a[1..], b[1..]);
    }
  }

  lemma BelowAsymmetric(a: string, b: string)
    requires Below(a, b)
    ensures !Below(b, a)
  {
    if Below(b, a) {
      BelowTransitive(a, b, a);
    }
  }

  /** Strictly ascending: sorted, with no name twice. */
  predicate Ascending(s: seq<string>) {
    forall i, j :: 0 <= i < j < |s| ==> Below(s[i], s[j])
  }

  predicate Distinct(s: seq<string>) {
    forall i, j :: 0 <= i < j < |s| ==> s[i] != s[j]
  }

  lemma AscendingDistinct(s: seq<string>)
    requires Ascending(s)
    ensures Distinct(s)
  {
    forall i, j | 0 <= i < j < |s| ensures s[i] != s[j] {
      assert Below(s[i], s[j]);
    }
  }

  /** Inserts a new name into an ascending sequence. */
  function Insert(x: string, s: seq<string>): (r: seq<string>)
    requires Ascending(s) && x !in s
    ensures Ascending(r)
    ensures multiset(r) == multiset(s) + multiset{x}
    decreases |s|
  {
    if s == [] then [x]
    else if Below(x, s[0]) then
      InsertFront(x, s);
      [x] + s
    else
      var t := Insert(x, s[1..]);
      InsertBehind(x, s, t);
      [s[0]] + t
  }

  lemma InsertFront(x: string, s: seq<string>)
    requires Ascending(s) && s != [] && Below(x, s[0])
    ensures Ascending([x] + s)
  {
    forall j | 0 < j < |s| ensures Below(x, s[j]) {
      BelowTransitive(x, s[0], s[j]);
    }
  }

  lemma InsertBehind(x: string, s: seq<string>, t: seq<string>)
    requires Ascending(s) && s != [] && x !in s && !Below(x, s[0])
    requires Ascending(t) && multiset(t) == multiset(s[1..]) + multiset{x}
    ensures Ascending([s[0]] + t)
    ensures multiset([s[0]] + t) == multiset(s) + multiset{x}
  {
    assert s == [s[0]] + s[1..];
    assert x != s[0];
    BelowTotal(x, s[0]);
    forall j | 0 <= j < |t| ensures Below(s[0], t[j]) {
      assert t[j] in multiset(t);
      if t[j] != x {
        assert t[j] in multiset(s[1..]);
        var m :| 0 <= m < |s[1..]| && s[1..][m] == t[j];
        assert s[m + 1] == t[j];
      }
    }
  }

  /** Python's `sorted` on a list of distinct names. */
  function Sorted(s: seq<string>): (r: seq<string>)
    requires Distinct(s)
    ensures Ascending(r)
    ensures multiset(r) == multiset(s)
    decreases |s|
  {
    if s == [] then []
    else
      var t := Sorted(s[1..]);
      assert s == [s[0]] + s[1..];
      assert s[0] !in t by {
        assert s[0] !in s[1..];
        assert s[0] !in multiset(s[1..]);
      }
      Insert(s[0], t)
  }

  /** Two ascending sequences with the same elements are equal: the sorted
      order of a set of names does not depend on the order it was listed in. */
  lemma {:induction false} AscendingUnique(a: seq<string>, b: seq<string>)
    requires Ascending(a) && Ascending(b)
    requires multiset(a) == multiset(b)
    ensures a == b
    decreases |a|
  {
    if a == [] {
      assert |multiset(b)| == 0;
    } else {
      assert |b| == |multiset(b)| == |multiset(a)| == |a|;
      SameHead(a, b);
      DropHead(a, b);
      AscendingUnique(a[1..], b[1..]);
      assert a == [a[0]] + a[1..] && b == [b[0]] + b[1..];
    }
  }

  /** The first element of an ascending sequence is below every other one. */
  lemma HeadBelow(s: seq<string>, x: string)
    requires Ascending(s) && x in s && x != s[0]
    ensures Below(s[0], x)
  {
    var m :| 0 <= m < |s| && s[m] == x;
  }

  /** Two non-empty ascending sequences with the same elements start alike. */
  lemma SameHead(a: seq<string>, b: seq<string>)
    requires Ascending(a) && Ascending(b) && a != [] && b != []
    requires multiset(a) == multiset(b)
    ensures a[0] == b[0]
  {
    assert a[0] in multiset(b) && b[0] in multiset(a);
    if a[0] != b[0] {
      HeadBelow(b, a[0]);
      HeadBelow(a, b[0]);
      BelowAsymmetric(a[0], b[0]);
    }
  }

  /** Removing the same first element keeps the elements equal. */
  lemma DropHead(a: seq<string>, b: seq<string>)
    requires a != [] && b != [] && a[0] == b[0]
    requires multiset(a) == multiset(b)
    ensures multiset(a[1..]) == multiset(b[1..])
  {
    assert a == [a[0]] + a[1..] && b == [b[0]] + b[1..];
    assert multiset(a) == multiset{a[0]} + multiset(a[1..]);
    assert multiset(b) == multiset{b[0]} + multiset(b[1..]);
    assert multiset(a[1..]) == multiset(a) - multiset{a[0]};
    assert multiset(b[1..]) == multiset(b) - multiset{b[0]};
  }

  /** An ascending sequence of three names `x < y < z` is `[x, y, z]`. */
  lemma AscendingThree(s: seq<string>, x: string, y: string, z: string)
    requires Ascending(s) && Below(x, y) && Below(y, z)
    requires forall n :: n in s <==> n == x || n == y || n == z
    ensures s == [x, y, z]
  {
    var names := [x, y, z];
    BelowTransitive(x, y, z);
    assert Ascending(names);
    AscendingDistinct(names);
    AscendingDistinct(s);
    DistinctMultiset(names, s);
    AscendingUnique(names, s);
  }

  /** Different listings of the same set of names sort to the same sequence. */
  lemma SortedIgnoresOrder(s: seq<string>, t: seq<string>)
    requires Distinct(s) && Distinct(t)
    requires multiset(s) == multiset(t)
    ensures Sorted(s) == Sorted(t)
  {
    AscendingUnique(Sorted(s), Sorted(t));
  }

  /** Some listing of a finite set of names, in an order left unspecified. */
  ghost function SomeOrder(names: set<string>): (r: seq<string>)
    ensures Distinct(r)
    ensures forall x :: x in r <==> x in names
    decreases names
  {
    if names == {} then []
    else
      var x :| x in names;
      [x] + SomeOrder(names - {x})
  }

  /** A listing of a finite set of names, in whatever order the choice of
      elements gives: models the unspecified order of a directory listing. */
  method ListOrder(names: set<string>) returns (r: seq<string>)
    ensures Distinct(r)
    ensures forall x :: x in r <==> x in names
  {
    r := [];
    var rest := names;
    while rest != {}
      invariant Distinct(r)
      invariant forall x :: x in r <==> x in names && x !in rest
      invariant rest <= names
      decreases rest
    {
      var x :| x in rest;
      r := r + [x];
      rest := rest - {x};
    }
  }

  /** A distinct sequence holds as many names as its set. */
  lemma DistinctMultiset(s: seq<string>, t: seq<string>)
    requires Distinct(s) && Distinct(t)
    requires forall x :: x in s <==> x in t
    ensures multiset(s) == multiset(t)
  {
    forall x ensures multiset(s)[x] == multiset(t)[x] {
      DistinctCount(s, x);
      DistinctCount(t, x);
    }
  }

  lemma {:induction false} DistinctCount(s: seq<string>, x: string)
    requires Distinct(s)
    ensures multiset(s)[x] == if x in s then 1 else 0
    decreases |s|
  {
    if s != [] {
      assert s == [s[0]] + s[1..];
      DistinctCount(s[1..], x);
      assert s[0] !in s[1..];
    }
  }
}
