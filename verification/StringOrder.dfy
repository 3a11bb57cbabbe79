/** The order in which the program's sorted collections list strings, and the
    listing of a finite set in that order. */
module StringOrder {

  /** `a` comes strictly before `b` in String.compareTo order. */
  predicate Before(a: string, b: string)
  {
    if b == [] then false
    else if a == [] then true
    else a[0] < b[0] || (a[0] == b[0] && Before(a[1..], b[1..]))
  }

  predicate AtMost(a: string, b: string)
  {
    a == b || Before(a, b)
  }

  lemma {:induction false} BeforeIrreflexive(a: string)
    ensures !Before(a, a)
  {
    if a != [] {
      BeforeIrreflexive(a[1..]);
    }
  }

  lemma {:induction false} BeforeTransitive(a: string, b: string, c: string)
    requires Before(a, b) && Before(b, c)
    ensures Before(a, c)
  {
    if a != [] && a[0] == b[0] && b[0] == c[0] {
      BeforeTransitive(a[1..], b[1..], c[1..]);
    }
  }

  lemma {:induction false} BeforeTotal(a: string, b: string)
    ensures a == b || Before(a, b) || Before(b, a)
  {
    if a != [] && b != [] && a[0] == b[0] {
      BeforeTotal(a[1..], b[1..]);
      assert a == [a[0]] + a[1..] && b == [b[0]] + b[1..];
    }
  }

  lemma BeforeAsymmetric(a: string, b: string)
    requires Before(a, b)
    ensures !Before(b, a) && a != b
  {
    BeforeIrreflexive(a);
    if Before(b, a) {
      BeforeTransitive(a, b, a);
    }
  }

  /** A proper prefix comes first: a folder is listed before what it contains. */
  lemma {:induction false} PrefixBefore(a: string, b: string)
    requires a < b
    ensures Before(a, b)
  {
    if a != [] {
      PrefixBefore(a[1..], b[1..]);
    }
  }

  predicate Sorted(s: seq<string>)
  {
    forall i, j :: 0 <= i < j < |s| ==> Before(s[i], s[j])
  }

  predicate IsLeast(m: string, s: set<string>)
  {
    m in s && forall x :: x in s ==> AtMost(m, x)
  }

  lemma {:induction false} LeastExists(s: set<string>)
    requires s != {}
    ensures exists m :: IsLeast(m, s)
  {
    var x :| x in s;
    var rest := s - {x};
    if rest == {} {
      assert s == {x};
      assert IsLeast(x, s);
    } else {
      LeastExists(rest);
      var m :| IsLeast(m, rest);
      BeforeTotal(m, x);
      if Before(x, m) {
        forall y | y in rest && y != m
          ensures Before(x, y)
        {
          BeforeTransitive(x, m, y);
        }
        assert IsLeast(x, s);
      } else {
        assert IsLeast(m, s);
      }
    }
  }

  lemma LeastUnique(a: string, b: string, s: set<string>)
    requires IsLeast(a, s) && IsLeast(b, s)
    ensures a == b
  {
    if a != b {
      BeforeAsymmetric(a, b);
    }
  }

  ghost function Least(s: set<string>): (m: string)
    requires s != {}
    ensures IsLeast(m, s)
  {
    LeastExists(s);
    var m :| IsLeast(m, s);
    m
  }

  /** The elements of a set, each once, in order. */
  ghost function Listing(s: set<string>): (r: seq<string>)
    ensures |r| == |s|
    ensures forall x :: x in r <==> x in s
    ensures Sorted(r)
  {
    if s == {} then []
    else
      var m := Least(s);
      var rest := Listing(s - {m});
      SortedCons(m, rest);
      [m] + rest
  }

  lemma SortedCons(m: string, rest: seq<string>)
    requires Sorted(rest)
    requires forall x :: x in rest ==> Before(m, x)
    ensures Sorted([m] + rest)
  {
    var r := [m] + rest;
    forall i, j | 0 <= i < j < |r|
      ensures Before(r[i], r[j])
    {
      assert r[j] == rest[j - 1];
      if i > 0 {
        assert r[i] == rest[i - 1];
      }
    }
  }

  function Elements(r: seq<string>): set<string>
  {
    set x | x in r
  }

  lemma SortedHead(r: seq<string>)
    requires Sorted(r) && r != []
    ensures IsLeast(r[0], Elements(r))
    ensures Elements(r[1..]) == Elements(r) - {r[0]}
  {
    forall x | x in r[1..]
      ensures x != r[0]
    {
      var i :| 0 <= i < |r[1..]| && r[1..][i] == x;
      BeforeAsymmetric(r[0], r[i + 1]);
    }
    assert r == [r[0]] + r[1..];
  }

  /** Sortedness and contents determine the listing. */
  lemma {:induction false} ListingUnique(r: seq<string>)
    requires Sorted(r)
    ensures r == Listing(Elements(r))
  {
    if r != [] {
      SortedHead(r);
      var s := Elements(r);
      assert r[0] in s;
      LeastUnique(r[0], Least(s), s);
      ListingUnique(r[1..]);
      assert Listing(s) == [r[0]] + Listing(s - {r[0]});
      assert r == [r[0]] + r[1..];
    }
  }

  /** What an iterator over a sorted set delivers. */
  method Enumerate(s: set<string>) returns (r: seq<string>)
    ensures r == Listing(s)
  {
    r := [];
    var rest := s;
    while rest != {}
      invariant rest <= s
      invariant Sorted(r)
      invariant forall x :: x in r <==> x in s - rest
      invariant forall x, y :: x in r && y in rest ==> Before(x, y)
      decreases rest
    {
      LeastExists(rest);
      var m :| m in rest && IsLeast(m, rest);
      var next := r + [m];
      forall x, y | x in next && y in rest - {m}
        ensures Before(x, y)
      {
        if x !in r {
          assert x == m;
        }
      }
      forall i, j | 0 <= i < j < |next|
        ensures Before(next[i], next[j])
      {
        if j == |r| {
          assert next[i] == r[i] && r[i] in r;
        }
      }
      r := next;
      rest := rest - {m};
    }
    assert s == Elements(r);
    ListingUnique(r);
  }
}
