/** Python's ordering of `str` values (code point by code point, a proper
    prefix first) and `sorted()` applied to a set of strings. */
module Order {

  /** `a < b` on Python strings. */
  predicate Below(a: string, b: string) {
    |b| > 0 && (|a| == 0 || a[0] < b[0] || (a[0] == b[0] && Below(a[1..], b[1..])))
  }

  lemma {:induction false} BelowIrreflexive(a: string)
    ensures !Below(a, a)
  {
    if |a| > 0 {
      BelowIrreflexive(a[1..]);
    }
  }

  lemma {:induction false} BelowTransitive(a: string, b: string, c: string)
    requires Below(a, b) && Below(b, c)
    ensures Below(a, c)
  {
    if |a| > 0 && a[0] == b[0] && b[0] == c[0] {
      BelowTransitive(a[1..], b[1..], c[1..]);
    }
  }

  lemma {:induction false} BelowTotal(a: string, b: string)
    requires a != b
    ensures Below(a, b) || Below(b, a)
  {
    if |a| > 0 && |b| > 0 && a[0] == b[0] {
      assert a == [a[0]] + a[1..] && b == [b[0]] + b[1..];
      BelowTotal(a[1..], b[1..]);
    }
  }

  lemma BelowAsymmetric(a: string, b: string)
    requires Below(a, b)
    ensures !Below(b, a)
  {
    if Below(b, a) {
      BelowTransitive(a, b, a);
      BelowIrreflexive(a);
    }
  }

  /** Strictly increasing: sorted with no element repeated. */
  predicate Ascending(r: seq<string>) {
    forall i, j :: 0 <= i < j < |r| ==> Below(r[i], r[j])
  }

  predicate IsLeast(m: string, s: set<string>) {
    m in s && forall y :: y in s && y != m ==> Below(m, y)
  }

  lemma {:induction false} LeastExists(s: set<string>)
    requires s != {}
    ensures exists m :: IsLeast(m, s)
    decreases |s|
  {
    var x :| x in s;
    if s != {x} {
      var rest := s - {x};
      LeastExists(rest);
      var m :| IsLeast(m, rest);
      if Below(x, m) {
        forall y | y in s && y != x ensures Below(x, y) {
          if y != m { BelowTransitive(x, m, y); }
        }
        assert IsLeast(x, s);
      } else {
        BelowTotal(x, m);
        assert IsLeast(m, s);
      }
    }
  }

  lemma LeastUnique(m: string, m': string, s: set<string>)
    requires IsLeast(m, s) && IsLeast(m', s)
    ensures m == m'
  {
    if m != m' {
      BelowAsymmetric(m, m');
    }
  }

  ghost function Least(s: set<string>): (m: string)
    requires s != {}
    ensures IsLeast(m, s)
  {
    LeastExists(s);
    var m :| IsLeast(m, s); m
  }

  /** The list `sorted(s)`: the elements of `s`, each once, in ascending order. */
  ghost function SortedListing(s: set<string>): (r: seq<string>)
    ensures Ascending(r)
    ensures forall x :: x in r <==> x in s
    ensures |r| == |s|
    decreases |s|
  {
    if s == {} then []
    else
      var m := Least(s);
      var tail := SortedListing(s - {m});
      assert forall j :: 0 <= j < |tail| ==> Below(m, tail[j]) by {
        forall j | 0 <= j < |tail| ensures Below(m, tail[j]) {
          assert tail[j] in tail;
        }
      }
      [m] + tail
  }

  lemma SameElementsBothEmpty(a: seq<string>, b: seq<string>)
    requires forall x :: x in a <==> x in b
    ensures a == [] <==> b == []
  {
    if a != [] { assert a[0] in a; }
    if b != [] { assert b[0] in b; }
  }

  /** Only one ascending list holds exactly the elements of a given set. */
  lemma {:induction false} AscendingUnique(a: seq<string>, b: seq<string>)
    requires Ascending(a) && Ascending(b)
    requires forall x :: x in a <==> x in b
    ensures a == b
  {
    SameElementsBothEmpty(a, b);
    if a != [] {
      assert IsLeast(a[0], set x | x in a) by {
        forall y | y in a && y != a[0] ensures Below(a[0], y) {
          var j :| 0 <= j < |a| && a[j] == y;
        }
      }
      assert IsLeast(b[0], set x | x in a) by {
        forall y | y in a && y != b[0] ensures Below(b[0], y) {
          var j :| 0 <= j < |b| && b[j] == y;
        }
      }
      LeastUnique(a[0], b[0], set x | x in a);
      forall x ensures x in a[1..] <==> x in b[1..] {
        if x in a[1..] {
          var j :| 0 <= j < |a| - 1 && a[1..][j] == x;
          assert Below(a[0], a[j + 1]);
          BelowIrreflexive(a[0]);
          assert x in b;
          var k :| 0 <= k < |b| && b[k] == x;
          assert k != 0;
          assert b[1..][k - 1] == x;
        }
        if x in b[1..] {
          var j :| 0 <= j < |b| - 1 && b[1..][j] == x;
          assert Below(b[0], b[j + 1]);
          BelowIrreflexive(b[0]);
          assert x in a;
          var k :| 0 <= k < |a| && a[k] == x;
          assert k != 0;
          assert a[1..][k - 1] == x;
        }
      }
      AscendingUnique(a[1..], b[1..]);
      assert a == [a[0]] + a[1..] && b == [b[0]] + b[1..];
    }
  }

  /** Taking the least element `m` out of `rest` moves it from the listing
      of the remaining elements to the end of the part already listed. */
  lemma ListingStep(done: seq<string>, rest: set<string>, m: string)
    requires IsLeast(m, rest)
    ensures done + SortedListing(rest) == (done + [m]) + SortedListing(rest - {m})
  {
    LeastUnique(m, Least(rest), rest);
    assert SortedListing(rest) == [m] + SortedListing(rest - {m});
  }

  /** `sorted(s)` computed by taking the least remaining element each round. */
  method Sorted(s: set<string>) returns (r: seq<string>)
    ensures r == SortedListing(s)
    ensures Ascending(r) && |r| == |s|
  {
    r := [];
    var rest := s;
    while rest != {}
      invariant r + SortedListing(rest) == SortedListing(s)
      decreases |rest|
    {
      LeastExists(rest);
      var m :| IsLeast(m, rest);
      ListingStep(r, rest, m);
      r := r + [m];
      rest := rest - {m};
    }
    assert r + SortedListing({}) == r;
  }
}
