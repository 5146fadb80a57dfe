/**
 * Python's ordering of `str` values (code point by code point, a proper
 * prefix first) and `sorted()` applied to a set of strings.
 */
module Ordering {

  /** `a < b` on Python strings. */
  predicate Less(a: string, b: string) {
    if a == [] then b != []
    else if b == [] then false
    else if a[0] != b[0] then a[0] < b[0]
    else Less(a[1..], b[1..])
  }

  lemma {:induction false} LessIrreflexive(a: string)
    ensures !Less(a, a)
  {
    if a != [] {
      LessIrreflexive(a[1..]);
    }
  }

  lemma {:induction false} LessAsymmetric(a: string, b: string)
    requires Less(a, b)
    ensures !Less(b, a)
  {
    if a != [] && b != [] && a[0] == b[0] {
      LessAsymmetric(a[1..], b[1..]);
    }
  }

  lemma {:induction false} LessTransitive(a: string, b: string, c: string)
    requires Less(a, b) && Less(b, c)
    ensures Less(a, c)
  {
    if a != [] && a[0] == b[0] && b[0] == c[0] {
      LessTransitive(a[1..], b[1..], c[1..]);
    }
  }

  /** Any two different strings are ordered one way or the other. */
  lemma {:induction false} LessTotal(a: string, b: string)
    requires a != b
    ensures Less(a, b) || Less(b, a)
  {
    if a != [] && b != [] && a[0] == b[0] {
      assert a == [a[0]] + a[1..] && b == [b[0]] + b[1..];
      LessTotal(a[1..], b[1..]);
    }
  }

  /** Every element of `r` comes strictly before every later one. */
  predicate StrictlySorted(r: seq<string>) {
    forall i, j :: 0 <= i < j < |r| ==> Less(r[i], r[j])
  }

  /** `m` is the smallest element of `s`. */
  predicate IsLeast(m: string, s: set<string>) {
    m in s && forall x :: x in s && x != m ==> Less(m, x)
  }

  lemma {:induction false} LeastExists(s: set<string>)
    requires s != {}
    ensures exists m :: IsLeast(m, s)
    decreases |s|
  {
    var y :| y in s;
    if s != {y} {
      LeastExists(s - {y});
      var z :| IsLeast(z, s - {y});
      LessTotal(y, z);
      if Less(y, z) {
        forall x | x in s && x != y
          ensures Less(y, x)
        {
          if x != z {
            LessTransitive(y, z, x);
          }
        }
        assert IsLeast(y, s);
      } else {
        assert IsLeast(z, s);
      }
    } else {
      assert IsLeast(y, s);
    }
  }

  lemma LeastIsUnique(s: set<string>)
    ensures forall m, n :: IsLeast(m, s) && IsLeast(n, s) ==> m == n
  {
    forall m, n | IsLeast(m, s) && IsLeast(n, s)
      ensures m == n
    {
      if m != n {
        LessAsymmetric(m, n);
      }
    }
  }

  /** The smallest element of a non-empty set of strings. */
  function Least(s: set<string>): (m: string)
    requires s != {}
    ensures IsLeast(m, s)
  {
    LeastExists(s);
    LeastIsUnique(s);
    var m :| IsLeast(m, s);
    m
  }

  /** `sorted(s)`: the elements of the set in increasing order, each once. */
  function Sorted(s: set<string>): (r: seq<string>)
    ensures |r| == |s|
    ensures forall x :: x in r <==> x in s
    ensures StrictlySorted(r)
    decreases |s|
  {
    if s == {} then []
    else
      var m := Least(s);
      var rest := Sorted(s - {m});
      assert forall j :: 0 < j < |rest| + 1 ==> Less(([m] + rest)[0], ([m] + rest)[j]) by {
        forall j | 0 < j < |rest| + 1 ensures Less(([m] + rest)[0], ([m] + rest)[j]) {
          assert rest[j - 1] in s - {m};
        }
      }
      [m] + rest
  }

  /** A strictly sorted listing is fixed by its elements: `sorted` does not depend on how the set was built. */
  lemma {:induction false} SortedListingUnique(a: seq<string>, b: seq<string>)
    requires StrictlySorted(a) && StrictlySorted(b)
    requires forall x :: x in a <==> x in b
    ensures a == b
  {
    if a != [] && b != [] {
      if a[0] != b[0] {
        LessTotal(a[0], b[0]);
        assert b[0] in a && a[0] in b;
        var i :| 0 <= i < |a| && a[i] == b[0];
        var j :| 0 <= j < |b| && b[j] == a[0];
        assert i > 0 && j > 0;
        LessAsymmetric(a[0], b[0]);
        assert false;
      }
      forall x ensures x in a[1..] <==> x in b[1..] {
        if x in a[1..] {
          var i :| 1 <= i < |a| && a[i] == x;
          LessIrreflexive(x);
          assert x != a[0] && x in a && x in b;
          var j :| 0 <= j < |b| && b[j] == x;
          assert j != 0;
        }
        if x in b[1..] {
          var j :| 1 <= j < |b| && b[j] == x;
          LessIrreflexive(x);
          assert x != b[0] && x in b && x in a;
          var i :| 0 <= i < |a| && a[i] == x;
          assert i != 0;
        }
      }
      SortedListingUnique(a[1..], b[1..]);
    } else if a != [] {
      MemberWitness(a, b);
    } else if b != [] {
      MemberWitness(b, a);
    }
  }

  lemma MemberWitness(a: seq<string>, b: seq<string>)
    requires a != []
    requires forall x :: x in a <==> x in b
    ensures b != []
  {
    assert a[0] in b;
  }

  /** `sorted(s)` is the one strictly sorted listing of exactly the members of `s`. */
  lemma SortedIsTheSortedListing(s: set<string>, r: seq<string>)
    requires StrictlySorted(r)
    requires forall x :: x in r <==> x in s
    ensures Sorted(s) == r
  {
    SortedListingUnique(Sorted(s), r);
  }
}
