/** The order SQLite sorts text in, and the sorted listing of a set of strings. */
module Ordering {
  predicate LexLeq(a: string, b: string) {
    a == "" || (b != "" && (a[0] < b[0] || (a[0] == b[0] && LexLeq(a[1..], b[1..]))))
  }

  lemma {:induction false} LexReflexive(a: string)
    ensures LexLeq(a, a)
  {
    if a != "" {
      LexReflexive(a[1..]);
    }
  }

  lemma {:induction false} LexTotal(a: string, b: string)
    ensures LexLeq(a, b) || LexLeq(b, a)
  {
    if a != "" && b != "" {
      LexTotal(a[1..], b[1..]);
    }
  }

  lemma {:induction false} LexAntisymmetric(a: string, b: string)
    requires LexLeq(a, b) && LexLeq(b, a)
    ensures a == b
  {
    if a != "" && b != "" {
      LexAntisymmetric(a[1..], b[1..]);
      assert a == [a[0]] + a[1..] && b == [b[0]] + b[1..];
    }
  }

  lemma {:induction false} LexTransitive(a: string, b: string, c: string)
    requires LexLeq(a, b) && LexLeq(b, c)
    ensures LexLeq(a, c)
  {
    if a != "" && a[0] == b[0] && b[0] == c[0] {
      LexTransitive(a[1..], b[1..], c[1..]);
    }
  }

  predicate IsFirst(s: set<string>, first: string) {
    first in s && forall x | x in s :: LexLeq(first, x)
  }

  lemma {:induction false} FirstExists(s: set<string>)
    requires s != {}
    ensures exists first :: IsFirst(s, first)
  {
    var x :| x in s;
    LexReflexive(x);
    if s == {x} {
      assert IsFirst(s, x);
    } else {
      var rest := s - {x};
      FirstExists(rest);
      var other :| IsFirst(rest, other);
      LexTotal(x, other);
      var first := if LexLeq(x, other) then x else other;
      forall y | y in s ensures LexLeq(first, y) {
        if y != x {
          assert y in rest;
          LexTransitive(first, other, y);
        }
      }
      assert IsFirst(s, first);
    }
  }

  lemma FirstIsUnique(s: set<string>)
    ensures forall x, y | IsFirst(s, x) && IsFirst(s, y) :: x == y
  {
    forall x, y | IsFirst(s, x) && IsFirst(s, y) ensures x == y {
      LexAntisymmetric(x, y);
    }
  }

  // `ORDER BY`: the members of `s`, smallest first.
  function Sorted(s: set<string>): seq<string>
    decreases s
  {
    if s == {} then []
    else
      FirstExists(s);
      FirstIsUnique(s);
      var first :| first in s && IsFirst(s, first);
      [first] + Sorted(s - {first})
  }

  ghost predicate StrictlyIncreasing(xs: seq<string>) {
    forall i, j | 0 <= i < j < |xs| :: LexLeq(xs[i], xs[j]) && xs[i] != xs[j]
  }

  /** The listing has exactly the members of the set, in strictly increasing order, so without duplicates. */
  lemma {:induction false} SortedLists(s: set<string>)
    ensures StrictlyIncreasing(Sorted(s))
    ensures forall x :: x in Sorted(s) <==> x in s
    decreases s
  {
    if s != {} {
      var xs := Sorted(s);
      var first := xs[0];
      assert xs[1..] == Sorted(s - {first}) && IsFirst(s, first);
      SortedLists(s - {first});
      forall i, j | 0 <= i < j < |xs| ensures LexLeq(xs[i], xs[j]) && xs[i] != xs[j] {
        assert xs[j] == xs[1..][j - 1] && xs[j] in s - {first};
        if i > 0 {
          assert xs[i] == xs[1..][i - 1];
        }
      }
      assert forall x :: x in xs <==> x == first || x in xs[1..];
    }
  }

  /** No other listing of the set is in strictly increasing order. */
  lemma {:induction false} SortedIsUnique(s: set<string>, xs: seq<string>)
    requires StrictlyIncreasing(xs) && forall x :: x in xs <==> x in s
    ensures xs == Sorted(s)
    decreases |xs|
  {
    if xs == [] {
      assert forall x | x in s :: x in xs;
      assert s == {};
    } else {
      var first := xs[0];
      assert first in xs;
      forall x | x in s ensures LexLeq(first, x) {
        var i :| 0 <= i < |xs| && xs[i] == x;
        LexReflexive(first);
      }
      var ys := Sorted(s);
      assert IsFirst(s, ys[0]);
      LexAntisymmetric(first, ys[0]);
      forall x ensures x in xs[1..] <==> x in s - {first} {
        if x in xs[1..] {
          var i :| 0 <= i < |xs[1..]| && xs[1..][i] == x;
          assert xs[i + 1] == x;
        }
        if x in s - {first} {
          var i :| 0 <= i < |xs| && xs[i] == x;
          assert xs[1..][i - 1] == x;
        }
      }
      SortedIsUnique(s - {first}, xs[1..]);
      assert xs == [first] + xs[1..];
    }
  }

  /** The order: a prefix comes first, and otherwise the smaller character where two texts first differ decides. */
  lemma {:induction false} LexMeans(a: string, b: string)
    ensures LexLeq(a, b) <==>
            a <= b || exists i :: 0 <= i < |a| && i < |b| && a[..i] == b[..i] && a[i] < b[i]
  {
    if a != "" && b != "" {
      LexMeans(a[1..], b[1..]);
      assert a == [a[0]] + a[1..] && b == [b[0]] + b[1..];
      if a[0] == b[0] {
        if i :| 0 <= i < |a| && i < |b| && a[..i] == b[..i] && a[i] < b[i] {
          assert i > 0 && a[1..][..i - 1] == a[1..i] == a[..i][1..] == b[..i][1..] == b[1..][..i - 1];
          assert a[1..][i - 1] < b[1..][i - 1];
        }
        if j :| 0 <= j < |a| - 1 && j < |b| - 1 && a[1..][..j] == b[1..][..j] && a[1..][j] < b[1..][j] {
          assert a[..j + 1] == [a[0]] + a[1..][..j] && b[..j + 1] == [b[0]] + b[1..][..j];
          assert a[j + 1] < b[j + 1];
        }
      } else if a[0] < b[0] {
        assert a[..0] == b[..0] && a[0] < b[0];
      } else {
        assert forall i | 0 < i < |a| && i < |b| :: a[..i][0] == a[0] && b[..i][0] == b[0];
      }
    }
  }
}
