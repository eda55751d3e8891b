/** The sorted list of a set of names, by code point. */
module SortedNames {

  /** `a` comes no later than `b`. */
  predicate Before(a: string, b: string) {
    a == "" || (b != "" && (a[0] < b[0] || (a[0] == b[0] && Before(a[1..], b[1..]))))
  }

  /** The names agree in front of some place, where the first has the smaller character. */
  predicate SmallerAt(a: string, b: string, k: nat) {
    k < |a| && k < |b| && a[..k] == b[..k] && a[k] < b[k]
  }

  /** A name comes no later than another exactly when it begins it or is smaller where they first differ. */
  lemma {:induction false} BeforeMeans(a: string, b: string)
    ensures Before(a, b) <==> a <= b || exists k: nat :: SmallerAt(a, b, k)
  {
    if a != "" && b != "" {
      if a[0] < b[0] {
        assert SmallerAt(a, b, 0);
      } else if a[0] == b[0] {
        BeforeMeans(a[1..], b[1..]);
        assert a == [a[0]] + a[1..] && b == [b[0]] + b[1..];
        if k: nat :| SmallerAt(a[1..], b[1..], k) {
          assert a[..k + 1] == [a[0]] + a[1..][..k] && b[..k + 1] == [b[0]] + b[1..][..k];
          assert SmallerAt(a, b, k + 1);
        }
        if k: nat :| SmallerAt(a, b, k) {
          assert a[1..][..k - 1] == a[..k][1..] && b[1..][..k - 1] == b[..k][1..];
          assert SmallerAt(a[1..], b[1..], k - 1);
        }
      } else {
        assert forall k: nat :: SmallerAt(a, b, k) ==> k > 0 && a[..k][0] == b[..k][0];
      }
    }
  }

  lemma {:induction false} BeforeIsTotal(a: string, b: string)
    ensures Before(a, b) || Before(b, a)
    ensures Before(a, b) && Before(b, a) ==> a == b
  {
    if a != "" && b != "" && a[0] == b[0] {
      BeforeIsTotal(a[1..], b[1..]);
      assert a == [a[0]] + a[1..] && b == [b[0]] + b[1..];
    }
  }

  lemma {:induction false} BeforeIsTransitive(a: string, b: string, c: string)
    requires Before(a, b) && Before(b, c)
    ensures Before(a, c)
  {
    if a != "" && a[0] == b[0] == c[0] {
      BeforeIsTransitive(a[1..], b[1..], c[1..]);
    }
  }

  predicate IsFirst(m: string, s: set<string>) {
    m in s && forall x :: x in s ==> Before(m, x)
  }

  lemma {:induction false} FirstExists(s: set<string>) returns (m: string)
    requires s != {}
    ensures IsFirst(m, s)
  {
    var x :| x in s;
    BeforeIsTotal(x, x);
    if s == {x} {
      m := x;
    } else {
      var y := FirstExists(s - {x});
      BeforeIsTotal(x, y);
      m := if Before(x, y) then x else y;
      forall z | z in s ensures Before(m, z) {
        if z != x && m == x {
          BeforeIsTransitive(x, y, z);
        }
      }
    }
  }

  lemma FirstIsUnique(s: set<string>, a: string, b: string)
    requires IsFirst(a, s) && IsFirst(b, s)
    ensures a == b
  {
    BeforeIsTotal(a, b);
  }

  lemma OneFirst(s: set<string>)
    requires s != {}
    ensures exists m :: IsFirst(m, s)
    ensures forall a, b :: IsFirst(a, s) && IsFirst(b, s) ==> a == b
  {
    var m := FirstExists(s);
    forall a, b | IsFirst(a, s) && IsFirst(b, s) ensures a == b {
      FirstIsUnique(s, a, b);
    }
  }

  function Sorted(s: set<string>): (r: seq<string>)
    ensures forall x :: x in r <==> x in s
    decreases |s|
  {
    if s == {} then []
    else
      OneFirst(s);
      var m :| IsFirst(m, s);
      [m] + Sorted(s - {m})
  }

  /** Each name comes strictly later than those in front of it. */
  predicate Ascending(r: seq<string>) {
    forall i, j :: 0 <= i < j < |r| ==> Before(r[i], r[j]) && r[i] != r[j]
  }

  lemma FirstThenAscending(m: string, rest: seq<string>, s: set<string>)
    requires IsFirst(m, s) && Ascending(rest) && forall x :: x in rest ==> x in s - {m}
    ensures Ascending([m] + rest)
  {
    hide Before;
    var r := [m] + rest;
    forall i, j | 0 <= i < j < |r| ensures Before(r[i], r[j]) && r[i] != r[j] {
      assert r[j] == rest[j - 1] && rest[j - 1] in rest;
      assert i > 0 ==> r[i] == rest[i - 1];
    }
  }

  lemma {:induction false} SortedAscends(s: set<string>)
    ensures Ascending(Sorted(s))
    decreases |s|
  {
    if s != {} {
      var m := Sorted(s)[0];
      OneFirst(s);
      assert IsFirst(m, s) && Sorted(s) == [m] + Sorted(s - {m});
      SortedAscends(s - {m});
      FirstThenAscending(m, Sorted(s - {m}), s);
    }
  }

  /** A set has no other ascending list. */
  lemma {:induction false} SortedIsOnly(r: seq<string>, s: set<string>)
    requires Ascending(r) && forall x :: x in r <==> x in s
    ensures r == Sorted(s)
  {
    if r == [] {
      assert s == {};
    } else {
      var m := r[0];
      assert m in r;
      BeforeIsTotal(m, m);
      assert IsFirst(m, s);
      OneFirst(s);
      var rest := r[1..];
      forall x ensures x in rest <==> x in s - {m} {
        if x in s - {m} {
          var i :| 0 <= i < |r| && r[i] == x;
          assert rest[i - 1] == x;
        }
      }
      SortedIsOnly(rest, s - {m});
    }
  }
}
