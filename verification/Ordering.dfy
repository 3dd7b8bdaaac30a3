/** Strings in code point order, and the one sorted listing of a collection of them. */
module Ordering {

  /** `a` comes no later than `b`, as Python orders strings. */
  predicate Leq(a: string, b: string) {
    a == "" || (b != "" && (a[0] < b[0] || (a[0] == b[0] && Leq(a[1..], b[1..]))))
  }

  lemma {:induction false} LeqReflexive(a: string)
    ensures Leq(a, a)
  {
    if a != "" {
      LeqReflexive(a[1..]);
    }
  }

  lemma {:induction false} LeqTotal(a: string, b: string)
    ensures Leq(a, b) || Leq(b, a)
  {
    if a != "" && b != "" && a[0] == b[0] {
      LeqTotal(a[1..], b[1..]);
    }
  }

  lemma {:induction false} LeqAntisymmetric(a: string, b: string)
    requires Leq(a, b) && Leq(b, a)
    ensures a == b
  {
    if a != "" && b != "" {
      LeqAntisymmetric(a[1..], b[1..]);
      assert a == [a[0]] + a[1..] && b == [b[0]] + b[1..];
    }
  }

  lemma {:induction false} LeqTransitive(a: string, b: string, c: string)
    requires Leq(a, b) && Leq(b, c)
    ensures Leq(a, c)
  {
    if a != "" && a[0] == b[0] && b[0] == c[0] {
      LeqTransitive(a[1..], b[1..], c[1..]);
    }
  }

  predicate SmallerAt(a: string, b: string, k: nat) {
    k < |a| && k < |b| && a[..k] == b[..k] && a[k] < b[k]
  }

  lemma {:induction false} LaterLeq(a: string, b: string, k: nat)
    requires SmallerAt(a, b, k)
    ensures Leq(a, b)
    decreases k
  {
    if k > 0 {
      assert a[0] == a[..k][0] == b[..k][0] == b[0];
      assert a[1..][..k - 1] == a[..k][1..] && b[1..][..k - 1] == b[..k][1..];
      LaterLeq(a[1..], b[1..], k - 1);
    }
  }

  lemma {:induction false} PrefixLeq(a: string, b: string)
    requires a <= b
    ensures Leq(a, b)
  {
    if a != "" {
      PrefixLeq(a[1..], b[1..]);
    }
  }

  lemma {:induction false} FirstDifference(a: string, b: string)
    requires Leq(a, b)
    ensures a <= b || exists k: nat :: SmallerAt(a, b, k)
    decreases |a|
  {
    if a != "" && a[0] == b[0] {
      FirstDifference(a[1..], b[1..]);
      if k: nat :| SmallerAt(a[1..], b[1..], k) {
        assert a[..k + 1] == [a[0]] + a[1..][..k] && b[..k + 1] == [b[0]] + b[1..][..k];
        assert SmallerAt(a, b, k + 1);
      }
    } else if a != "" {
      assert SmallerAt(a, b, 0);
    }
  }

  /** `a` is a beginning of `b`, or smaller at the first place where they differ. */
  lemma LeqMeans(a: string, b: string)
    ensures Leq(a, b) <==> a <= b || exists k: nat :: SmallerAt(a, b, k)
  {
    hide Leq, SmallerAt;
    if Leq(a, b) {
      FirstDifference(a, b);
    }
    if a <= b {
      PrefixLeq(a, b);
    }
    if k: nat :| SmallerAt(a, b, k) {
      LaterLeq(a, b, k);
    }
  }

  predicate Ascending(s: seq<string>) {
    forall i, j :: 0 <= i < j < |s| ==> Leq(s[i], s[j])
  }

  predicate Before(x: string, s: seq<string>) { forall i :: 0 <= i < |s| ==> Leq(x, s[i]) }

  function Insert(x: string, s: seq<string>): (r: seq<string>)
    requires Ascending(s)
    ensures multiset(r) == multiset(s) + multiset{x}
    ensures Ascending(r)
  {
    if s == [] then [x]
    else if Leq(x, s[0]) then
      InsertFront(x, s);
      [x] + s
    else
      var rest := Insert(x, s[1..]);
      InsertLater(x, s, rest);
      [s[0]] + rest
  }

  lemma InsertFront(x: string, s: seq<string>)
    requires s != [] && Ascending(s) && Leq(x, s[0])
    ensures Ascending([x] + s)
  {
    forall i | 0 <= i < |s|
      ensures Leq(x, s[i])
    {
      if i > 0 {
        LeqTransitive(x, s[0], s[i]);
      }
    }
  }

  lemma InsertLater(x: string, s: seq<string>, rest: seq<string>)
    requires s != [] && Ascending(s) && !Leq(x, s[0]) && Ascending(rest)
    requires multiset(rest) == multiset(s[1..]) + multiset{x}
    ensures Ascending([s[0]] + rest)
    ensures multiset([s[0]] + rest) == multiset(s) + multiset{x}
  {
    LeqTotal(x, s[0]);
    forall i | 0 <= i < |rest|
      ensures Leq(s[0], rest[i])
    {
      assert rest[i] in multiset(rest);
      if rest[i] != x {
        assert rest[i] in multiset(s[1..]);
        var k :| 0 <= k < |s[1..]| && s[1..][k] == rest[i];
        assert s[k + 1] == rest[i];
      }
    }
    assert s == [s[0]] + s[1..];
  }

  /** Python's `sorted` on strings. */
  function Sort(s: seq<string>): (r: seq<string>)
    ensures multiset(r) == multiset(s) && Ascending(r)
  {
    if s == [] then []
    else
      assert s == [s[0]] + s[1..];
      Insert(s[0], Sort(s[1..]))
  }

  lemma HeadIsLeast(s: seq<string>, x: string)
    requires s != [] && Ascending(s) && x in multiset(s)
    ensures Leq(s[0], x)
  {
    var i :| 0 <= i < |s| && s[i] == x;
    LeqReflexive(s[0]);
  }

  lemma LeastFirst(s: seq<string>, t: seq<string>)
    requires s != [] && Ascending(s) && Ascending(t) && multiset(s) == multiset(t)
    ensures t != [] && s[0] == t[0] && multiset(s[1..]) == multiset(t[1..])
  {
    hide Leq, Ascending;
    assert s[0] in multiset(s) && s[0] in multiset(t);
    assert t != [];
    assert t[0] in multiset(t);
    HeadIsLeast(s, t[0]);
    HeadIsLeast(t, s[0]);
    LeqAntisymmetric(s[0], t[0]);
    TailLess(s);
    TailLess(t);
  }

  lemma TailLess(s: seq<string>)
    requires s != []
    ensures multiset(s[1..]) == multiset(s) - multiset{s[0]}
  {
    assert s == [s[0]] + s[1..];
  }

  /** There is one ascending arrangement of a multiset of strings. */
  lemma {:induction false} AscendingUnique(s: seq<string>, t: seq<string>)
    requires Ascending(s) && Ascending(t) && multiset(s) == multiset(t)
    ensures s == t
  {
    if s == [] {
      assert |multiset(t)| == 0;
    } else {
      LeastFirst(s, t);
      AscendingUnique(s[1..], t[1..]);
      assert s == [s[0]] + s[1..] && t == [t[0]] + t[1..];
    }
  }

  /** Sorting forgets the order it was given. */
  lemma SortForgetsOrder(s: seq<string>, t: seq<string>)
    requires multiset(s) == multiset(t)
    ensures Sort(s) == Sort(t)
  {
    AscendingUnique(Sort(s), Sort(t));
  }

  // -- sets --------------------------------------------------------------------------------

  predicate IsLeast(m: string, s: set<string>) { m in s && forall x :: x in s ==> Leq(m, x) }

  lemma {:induction false} LeastExists(s: set<string>)
    requires s != {}
    ensures exists m :: IsLeast(m, s)
    decreases |s|
  {
    var x :| x in s;
    var rest := s - {x};
    LeqReflexive(x);
    if rest == {} {
      assert s == {x};
      assert IsLeast(x, s);
    } else {
      LeastExists(rest);
      var m :| IsLeast(m, rest);
      LeqTotal(x, m);
      if Leq(x, m) {
        forall y | y in s
          ensures Leq(x, y)
        {
          if y != x {
            LeqTransitive(x, m, y);
          }
        }
        assert IsLeast(x, s);
      } else {
        assert forall y :: y in s ==> y == x || y in rest;
        assert IsLeast(m, s);
      }
    }
  }

  lemma LeastUnique(m: string, n: string, s: set<string>)
    requires IsLeast(m, s) && IsLeast(n, s)
    ensures m == n
  {
    LeqAntisymmetric(m, n);
  }

  function Least(s: set<string>): (m: string)
    requires s != {}
    ensures IsLeast(m, s)
  {
    LeastExists(s);
    assert forall m, n | IsLeast(m, s) && IsLeast(n, s) :: m == n by {
      forall m, n | IsLeast(m, s) && IsLeast(n, s)
        ensures m == n
      {
        LeastUnique(m, n, s);
      }
    }
    var m :| IsLeast(m, s);
    m
  }

  /** The members of a set in order, each once. */
  function Listing(s: set<string>): (r: seq<string>)
    ensures forall x :: x in r <==> x in s
    ensures Ascending(r) && |r| == |s|
    decreases |s|
  {
    if s == {} then []
    else
      var m := Least(s);
      var rest := Listing(s - {m});
      assert forall i :: 0 <= i < |rest| ==> rest[i] in rest;
      assert forall x :: x in [m] + rest <==> x == m || x in rest;
      [m] + rest
  }
}
