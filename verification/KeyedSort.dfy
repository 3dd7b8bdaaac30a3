/** Sorting pairs by their string key. */
module KeyedSort {
  import opened Ordering

  function Keys<T>(s: seq<(string, T)>): (r: seq<string>)
    ensures |r| == |s| && forall i :: 0 <= i < |s| ==> r[i] == s[i].0
  {
    seq(|s|, i requires 0 <= i < |s| => s[i].0)
  }

  predicate Sorted<T>(s: seq<(string, T)>) { forall i, j :: 0 <= i < j < |s| ==> Leq(s[i].0, s[j].0) }

  function InsertBy<T>(x: (string, T), s: seq<(string, T)>): (r: seq<(string, T)>) {
    if s == [] then [x] else if Leq(x.0, s[0].0) then [x] + s else [s[0]] + InsertBy(x, s[1..])
  }

  function SortBy<T>(s: seq<(string, T)>): (r: seq<(string, T)>) {
    if s == [] then [] else InsertBy(s[0], SortBy(s[1..]))
  }

  lemma FrontKeeps<T>(x: (string, T), s: seq<(string, T)>)
    requires s != [] && Sorted(s) && Leq(x.0, s[0].0)
    ensures Sorted([x] + s) && multiset([x] + s) == multiset(s) + multiset{x}
  {
    hide Leq;
    forall i | 0 <= i < |s|
      ensures Leq(x.0, s[i].0)
    {
      if i > 0 {
        LeqTransitive(x.0, s[0].0, s[i].0);
      }
    }
  }

  lemma LaterKeeps<T>(x: (string, T), s: seq<(string, T)>, rest: seq<(string, T)>)
    requires s != [] && Sorted(s) && !Leq(x.0, s[0].0)
    requires Sorted(rest) && multiset(rest) == multiset(s[1..]) + multiset{x}
    ensures Sorted([s[0]] + rest) && multiset([s[0]] + rest) == multiset(s) + multiset{x}
  {
    hide Leq;
    LeqTotal(x.0, s[0].0);
    forall i | 0 <= i < |rest|
      ensures Leq(s[0].0, rest[i].0)
    {
      assert rest[i] in multiset(rest);
      if rest[i] != x {
        assert rest[i] in s[1..];
      }
    }
    assert s == [s[0]] + s[1..];
  }

  lemma {:induction false} InsertKeeps<T>(x: (string, T), s: seq<(string, T)>)
    requires Sorted(s)
    ensures Sorted(InsertBy(x, s)) && multiset(InsertBy(x, s)) == multiset(s) + multiset{x}
  {
    hide Leq;
    if s != [] {
      if Leq(x.0, s[0].0) {
        FrontKeeps(x, s);
      } else {
        InsertKeeps(x, s[1..]);
        LaterKeeps(x, s, InsertBy(x, s[1..]));
      }
    }
  }

  lemma {:induction false} SortKeeps<T>(s: seq<(string, T)>)
    ensures Sorted(SortBy(s)) && multiset(SortBy(s)) == multiset(s)
  {
    if s != [] {
      SortKeeps(s[1..]);
      InsertKeeps(s[0], SortBy(s[1..]));
      assert s == [s[0]] + s[1..];
    }
  }

  /** Pairs that share a key are the same pair. */
  ghost predicate Functional<T(!new)>(m: multiset<(string, T)>) {
    forall x, y :: x in m && y in m && x.0 == y.0 ==> x == y
  }

  lemma HeadKeyLeast<T>(s: seq<(string, T)>, x: (string, T))
    requires s != [] && Sorted(s) && x in multiset(s)
    ensures Leq(s[0].0, x.0)
  {
    var i :| 0 <= i < |s| && s[i] == x;
    LeqReflexive(s[0].0);
  }

  lemma LeastPairFirst<T(!new)>(s: seq<(string, T)>, t: seq<(string, T)>)
    requires s != [] && Sorted(s) && Sorted(t) && multiset(s) == multiset(t) && Functional(multiset(s))
    ensures t != [] && s[0] == t[0]
  {
    hide Leq, Sorted;
    assert s[0] in multiset(s) && s[0] in multiset(t);
    assert t[0] in multiset(t);
    HeadKeyLeast(s, t[0]);
    HeadKeyLeast(t, s[0]);
    LeqAntisymmetric(s[0].0, t[0].0);
  }

  lemma TailKeeps<T(!new)>(s: seq<(string, T)>)
    requires s != [] && Sorted(s) && Functional(multiset(s))
    ensures multiset(s[1..]) == multiset(s) - multiset{s[0]}
    ensures Sorted(s[1..]) && Functional(multiset(s[1..]))
  {
    hide Leq;
    assert s == [s[0]] + s[1..];
  }

  /** There is one sorted arrangement of such pairs. */
  lemma {:induction false} SortedUnique<T(!new)>(s: seq<(string, T)>, t: seq<(string, T)>)
    requires Sorted(s) && Sorted(t) && multiset(s) == multiset(t) && Functional(multiset(s))
    ensures s == t
  {
    hide Leq, Functional, Sorted;
    if s == [] {
      assert |multiset(t)| == 0;
    } else {
      LeastPairFirst(s, t);
      TailKeeps(s);
      TailKeeps(t);
      SortedUnique(s[1..], t[1..]);
      assert s == [s[0]] + s[1..] && t == [t[0]] + t[1..];
    }
  }

  lemma SortForgets<T(!new)>(s: seq<(string, T)>, t: seq<(string, T)>)
    requires multiset(s) == multiset(t) && Functional(multiset(s))
    ensures SortBy(s) == SortBy(t)
  {
    SortKeeps(s);
    SortKeeps(t);
    SortedUnique(SortBy(s), SortBy(t));
  }

  // -- values changed, keys kept -----------------------------------------------------------

  function MapValues<A, B>(f: A -> B, s: seq<(string, A)>): (r: seq<(string, B)>)
    ensures |r| == |s| && forall i :: 0 <= i < |s| ==> r[i] == (s[i].0, f(s[i].1))
  {
    seq(|s|, i requires 0 <= i < |s| => (s[i].0, f(s[i].1)))
  }

  lemma {:induction false} MapInsert<A, B>(f: A -> B, x: (string, A), s: seq<(string, A)>)
    ensures MapValues(f, InsertBy(x, s)) == InsertBy((x.0, f(x.1)), MapValues(f, s))
  {
    if s != [] && !Leq(x.0, s[0].0) {
      MapInsert(f, x, s[1..]);
      assert MapValues(f, s)[1..] == MapValues(f, s[1..]);
    }
  }

  lemma {:induction false} MapSort<A, B>(f: A -> B, s: seq<(string, A)>)
    ensures MapValues(f, SortBy(s)) == SortBy(MapValues(f, s))
  {
    if s != [] {
      MapSort(f, s[1..]);
      MapInsert(f, s[0], SortBy(s[1..]));
      assert MapValues(f, s)[1..] == MapValues(f, s[1..]);
    }
  }

  lemma {:induction false} KeysInsert<T>(x: (string, T), s: seq<(string, T)>)
    requires Sorted(s)
    ensures Keys(InsertBy(x, s)) == Insert(x.0, Keys(s))
  {
    if s != [] && !Leq(x.0, s[0].0) {
      KeysInsert(x, s[1..]);
      assert Keys(s)[1..] == Keys(s[1..]);
    }
  }

  lemma {:induction false} SortedKeys<T>(s: seq<(string, T)>)
    ensures Keys(SortBy(s)) == Sort(Keys(s))
  {
    if s != [] {
      SortedKeys(s[1..]);
      SortKeeps(s[1..]);
      KeysInsert(s[0], SortBy(s[1..]));
      assert Keys(s)[1..] == Keys(s[1..]);
    }
  }
}
