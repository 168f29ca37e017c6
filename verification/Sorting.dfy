// Stable sorting, as ORDER BY ..., id and Kotlin's sortedWith do it.

module Sorting {

  ghost predicate Orders<T(!new)>(le: (T, T) -> bool) {
    && (forall x, y :: le(x, y) || le(y, x))
    && (forall x, y, z :: le(x, y) && le(y, z) ==> le(x, z))
  }

  ghost predicate Sorted<T>(le: (T, T) -> bool, s: seq<T>) {
    forall i, j :: 0 <= i < j < |s| ==> le(s[i], s[j])
  }

  /** x goes behind every element it does not precede. */
  function Insert<T>(le: (T, T) -> bool, x: T, s: seq<T>): (out: seq<T>)
    ensures |out| == |s| + 1
  {
    if |s| == 0 || le(s[|s| - 1], x) then s + [x]
    else Insert(le, x, s[..|s| - 1]) + [s[|s| - 1]]
  }

  function Sort<T>(le: (T, T) -> bool, s: seq<T>): (out: seq<T>)
    ensures |out| == |s|
  {
    if |s| == 0 then [] else Insert(le, s[|s| - 1], Sort(le, s[..|s| - 1]))
  }

  lemma {:induction false} InsertAdds<T>(le: (T, T) -> bool, x: T, s: seq<T>)
    ensures multiset(Insert(le, x, s)) == multiset(s) + multiset{x}
  {
    if |s| > 0 && !le(s[|s| - 1], x) {
      InsertAdds(le, x, s[..|s| - 1]);
      assert s == s[..|s| - 1] + [s[|s| - 1]];
    }
  }

  lemma {:induction false} InsertSorts<T(!new)>(le: (T, T) -> bool, x: T, s: seq<T>)
    requires Orders(le) && Sorted(le, s)
    ensures Sorted(le, Insert(le, x, s))
  {
    if |s| == 0 {
    } else if le(s[|s| - 1], x) {
      forall i | 0 <= i < |s| ensures le(s[i], x) {
        assert i < |s| - 1 ==> le(s[i], s[|s| - 1]);
      }
    } else {
      var init, last := s[..|s| - 1], s[|s| - 1];
      InsertSorts(le, x, init);
      var out := Insert(le, x, init);
      InsertAdds(le, x, init);
      forall i | 0 <= i < |out| ensures le(out[i], last) {
        assert out[i] in multiset(out);
        if out[i] != x {
          assert out[i] in init;
        }
      }
    }
  }

  /** Sorting permutes and orders. */
  lemma {:induction false} SortSorts<T(!new)>(le: (T, T) -> bool, s: seq<T>)
    requires Orders(le)
    ensures Sorted(le, Sort(le, s)) && multiset(Sort(le, s)) == multiset(s)
  {
    if |s| > 0 {
      SortSorts(le, s[..|s| - 1]);
      InsertSorts(le, s[|s| - 1], Sort(le, s[..|s| - 1]));
      InsertAdds(le, s[|s| - 1], Sort(le, s[..|s| - 1]));
      assert s == s[..|s| - 1] + [s[|s| - 1]];
    }
  }

  lemma {:induction false} SortHas<T(!new)>(le: (T, T) -> bool, s: seq<T>, x: T)
    requires Orders(le)
    ensures x in Sort(le, s) <==> x in s
  {
    SortSorts(le, s);
    assert x in multiset(Sort(le, s)) <==> x in multiset(s);
  }

  /** The elements satisfying p, in order. */
  function Only<T(!new)>(p: T -> bool, s: seq<T>): (out: seq<T>)
    ensures |out| <= |s|
    ensures forall x :: x in out <==> x in s && p(x)
  {
    if |s| == 0 then []
    else if p(s[|s| - 1]) then Only(p, s[..|s| - 1]) + [s[|s| - 1]]
    else Only(p, s[..|s| - 1])
  }

  lemma {:induction false} OnlySum<T(!new)>(p: T -> bool, a: seq<T>, b: seq<T>)
    ensures Only(p, a + b) == Only(p, a) + Only(p, b)
  {
    if |b| == 0 {
      assert a + b == a;
    } else {
      assert (a + b)[..|a + b| - 1] == a + b[..|b| - 1];
      OnlySum(p, a, b[..|b| - 1]);
    }
  }

  /** Stability: elements that precede each other keep their order. */
  lemma {:induction false} InsertStable<T(!new)>(le: (T, T) -> bool, x: T, s: seq<T>, p: T -> bool)
    requires forall y :: p(y) && p(x) ==> le(y, x)
    ensures Only(p, Insert(le, x, s)) == Only(p, s + [x])
  {
    assert (s + [x])[..|s|] == s;
    if |s| > 0 && !le(s[|s| - 1], x) {
      var init, last := s[..|s| - 1], s[|s| - 1];
      InsertStable(le, x, init, p);
      assert (init + [x])[..|init|] == init;
      var out := Insert(le, x, init);
      assert (out + [last])[..|out|] == out;
    }
  }

  lemma {:induction false} SortStable<T(!new)>(le: (T, T) -> bool, s: seq<T>, p: T -> bool)
    requires forall x, y :: p(x) && p(y) ==> le(x, y)
    ensures Only(p, Sort(le, s)) == Only(p, s)
  {
    if |s| > 0 {
      var init, last := s[..|s| - 1], s[|s| - 1];
      SortStable(le, init, p);
      InsertStable(le, last, Sort(le, init), p);
      OnlySum(p, Sort(le, init), [last]);
      OnlySum(p, init, [last]);
      assert s == init + [last];
    }
  }

  /** No two different elements are tied. */
  ghost predicate Untied<T(!new)>(le: (T, T) -> bool, s: seq<T>) {
    forall x, y :: x in s && y in s && le(x, y) && le(y, x) ==> x == y
  }

  /** Two sorted lists of the same elements, no two of which are tied, are the same list. */
  lemma {:induction false} SortedIsUnique<T(!new)>(le: (T, T) -> bool, a: seq<T>, b: seq<T>)
    requires Sorted(le, a) && Sorted(le, b) && multiset(a) == multiset(b) && Untied(le, a)
    ensures a == b
  {
    hide Sorted, Untied;
    assert |multiset(a)| == |a| && |multiset(b)| == |b|;
    if |a| > 0 {
      var n := |a| - 1;
      SameLast(le, a, b);
      Initial(le, a);
      Initial(le, b);
      SortedIsUnique(le, a[..n], b[..n]);
      assert a == a[..n] + [a[n]] && b == b[..n] + [b[n]];
    }
  }

  lemma Initial<T(!new)>(le: (T, T) -> bool, s: seq<T>)
    requires Sorted(le, s) && |s| > 0
    ensures Sorted(le, s[..|s| - 1]) && multiset(s[..|s| - 1]) == multiset(s) - multiset{s[|s| - 1]}
    ensures Untied(le, s) ==> Untied(le, s[..|s| - 1])
  {
    assert s == s[..|s| - 1] + [s[|s| - 1]];
  }

  lemma SameLast<T(!new)>(le: (T, T) -> bool, a: seq<T>, b: seq<T>)
    requires Sorted(le, a) && Sorted(le, b) && multiset(a) == multiset(b) && |a| == |b| > 0 && Untied(le, a)
    ensures a[|a| - 1] == b[|b| - 1]
  {
    var x, y := a[|a| - 1], b[|b| - 1];
    assert x in multiset(b) && y in multiset(a);
    LastIsLargest(le, a, y);
    LastIsLargest(le, b, x);
  }

  lemma LastIsLargest<T(!new)>(le: (T, T) -> bool, s: seq<T>, x: T)
    requires Sorted(le, s) && x in s
    ensures le(x, s[|s| - 1]) || x == s[|s| - 1]
  {
    var i :| 0 <= i < |s| && s[i] == x;
    if i < |s| - 1 {
      assert le(s[i], s[|s| - 1]);
    }
  }

  lemma EmptyIfNone(s: set<int>)
    ensures (forall x: int :: x !in s) ==> s == {}
  {
    if forall x: int :: x !in s {
      assert s <= {};
    }
  }
}
