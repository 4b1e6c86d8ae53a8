/** Python's `sorted` and `list.sort`: a stable sort by a total preorder. */
module Sorting {
  ghost predicate TotalPreorder<T(!new)>(le: (T, T) -> bool) {
    && (forall a, b :: le(a, b) || le(b, a))
    && (forall a, b, c :: le(a, b) && le(b, c) ==> le(a, c))
  }

  predicate SortedBy<T>(s: seq<T>, le: (T, T) -> bool) {
    forall i, j :: 0 <= i < j < |s| ==> le(s[i], s[j])
  }

  /** Puts `x` after every element it does not precede. */
  function Insert<T>(s: seq<T>, x: T, le: (T, T) -> bool): seq<T> {
    if s == [] then [x]
    else if le(s[|s| - 1], x) then s + [x]
    else Insert(s[..|s| - 1], x, le) + [s[|s| - 1]]
  }

  function Sorted<T>(s: seq<T>, le: (T, T) -> bool): seq<T> {
    if s == [] then [] else Insert(Sorted(s[..|s| - 1], le), s[|s| - 1], le)
  }

  /** The elements that tie with `pivot`, in order. */
  function Ties<T>(s: seq<T>, pivot: T, le: (T, T) -> bool): seq<T> {
    if s == [] then []
    else
      var before, last := Ties(s[..|s| - 1], pivot, le), s[|s| - 1];
      if le(last, pivot) && le(pivot, last) then before + [last] else before
  }

  lemma SameLength<T>(a: seq<T>, b: seq<T>)
    requires multiset(a) == multiset(b)
    ensures |a| == |b| && forall x :: x in a <==> x in b
  {
    assert |a| == |multiset(a)| == |multiset(b)| == |b|;
    forall x ensures x in a <==> x in b {
      assert x in a <==> x in multiset(a);
    }
  }

  lemma TwiceThere<T>(s: seq<T>, i: nat, j: nat)
    requires i < j < |s| && s[i] == s[j]
    ensures multiset(s)[s[i]] >= 2
  {
    assert s == s[..j] + [s[j]] + s[j + 1..];
    assert s[i] in s[..j];
    assert s[i] in multiset(s[..j]);
    assert multiset(s) == multiset(s[..j]) + multiset([s[j]]) + multiset(s[j + 1..]);
  }

  lemma OnceThere<T>(s: seq<T>, a: nat)
    requires a < |s| && forall b :: 0 <= b < |s| && b != a ==> s[b] != s[a]
    ensures multiset(s)[s[a]] == 1
  {
    assert s == s[..a] + [s[a]] + s[a + 1..];
    assert s[a] !in s[..a] && s[a] !in s[a + 1..];
    assert s[a] !in multiset(s[..a]) && s[a] !in multiset(s[a + 1..]);
    assert multiset(s) == multiset(s[..a]) + multiset([s[a]]) + multiset(s[a + 1..]);
  }

  /** A rearrangement of a sequence without repetition has none. */
  lemma PermutedApart<T>(a: seq<T>, b: seq<T>)
    requires multiset(a) == multiset(b)
    requires forall i, j :: 0 <= i < j < |a| ==> a[i] != a[j]
    ensures forall i, j :: 0 <= i < j < |b| ==> b[i] != b[j]
  {
    SameLength(a, b);
    forall i, j | 0 <= i < j < |b| ensures b[i] != b[j] {
      assert b[i] in a;
      var k :| 0 <= k < |a| && a[k] == b[i];
      OnceThere(a, k);
      if b[i] == b[j] {
        TwiceThere(b, i, j);
      }
    }
  }

  lemma {:induction false} InsertAdds<T>(s: seq<T>, x: T, le: (T, T) -> bool)
    ensures multiset(Insert(s, x, le)) == multiset(s) + multiset{x}
  {
    if s != [] {
      InsertAdds(s[..|s| - 1], x, le);
      assert s == s[..|s| - 1] + [s[|s| - 1]];
    }
  }

  lemma {:induction false} InsertSorts<T(!new)>(s: seq<T>, x: T, le: (T, T) -> bool)
    requires TotalPreorder(le) && SortedBy(s, le)
    ensures SortedBy(Insert(s, x, le), le)
    ensures multiset(Insert(s, x, le)) == multiset(s) + multiset{x}
  {
    InsertAdds(s, x, le);
    if s != [] {
      var init, last := s[..|s| - 1], s[|s| - 1];
      assert s == init + [last];
      if !le(last, x) {
        InsertSorts(init, x, le);
        var t := Insert(init, x, le);
        forall e | e in t ensures le(e, last) {
          assert e in multiset(t);
          if e != x {
            assert e in init;
          }
        }
      } else {
        forall e | e in s ensures le(e, x) {
          assert e == last || le(e, last);
        }
      }
    }
  }

  lemma {:induction false} InsertTies<T(!new)>(s: seq<T>, x: T, pivot: T, le: (T, T) -> bool)
    requires TotalPreorder(le) && SortedBy(s, le)
    ensures Ties(Insert(s, x, le), pivot, le) == Ties(s + [x], pivot, le)
  {
    assert (s + [x])[..|s|] == s;
    if s != [] && !le(s[|s| - 1], x) {
      var init, last := s[..|s| - 1], s[|s| - 1];
      InsertTies(init, x, pivot, le);
      var t := Insert(init, x, le);
      assert (t + [last])[..|t|] == t && (init + [x])[..|init|] == init;
      assert le(last, pivot) && le(pivot, x) ==> le(last, x);
    }
  }

  /** A sorted permutation in which ties keep their order. */
  lemma {:induction false} SortsStably<T(!new)>(s: seq<T>, le: (T, T) -> bool)
    requires TotalPreorder(le)
    ensures SortedBy(Sorted(s, le), le)
    ensures multiset(Sorted(s, le)) == multiset(s)
    ensures forall pivot :: Ties(Sorted(s, le), pivot, le) == Ties(s, pivot, le)
  {
    if s != [] {
      var init, last := s[..|s| - 1], s[|s| - 1];
      assert s == init + [last];
      SortsStably(init, le);
      InsertSorts(Sorted(init, le), last, le);
      forall pivot ensures Ties(Sorted(s, le), pivot, le) == Ties(s, pivot, le) {
        InsertTies(Sorted(init, le), last, pivot, le);
        assert (Sorted(init, le) + [last])[..|init|] == Sorted(init, le) by {
          SameLength(Sorted(init, le), init);
        }
      }
    }
  }

  lemma LastTies<T>(a: seq<T>, b: seq<T>, le: (T, T) -> bool)
    requires SortedBy(a, le) && SortedBy(b, le) && |a| == |b| > 0 && forall x :: x in a <==> x in b
    requires forall x, y :: x in a && y in a && le(x, y) && le(y, x) ==> x == y
    ensures a[|a| - 1] == b[|b| - 1]
  {
    var n := |a| - 1;
    assert a[n] in b && b[n] in a;
    var i :| 0 <= i < |b| && b[i] == a[n];
    var j :| 0 <= j < |a| && a[j] == b[n];
  }

  /** Without ties there is only one sorted permutation. */
  lemma {:induction false} SortedUnique<T>(a: seq<T>, b: seq<T>, le: (T, T) -> bool)
    requires SortedBy(a, le) && SortedBy(b, le) && multiset(a) == multiset(b)
    requires forall x, y :: x in a && y in a && le(x, y) && le(y, x) ==> x == y
    ensures a == b
  {
    SameLength(a, b);
    if a != [] {
      var n := |a| - 1;
      LastTies(a, b, le);
      DropLast(a, b);
      assert a == a[..n] + [a[n]] && b == b[..n] + [b[n]];
      SortedUnique(a[..n], b[..n], le);
    }
  }

  lemma DropLast<T>(a: seq<T>, b: seq<T>)
    requires |a| == |b| > 0 && a[|a| - 1] == b[|b| - 1] && multiset(a) == multiset(b)
    ensures multiset(a[..|a| - 1]) == multiset(b[..|b| - 1])
  {
    var n := |a| - 1;
    assert a == a[..n] + [a[n]] && b == b[..n] + [b[n]];
    assert multiset(a[..n]) == multiset(a) - multiset{a[n]};
    assert multiset(b[..n]) == multiset(b) - multiset{b[n]};
  }
}
