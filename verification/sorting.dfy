/** Sorting by a total preorder, and when the result is the only possible one. */
module Sorting {
  function Insert<T>(x: T, sorted: seq<T>, leq: (T, T) -> bool): seq<T> {
    if sorted == [] || leq(x, sorted[0]) then [x] + sorted else [sorted[0]] + Insert(x, sorted[1..], leq)
  }

  function Sort<T>(s: seq<T>, leq: (T, T) -> bool): seq<T> {
    if s == [] then [] else Insert(s[0], Sort(s[1..], leq), leq)
  }

  /** Neighbours are in order. */
  ghost predicate Sorted<T>(s: seq<T>, leq: (T, T) -> bool) {
    forall k | 0 < k < |s| :: leq(s[k - 1], s[k])
  }

  lemma {:induction false} InsertKeeps<T>(x: T, s: seq<T>, leq: (T, T) -> bool)
    requires forall a, b :: leq(a, b) || leq(b, a)
    ensures multiset(Insert(x, s, leq)) == multiset(s) + multiset{x}
    ensures Sorted(s, leq) ==> Sorted(Insert(x, s, leq), leq)
    ensures Insert(x, s, leq)[0] == x || (s != [] && Insert(x, s, leq)[0] == s[0])
  {
    if s != [] && !leq(x, s[0]) {
      InsertKeeps(x, s[1..], leq);
      assert s == [s[0]] + s[1..];
      var tail := Insert(x, s[1..], leq);
      if Sorted(s, leq) {
        assert Sorted(s[1..], leq) by {
          forall k | 0 < k < |s[1..]| ensures leq(s[1..][k - 1], s[1..][k]) { assert s[1..][k] == s[k + 1]; }
        }
        assert leq(s[0], tail[0]);
      }
    }
  }

  lemma {:induction false} SortKeeps<T>(s: seq<T>, leq: (T, T) -> bool)
    requires forall a, b :: leq(a, b) || leq(b, a)
    ensures multiset(Sort(s, leq)) == multiset(s) && Sorted(Sort(s, leq), leq)
  {
    if s != [] {
      SortKeeps(s[1..], leq);
      InsertKeeps(s[0], Sort(s[1..], leq), leq);
      assert s == [s[0]] + s[1..];
    }
  }

  lemma SameMembers<T>(a: seq<T>, b: seq<T>)
    requires multiset(a) == multiset(b)
    ensures forall x | x in a :: x in b
  {
    forall x | x in a ensures x in b {
      assert x in multiset(a);
    }
  }

  lemma {:induction false} SortedReaches<T>(s: seq<T>, leq: (T, T) -> bool, i: nat, j: nat)
    requires Sorted(s, leq) && i < j < |s|
    requires forall a, b, c :: leq(a, b) && leq(b, c) ==> leq(a, c)
    ensures leq(s[i], s[j])
  {
    if i + 1 < j {
      SortedReaches(s, leq, i, j - 1);
      assert leq(s[j - 1], s[j]);
    }
  }

  /** No later element of the list is before an earlier one. */
  ghost predicate Strict<T>(list: seq<T>, leq: (T, T) -> bool) {
    forall i, j | 0 <= i < j < |list| :: !leq(list[j], list[i])
  }

  lemma FirstIsLeast<T>(s: seq<T>, list: seq<T>, leq: (T, T) -> bool)
    requires Sorted(s, leq) && Strict(list, leq) && multiset(s) == multiset(list) && s != [] && list != []
    requires forall a, b, c :: leq(a, b) && leq(b, c) ==> leq(a, c)
    ensures s[0] == list[0]
  {
    SameMembers(s, list);
    SameMembers(list, s);
    assert list[0] in s && s[0] in list;
    var p :| 0 <= p < |s| && s[p] == list[0];
    var q :| 0 <= q < |list| && list[q] == s[0];
    if q > 0 && p > 0 {
      SortedReaches(s, leq, 0, p);
    }
  }

  lemma WithoutFirst<T>(s: seq<T>, list: seq<T>)
    requires s != [] && list != [] && s[0] == list[0] && multiset(s) == multiset(list)
    ensures multiset(s[1..]) == multiset(list[1..])
  {
    assert s == [s[0]] + s[1..] && list == [list[0]] + list[1..];
    assert multiset(s[1..]) == multiset(s) - multiset{s[0]};
    assert multiset(list[1..]) == multiset(list) - multiset{s[0]};
  }

  lemma SortedTail<T>(s: seq<T>, leq: (T, T) -> bool)
    requires Sorted(s, leq) && s != []
    ensures Sorted(s[1..], leq)
  {
    forall k | 0 < k < |s[1..]| ensures leq(s[1..][k - 1], s[1..][k]) {
      assert leq(s[k], s[k + 1]);
    }
  }

  lemma StrictTail<T>(list: seq<T>, leq: (T, T) -> bool)
    requires Strict(list, leq) && list != []
    ensures Strict(list[1..], leq)
  {
  }

  /** A strictly ordered list is the only sorted arrangement of its elements. */
  lemma {:induction false} StrictOrderIsUnique<T>(s: seq<T>, list: seq<T>, leq: (T, T) -> bool)
    requires Sorted(s, leq) && Strict(list, leq) && multiset(s) == multiset(list)
    requires forall a, b, c :: leq(a, b) && leq(b, c) ==> leq(a, c)
    ensures s == list
  {
    assert |s| == |multiset(s)| == |multiset(list)| == |list|;
    if s != [] {
      FirstIsLeast(s, list, leq);
      WithoutFirst(s, list);
      SortedTail(s, leq);
      StrictTail(list, leq);
      StrictOrderIsUnique(s[1..], list[1..], leq);
      assert s == [s[0]] + s[1..] && list == [s[0]] + list[1..];
    }
  }
}
