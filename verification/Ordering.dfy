/** `_unique_sorted`: drop repetitions, then sort.  Used on texts, on pairs of texts and on digests. */
module Ordering {
  ghost predicate TotalOrder<T(!new)>(leq: (T, T) -> bool) {
    && (forall x, y :: leq(x, y) || leq(y, x))
    && (forall x, y :: leq(x, y) && leq(y, x) ==> x == y)
    && (forall x, y, z :: leq(x, y) && leq(y, z) ==> leq(x, z))
  }

  function Insert<T(==)>(x: T, s: seq<T>, leq: (T, T) -> bool): seq<T> {
    if s == [] || leq(x, s[0]) then [x] + s else [s[0]] + Insert(x, s[1..], leq)
  }

  function Unique<T(==)>(items: seq<T>): (u: seq<T>) {
    if items == [] then []
    else
      var rest, last := Unique(items[..|items| - 1]), items[|items| - 1];
      if last in rest then rest else rest + [last]
  }

  function Sort<T(==)>(items: seq<T>, leq: (T, T) -> bool): seq<T> {
    if items == [] then [] else Insert(items[0], Sort(items[1..], leq), leq)
  }

  function UniqueSorted<T(==)>(items: seq<T>, leq: (T, T) -> bool): seq<T> {
    Sort(Unique(items), leq)
  }

  /** The loop that collects first occurrences. */
  method CollectUnique<T(==)>(items: seq<T>) returns (unique: seq<T>)
    ensures unique == Unique(items)
  {
    unique := [];
    for i := 0 to |items|
      invariant unique == Unique(items[..i])
    {
      assert items[..i + 1][..i] == items[..i];
      if items[i] !in unique {
        unique := unique + [items[i]];
      }
    }
    assert items[..|items|] == items;
  }

  ghost predicate Distinct<T>(s: seq<T>) {
    forall i, j :: 0 <= i < j < |s| ==> s[i] != s[j]
  }

  ghost predicate Ascending<T>(s: seq<T>, leq: (T, T) -> bool) {
    forall i, j :: 0 <= i < j < |s| ==> leq(s[i], s[j])
  }

  lemma {:induction false} UniqueContents<T(!new)>(items: seq<T>)
    ensures Distinct(Unique(items)) && forall x :: x in Unique(items) <==> x in items
  {
    if items != [] {
      var front := items[..|items| - 1];
      UniqueContents(front);
      assert items == front + [items[|items| - 1]];
    }
  }

  lemma {:induction false} InsertContents<T(!new)>(x: T, s: seq<T>, leq: (T, T) -> bool)
    requires TotalOrder(leq) && Ascending(s, leq)
    ensures multiset(Insert(x, s, leq)) == multiset(s) + multiset{x} && Ascending(Insert(x, s, leq), leq)
  {
    if s != [] && !leq(x, s[0]) {
      InsertContents(x, s[1..], leq);
      var tail := Insert(x, s[1..], leq);
      assert s == [s[0]] + s[1..];
      forall y | y in tail ensures leq(s[0], y) {
        assert y in multiset(tail);
        assert y == x || y in s[1..];
      }
      AscendingCons(s[0], tail, leq);
    } else {
      assert forall i :: 0 <= i < |s| ==> leq(x, s[i]);
      AscendingCons(x, s, leq);
    }
  }

  lemma {:induction false} AscendingCons<T>(x: T, s: seq<T>, leq: (T, T) -> bool)
    requires Ascending(s, leq) && forall i :: 0 <= i < |s| ==> leq(x, s[i])
    ensures Ascending([x] + s, leq)
  {
  }

  lemma {:induction false} SortContents<T(!new)>(items: seq<T>, leq: (T, T) -> bool)
    requires TotalOrder(leq)
    ensures multiset(Sort(items, leq)) == multiset(items) && Ascending(Sort(items, leq), leq)
  {
    if items != [] {
      SortContents(items[1..], leq);
      InsertContents(items[0], Sort(items[1..], leq), leq);
      assert items == [items[0]] + items[1..];
    }
  }

  lemma {:induction false} RepeatedCounts<T>(t: seq<T>, i: nat, j: nat)
    requires i < j < |t| && t[i] == t[j]
    ensures multiset(t)[t[i]] >= 2
  {
    assert t == t[..j] + ([t[j]] + t[j + 1..]);
    assert t[..j][i] == t[i];
  }

  lemma {:induction false} DistinctBag<T>(s: seq<T>, t: seq<T>)
    requires Distinct(s) && multiset(s) == multiset(t)
    ensures Distinct(t) && forall x :: x in s <==> x in t
  {
    assert forall x :: x in s <==> x in multiset(s);
    assert forall x :: x in t <==> x in multiset(t);
    forall i, j | 0 <= i < j < |t| ensures t[i] != t[j] {
      DistinctCounts(s, t[i]);
      if t[i] == t[j] { RepeatedCounts(t, i, j); }
    }
  }

  lemma {:induction false} DistinctCounts<T>(s: seq<T>, x: T)
    requires Distinct(s)
    ensures multiset(s)[x] <= 1
  {
    if s != [] {
      var front := s[..|s| - 1];
      DistinctCounts(front, x);
      assert s == front + [s[|s| - 1]];
    }
  }

  /** The result is ascending, has no repetition and has exactly the items' elements. */
  lemma {:induction false} UniqueSortedContents<T(!new)>(items: seq<T>, leq: (T, T) -> bool)
    requires TotalOrder(leq)
    ensures Ascending(UniqueSorted(items, leq), leq) && Distinct(UniqueSorted(items, leq))
    ensures forall x :: x in UniqueSorted(items, leq) <==> x in items
  {
    UniqueContents(items);
    SortContents(Unique(items), leq);
    DistinctBag(Unique(items), UniqueSorted(items, leq));
  }

  /** An ascending list without repetition is fixed by its elements. */
  lemma {:induction false} AscendingUnique<T(!new)>(s: seq<T>, t: seq<T>, leq: (T, T) -> bool)
    requires TotalOrder(leq) && Ascending(s, leq) && Ascending(t, leq) && Distinct(s) && Distinct(t)
    requires forall x :: x in s <==> x in t
    ensures s == t
  {
    if s == [] {
      assert forall i :: 0 <= i < |t| ==> t[i] in s;
    } else {
      assert s[0] in t && t[0] in s;
      assert s[0] == t[0];
      forall x ensures x in s[1..] <==> x in t[1..] {
        assert x in s <==> x == s[0] || x in s[1..];
        assert x in t <==> x == t[0] || x in t[1..];
      }
      AscendingUnique(s[1..], t[1..], leq);
    }
  }

  // ---------- text order ----------

  predicate TextLeq(a: string, b: string) {
    a == "" || (b != "" && (a[0] < b[0] || (a[0] == b[0] && TextLeq(a[1..], b[1..]))))
  }

  predicate PairLeq(a: (string, string), b: (string, string)) {
    if a.0 == b.0 then TextLeq(a.1, b.1) else TextLeq(a.0, b.0)
  }

  /** At position `k` the texts differ for the first time, and the first text has the smaller character. */
  ghost predicate SmallerAt(a: string, b: string, k: nat) {
    k < |a| && k < |b| && a[..k] == b[..k] && a[k] < b[k]
  }

  /** One text comes before another when it is its beginning, or has the smaller character where they first differ. */
  lemma {:induction false} TextLeqExactly(a: string, b: string)
    ensures TextLeq(a, b) <==> a <= b || exists k: nat :: SmallerAt(a, b, k)
  {
    if a != "" && b != "" {
      if a[0] == b[0] {
        TextLeqExactly(a[1..], b[1..]);
        assert a == [a[0]] + a[1..] && b == [b[0]] + b[1..];
        if k: nat :| SmallerAt(a[1..], b[1..], k) {
          assert a[..k + 1] == [a[0]] + a[1..][..k] && b[..k + 1] == [b[0]] + b[1..][..k];
          assert SmallerAt(a, b, k + 1);
        }
        if k: nat :| SmallerAt(a, b, k) {
          assert a[1..][..k - 1] == a[..k][1..] && b[1..][..k - 1] == b[..k][1..];
          assert SmallerAt(a[1..], b[1..], k - 1);
        }
      } else {
        assert a[0] < b[0] ==> SmallerAt(a, b, 0);
        forall k: nat | 0 < k ensures !SmallerAt(a, b, k) {
          if k <= |a| && k <= |b| { assert a[..k][0] != b[..k][0]; }
        }
      }
    }
  }

  /** Pairs are ordered by their first texts, and by the second where the first are equal. */
  lemma {:induction false} PairLeqExactly(a: (string, string), b: (string, string))
    ensures PairLeq(a, b) <==>
      if a.0 != b.0 then a.0 <= b.0 || exists k: nat :: SmallerAt(a.0, b.0, k)
      else a.1 <= b.1 || exists k: nat :: SmallerAt(a.1, b.1, k)
  {
    hide TextLeq, SmallerAt;
    TextLeqExactly(a.0, b.0);
    TextLeqExactly(a.1, b.1);
  }
}
