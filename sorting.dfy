/**
 * `sort.Strings`: an in-place sort of a slice of strings, specified by the
 * unique sorted permutation of its input.
 */
module Sorting {
  import opened LexOrder

  predicate Sorted(s: seq<string>)
  {
    forall i, j :: 0 <= i < j < |s| ==> LexLe(s[i], s[j])
  }

  /** Inserts `x` before the first element it sorts before or equal to. */
  function Insert(x: string, s: seq<string>): seq<string>
  {
    if s == [] then [x]
    else if LexLe(x, s[0]) then [x] + s
    else [s[0]] + Insert(x, s[1..])
  }

  /** The reference sort: insertion sort over the whole sequence. */
  function SortSpec(s: seq<string>): seq<string>
  {
    if s == [] then [] else Insert(s[0], SortSpec(s[1..]))
  }

  lemma {:induction false} InsertPermutes(x: string, s: seq<string>)
    ensures multiset(Insert(x, s)) == multiset{x} + multiset(s)
  {
    if s != [] && !LexLe(x, s[0]) {
      InsertPermutes(x, s[1..]);
      assert s == [s[0]] + s[1..];
    }
  }

  /** `y` sorts before or equal to every element of `s`. */
  predicate AllAbove(y: string, s: seq<string>)
  {
    forall k :: 0 <= k < |s| ==> LexLe(y, s[k])
  }

  /** A lower bound of a sorted sequence put in front of it keeps it sorted. */
  lemma ConsSorted(y: string, t: seq<string>)
    requires Sorted(t) && AllAbove(y, t)
    ensures Sorted([y] + t)
  {
    var r := [y] + t;
    forall i, j | 0 <= i < j < |r| ensures LexLe(r[i], r[j]) {
      if i > 0 {
        assert r[i] == t[i - 1] && r[j] == t[j - 1];
      } else {
        assert r[j] == t[j - 1];
      }
    }
  }

  /** A bound of both `x` and `s` is a bound of `Insert(x, s)`. */
  lemma {:induction false} InsertKeepsBound(y: string, x: string, s: seq<string>)
    requires LexLe(y, x) && AllAbove(y, s)
    ensures AllAbove(y, Insert(x, s))
  {
    if s != [] && !LexLe(x, s[0]) {
      assert AllAbove(y, s[1..]) by {
        forall k | 0 <= k < |s[1..]| ensures LexLe(y, s[1..][k]) {
          assert s[1..][k] == s[k + 1];
        }
      }
      InsertKeepsBound(y, x, s[1..]);
      var t := Insert(x, s[1..]);
      forall k | 0 <= k < |[s[0]] + t| ensures LexLe(y, ([s[0]] + t)[k]) {
        if k > 0 {
          assert ([s[0]] + t)[k] == t[k - 1];
        }
      }
    }
  }

  lemma {:induction false} InsertSorted(x: string, s: seq<string>)
    requires Sorted(s)
    ensures Sorted(Insert(x, s))
  {
    if s == [] {
    } else if LexLe(x, s[0]) {
      forall k | 0 <= k < |s| ensures LexLe(x, s[k]) {
        if k > 0 {
          LexLeTransitive(x, s[0], s[k]);
        }
      }
      ConsSorted(x, s);
    } else {
      LexLeTotal(x, s[0]);
      var tail := s[1..];
      assert Sorted(tail) && AllAbove(s[0], tail) by {
        forall k | 0 <= k < |tail| ensures tail[k] == s[k + 1] { }
      }
      InsertSorted(x, tail);
      InsertKeepsBound(s[0], x, tail);
      ConsSorted(s[0], Insert(x, tail));
    }
  }

  lemma {:induction false} SortSpecSortsAndPermutes(s: seq<string>)
    ensures Sorted(SortSpec(s)) && multiset(SortSpec(s)) == multiset(s)
  {
    if s != [] {
      SortSpecSortsAndPermutes(s[1..]);
      InsertSorted(s[0], SortSpec(s[1..]));
      InsertPermutes(s[0], SortSpec(s[1..]));
      assert s == [s[0]] + s[1..];
    }
  }

  /** The first element of a sorted sequence is its least element. */
  lemma HeadIsLeast(s: seq<string>, x: string)
    requires Sorted(s) && x in multiset(s)
    ensures LexLe(s[0], x)
  {
    var k :| 0 <= k < |s| && s[k] == x;
    if k == 0 {
      LexLeReflexive(x);
    }
  }

  /** Two nonempty sorted sequences holding the same elements start alike. */
  lemma SortedHeadsAgree(s: seq<string>, t: seq<string>)
    requires Sorted(s) && Sorted(t) && multiset(s) == multiset(t) && s != []
    ensures t != [] && s[0] == t[0]
  {
    assert s[0] in multiset(s);
    assert t[0] in multiset(t);
    HeadIsLeast(t, s[0]);
    HeadIsLeast(s, t[0]);
    LexLeAntisymmetric(s[0], t[0]);
  }

  /** The elements of a sequence's tail: all but one occurrence of its head. */
  lemma TailMultiset(s: seq<string>)
    requires s != []
    ensures multiset(s[1..]) == multiset(s) - multiset{s[0]}
  {
    assert s == [s[0]] + s[1..];
  }

  /** Two sorted sequences holding the same elements are equal. */
  lemma {:induction false} SortedUnique(s: seq<string>, t: seq<string>)
    requires Sorted(s) && Sorted(t) && multiset(s) == multiset(t)
    ensures s == t
    decreases |s|
  {
    if s == [] {
      assert |multiset(t)| == 0;
    } else {
      SortedHeadsAgree(s, t);
      TailMultiset(s);
      TailMultiset(t);
      SortedUnique(s[1..], t[1..]);
      assert s == [s[0]] + s[1..];
      assert t == [t[0]] + t[1..];
    }
  }

  /** Any sorted permutation of `s` is `SortSpec(s)`. */
  lemma SortedPermutationIsSortSpec(s: seq<string>, t: seq<string>)
    requires Sorted(t) && multiset(t) == multiset(s)
    ensures t == SortSpec(s)
  {
    SortSpecSortsAndPermutes(s);
    SortedUnique(t, SortSpec(s));
  }

  /** Sorting forgets the order of its input: permutations sort alike. */
  lemma SortSpecForgetsOrder(s: seq<string>, t: seq<string>)
    requires multiset(s) == multiset(t)
    ensures SortSpec(s) == SortSpec(t)
  {
    SortSpecSortsAndPermutes(t);
    SortedPermutationIsSortSpec(s, SortSpec(t));
  }

  /** A sequence that is already sorted is left as it is. */
  lemma SortSpecOfSorted(s: seq<string>)
    requires Sorted(s)
    ensures SortSpec(s) == s
  {
    SortedPermutationIsSortSpec(s, s);
  }

  /** The index of a least element of `a[from..]`. */
  method IndexOfLeast(a: array<string>, from: nat) returns (m: nat)
    requires from < a.Length
    ensures from <= m < a.Length
    ensures forall q :: from <= q < a.Length ==> LexLe(a[m], a[q])
  {
    m := from;
    LexLeReflexive(a[from]);
    var j := from + 1;
    while j < a.Length
      invariant from <= m < a.Length && from + 1 <= j <= a.Length
      invariant forall q :: from <= q < j ==> LexLe(a[m], a[q])
    {
      if !LexLe(a[m], a[j]) {
        LexLeTotal(a[m], a[j]);
        forall q | from <= q < j ensures LexLe(a[j], a[q]) {
          LexLeTransitive(a[j], a[m], a[q]);
        }
        LexLeReflexive(a[j]);
        m := j;
      }
      j := j + 1;
    }
  }

  /** Exchanges two elements; the multiset of elements is unchanged. */
  method Swap(a: array<string>, i: nat, m: nat)
    requires i <= m < a.Length
    modifies a
    ensures a[..] == old(a[..])[i := old(a[m])][m := old(a[i])]
    ensures multiset(a[..]) == multiset(old(a[..]))
  {
    a[i], a[m] := a[m], a[i];
  }

  /** The first `i` elements are in order. */
  predicate SortedPrefix(s: seq<string>, i: nat)
    requires i <= |s|
  {
    forall p, q :: 0 <= p < q < i ==> LexLe(s[p], s[q])
  }

  /** The first `i` elements sort before or equal to all the others. */
  predicate PrefixBelow(s: seq<string>, i: nat)
    requires i <= |s|
  {
    forall p, q :: 0 <= p < i <= q < |s| ==> LexLe(s[p], s[q])
  }

  /** Bringing a least element of the rest to position `i` extends the sorted prefix by one. */
  lemma SelectStep(b: seq<string>, i: nat, m: nat)
    requires i <= m < |b| && SortedPrefix(b, i) && PrefixBelow(b, i)
    requires forall q :: i <= q < |b| ==> LexLe(b[m], b[q])
    ensures SortedPrefix(b[i := b[m]][m := b[i]], i + 1) && PrefixBelow(b[i := b[m]][m := b[i]], i + 1)
  {
    var c := b[i := b[m]][m := b[i]];
    forall p, q | 0 <= p < q < i + 1 ensures LexLe(c[p], c[q]) {
      if q == i {
        assert c[q] == b[m];
      }
    }
    forall p, q | 0 <= p < i + 1 <= q < |c| ensures LexLe(c[p], c[q]) {
      assert c[q] == b[q] || c[q] == b[i];
    }
  }

  /**
   * `sort.Strings(a)`: sorts the caller's slice in place (a selection sort
   * here; Go's algorithm differs, but any sort yields the same result since
   * the sorted permutation is unique).
   */
  method SortStrings(a: array<string>)
    modifies a
    ensures Sorted(a[..]) && multiset(a[..]) == multiset(old(a[..]))
    ensures a[..] == SortSpec(old(a[..]))
  {
    var i := 0;
    while i < a.Length
      invariant 0 <= i <= a.Length
      invariant SortedPrefix(a[..], i) && PrefixBelow(a[..], i)
      invariant multiset(a[..]) == multiset(old(a[..]))
    {
      var m := IndexOfLeast(a, i);
      SelectStep(a[..], i, m);
      Swap(a, i, m);
      i := i + 1;
    }
    SortedPermutationIsSortSpec(old(a[..]), a[..]);
  }
}
