/**
 * Byte-wise string order, as used by Go's `sort.Strings`.
 *
 * Go strings are UTF-8 byte sequences and `<` on them compares bytes. UTF-8
 * preserves the order of code points, so comparing Dafny `char`s one by one
 * gives the same order.
 */
module LexOrder {

  /** `a` sorts before or equal to `b`. */
  predicate LexLe(a: string, b: string)
    decreases |a|
  {
    |a| == 0 || (|b| > 0 && (a[0] < b[0] || (a[0] == b[0] && LexLe(a[1..], b[1..]))))
  }

  /** `a` sorts strictly before `b`. */
  predicate LexLess(a: string, b: string)
  {
    LexLe(a, b) && a != b
  }

  lemma {:induction false} LexLeReflexive(a: string)
    ensures LexLe(a, a)
    decreases |a|
  {
    if |a| > 0 {
      LexLeReflexive(a[1..]);
    }
  }

  lemma {:induction false} LexLeAntisymmetric(a: string, b: string)
    requires LexLe(a, b) && LexLe(b, a)
    ensures a == b
    decreases |a|
  {
    if |a| > 0 {
      LexLeAntisymmetric(a[1..], b[1..]);
      assert a == [a[0]] + a[1..];
      assert b == [b[0]] + b[1..];
    }
  }

  lemma {:induction false} LexLeTransitive(a: string, b: string, c: string)
    requires LexLe(a, b) && LexLe(b, c)
    ensures LexLe(a, c)
    decreases |a|
  {
    if |a| > 0 && a[0] == b[0] && b[0] == c[0] {
      LexLeTransitive(a[1..], b[1..], c[1..]);
    }
  }

  lemma {:induction false} LexLeTotal(a: string, b: string)
    ensures LexLe(a, b) || LexLe(b, a)
    decreases |a|
  {
    if |a| > 0 && |b| > 0 && a[0] == b[0] {
      LexLeTotal(a[1..], b[1..]);
    }
  }

  /**
   * Two strings that differ within a common-length head keep their order
   * whatever follows them: the order of `p + x` and `q + y` is decided by
   * `p` and `q` when `|p| == |q|` and `p` sorts strictly before `q`.
   */
  lemma {:induction false} LexLessExtend(p: string, q: string, x: string, y: string)
    requires |p| == |q| && LexLess(p, q)
    ensures LexLess(p + x, q + y)
    decreases |p|
  {
    assert |p| > 0;
    if p[0] == q[0] {
      LexLessExtend(p[1..], q[1..], x, y);
      assert (p + x)[1..] == p[1..] + x;
      assert (q + y)[1..] == q[1..] + y;
    } else {
      assert (p + x)[0] == p[0] && (q + y)[0] == q[0];
    }
    assert (p + x)[0] != (q + y)[0] || (p + x)[1..] != (q + y)[1..];
  }

  /** A shared head does not change the order of what follows it. */
  lemma {:induction false} LexLessCommonPrefix(c: string, x: string, y: string)
    requires LexLess(x, y)
    ensures LexLess(c + x, c + y)
    decreases |c|
  {
    if |c| > 0 {
      LexLessCommonPrefix(c[1..], x, y);
      assert (c + x)[1..] == c[1..] + x;
      assert (c + y)[1..] == c[1..] + y;
    } else {
      assert c + x == x && c + y == y;
    }
  }
}
