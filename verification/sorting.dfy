/**
 * cmpopts.SortSlices with the drift comparator's ordering: a stable sort of
 * a sequence by a text key of its elements (fmt.Sprint(x) < fmt.Sprint(y)),
 * which Go performs with sort.SliceStable. The key is a parameter here; the
 * comparator passes `%v`.
 */
module Sorting {
  import opened Text

  /** `a` sorts no later than `b`: not (key(b) < key(a)) in Go's string order. */
  predicate NotAfter<T>(key: T -> string, a: T, b: T) {
    !Less(key(b), key(a))
  }

  /** Ascending by text, every pair checked. */
  predicate Sorted<T>(key: T -> string, s: seq<T>) {
    forall i, j | 0 <= i < j < |s| :: NotAfter(key, s[i], s[j])
  }

  /** Distinct elements print differently, so the text order is strict between them. */
  predicate DistinctTexts<T(==)>(key: T -> string, s: seq<T>) {
    forall i, j | 0 <= i < |s| && 0 <= j < |s| && key(s[i]) == key(s[j]) :: s[i] == s[j]
  }

  lemma NotAfterTransitive<T>(key: T -> string, a: T, b: T, c: T)
    requires NotAfter(key, a, b) && NotAfter(key, b, c)
    ensures NotAfter(key, a, c)
  {
    var ra, rb, rc := key(a), key(b), key(c);
    if Less(rc, ra) {
      LessTotal(ra, rb);
      if Less(ra, rb) {
        LessTransitive(rc, ra, rb);
      }
    }
  }

  lemma NotAfterTotal<T>(key: T -> string, a: T, b: T)
    ensures NotAfter(key, a, b) || NotAfter(key, b, a)
  {
    if Less(key(b), key(a)) {
      LessAsymmetric(key(b), key(a));
    }
  }

  /**
   * Inserts `x` in front of the first element that does not sort before it,
   * so that `x` stays ahead of every element with the same text.
   */
  function Insert<T>(key: T -> string, x: T, s: seq<T>): (r: seq<T>)
    ensures |r| == |s| + 1
    ensures multiset(r) == multiset(s) + multiset{x}
  {
    if |s| == 0 || NotAfter(key, x, s[0]) then [x] + s
    else
      assert s == [s[0]] + s[1..];
      [s[0]] + Insert(key, x, s[1..])
  }

  lemma {:induction false} InsertSorted<T>(key: T -> string, x: T, s: seq<T>)
    requires Sorted(key, s)
    ensures Sorted(key, Insert(key, x, s))
    decreases |s|
  {
    var r := Insert(key, x, s);
    if |s| == 0 || NotAfter(key, x, s[0]) {
      forall i, j | 0 <= i < j < |r| ensures NotAfter(key, r[i], r[j]) {
        if i == 0 && j > 1 {
          NotAfterTransitive(key, x, s[0], s[j - 1]);
        }
      }
    } else {
      InsertSorted(key, x, s[1..]);
      var t := Insert(key, x, s[1..]);
      assert r == [s[0]] + t;
      NotAfterTotal(key, x, s[0]);
      forall j | 0 <= j < |t| ensures NotAfter(key, s[0], t[j]) {
        assert t[j] in multiset(s[1..]) + multiset{x};
        if t[j] in multiset(s[1..]) {
          var k :| 0 <= k < |s[1..]| && s[1..][k] == t[j];
          assert s[k + 1] == t[j];
        }
      }
      forall i, j | 0 <= i < j < |r| ensures NotAfter(key, r[i], r[j]) {
        if i > 0 {
          assert r[i] == t[i - 1] && r[j] == t[j - 1];
        } else {
          assert r[j] == t[j - 1];
        }
      }
    }
  }

  /**
   * sort.SliceStable by `%v` text: the comparator's view of a sequence. It is
   * a permutation of its input in ascending text order.
   */
  function SortByText<T>(key: T -> string, s: seq<T>): (r: seq<T>)
    ensures |r| == |s|
    ensures multiset(r) == multiset(s)
    ensures forall i | 0 <= i < |r| :: r[i] in s
    ensures Sorted(key, r)
  {
    if |s| == 0 then []
    else
      var t := SortByText(key, s[1..]);
      InsertSorted(key, s[0], t);
      assert s == [s[0]] + s[1..];
      var r := Insert(key, s[0], t);
      assert forall i | 0 <= i < |r| :: r[i] in multiset(s) by {
        forall i | 0 <= i < |r| ensures r[i] in multiset(s) {
          assert r[i] in multiset(r);
        }
      }
      r
  }

  lemma SortedTail<T>(key: T -> string, s: seq<T>)
    requires |s| > 0 && Sorted(key, s)
    ensures Sorted(key, s[1..])
  {
    forall i, j | 0 <= i < j < |s[1..]| ensures NotAfter(key, s[1..][i], s[1..][j]) {
      assert s[1..][i] == s[i + 1] && s[1..][j] == s[j + 1];
    }
  }

  lemma DistinctTail<T>(key: T -> string, s: seq<T>)
    requires |s| > 0 && DistinctTexts(key, s)
    ensures DistinctTexts(key, s[1..])
  {
    forall i, j | 0 <= i < |s[1..]| && 0 <= j < |s[1..]| && key(s[1..][i]) == key(s[1..][j])
      ensures s[1..][i] == s[1..][j]
    {
      assert s[1..][i] == s[i + 1] && s[1..][j] == s[j + 1];
    }
  }

  /** The first element of a sorted sequence sorts no later than any element. */
  lemma SortedHead<T>(key: T -> string, s: seq<T>, x: T)
    requires Sorted(key, s) && x in s
    ensures NotAfter(key, s[0], x)
  {
    var k :| 0 <= k < |s| && s[k] == x;
    if k == 0 {
      LessIrreflexive(key(x));
    }
  }

  /** Two sorted orderings of the same distinct-text elements start alike. */
  lemma SameHead<T>(key: T -> string, a: seq<T>, b: seq<T>)
    requires |a| > 0 && Sorted(key, a) && Sorted(key, b)
    requires multiset(a) == multiset(b)
    requires DistinctTexts(key, a)
    ensures |b| > 0 && a[0] == b[0]
  {
    assert a[0] in multiset(b);
    assert b[0] in multiset(a);
    SortedHead(key, b, a[0]);
    SortedHead(key, a, b[0]);
    LessTotal(key(a[0]), key(b[0]));
    var l :| 0 <= l < |a| && a[l] == b[0];
  }

  /**
   * Two orderings of the same elements sort to the same sequence when no
   * two distinct elements share a text: with distinct texts the ascending
   * order is unique.
   */
  lemma {:induction false} SortedUnique<T>(key: T -> string, a: seq<T>, b: seq<T>)
    requires Sorted(key, a) && Sorted(key, b)
    requires multiset(a) == multiset(b)
    requires DistinctTexts(key, a)
    ensures a == b
    decreases |a|
  {
    assert |a| == |multiset(a)| == |b|;
    if |a| > 0 {
      SameHead(key, a, b);
      assert a == [a[0]] + a[1..] && b == [b[0]] + b[1..];
      assert multiset(a[1..]) == multiset(a) - multiset{a[0]};
      assert multiset(b[1..]) == multiset(b) - multiset{b[0]};
      SortedTail(key, a);
      SortedTail(key, b);
      DistinctTail(key, a);
      SortedUnique(key, a[1..], b[1..]);
    }
  }

  /** A sequence with distinct texts that is a permutation of another sorts like it. */
  lemma SortIgnoresOrder<T>(key: T -> string, a: seq<T>, b: seq<T>)
    requires multiset(a) == multiset(b)
    requires DistinctTexts(key, a)
    ensures SortByText(key, a) == SortByText(key, b)
  {
    var sa, sb := SortByText(key, a), SortByText(key, b);
    assert DistinctTexts(key, sa) by {
      forall i, j | 0 <= i < |sa| && 0 <= j < |sa| && key(sa[i]) == key(sa[j])
        ensures sa[i] == sa[j]
      {
        var p :| 0 <= p < |a| && a[p] == sa[i];
        var q :| 0 <= q < |a| && a[q] == sa[j];
      }
    }
    SortedUnique(key, sa, sb);
  }

  /** Two elements: kept in order unless the second sorts strictly first. */
  lemma SortPair<T>(key: T -> string, x: T, y: T)
    ensures SortByText(key, [x, y]) == if NotAfter(key, x, y) then [x, y] else [y, x]
  {
    assert [x, y][1..] == [y];
    assert [y][1..] == [];
  }
}
