/**
 * Python's built-in `sorted(xs, key=...)` is a stable sort: elements are put
 * in ascending key order and elements with equal keys keep their input order.
 * It is modelled here by insertion sort over a comparison `le` ("key of a is
 * at most key of b"); a new element is placed after every element that is not
 * strictly greater than it, which is exactly what makes the sort stable.
 */
module Sorting {

  /** `le` compares every pair of values and is transitive. */
  ghost predicate TotalPreorder<T(!new)>(le: (T, T) -> bool) {
    && (forall a, b :: le(a, b) || le(b, a))
    && (forall a, b, c :: le(a, b) && le(b, c) ==> le(a, c))
  }

  ghost predicate SortedBy<T>(s: seq<T>, le: (T, T) -> bool) {
    forall i, j :: 0 <= i < j < |s| ==> le(s[i], s[j])
  }

  /** Puts `x` right after the last element of `s` that is at most `x`. */
  function Insert<T>(s: seq<T>, x: T, le: (T, T) -> bool): (r: seq<T>)
    ensures |r| == |s| + 1
    ensures multiset(r) == multiset(s) + multiset{x}
  {
    if s == [] then [x]
    else if le(s[|s| - 1], x) then s + [x]
    else
      assert s == s[..|s| - 1] + [s[|s| - 1]];
      Insert(s[..|s| - 1], x, le) + [s[|s| - 1]]
  }

  /** The stable sort of `s`: every element of `s` is inserted in input order. */
  function Sort<T>(s: seq<T>, le: (T, T) -> bool): (r: seq<T>)
    ensures |r| == |s|
    ensures multiset(r) == multiset(s)
  {
    if s == [] then []
    else
      assert s == s[..|s| - 1] + [s[|s| - 1]];
      Insert(Sort(s[..|s| - 1], le), s[|s| - 1], le)
  }

  lemma {:induction false} InsertSorted<T(!new)>(s: seq<T>, x: T, le: (T, T) -> bool)
    requires TotalPreorder(le)
    requires SortedBy(s, le)
    ensures SortedBy(Insert(s, x, le), le)
  {
    if s == [] || le(s[|s| - 1], x) {
    } else {
      var init := s[..|s| - 1];
      var last := s[|s| - 1];
      InsertSorted(init, x, le);
      var r := Insert(init, x, le);
      forall k | 0 <= k < |r| ensures le(r[k], last) {
        assert r[k] in multiset(r);
        if r[k] == x {
        } else {
          assert r[k] in multiset(init);
          var m :| 0 <= m < |init| && init[m] == r[k];
          assert s[m] == r[k];
        }
      }
    }
  }

  /** The output of `Sort` is in ascending order. */
  lemma {:induction false} SortIsSorted<T(!new)>(s: seq<T>, le: (T, T) -> bool)
    requires TotalPreorder(le)
    ensures SortedBy(Sort(s, le), le)
  {
    if s != [] {
      SortIsSorted(s[..|s| - 1], le);
      InsertSorted(Sort(s[..|s| - 1], le), s[|s| - 1], le);
    }
  }

  /** Stability at the front: a first element that is a minimum stays first. */
  lemma {:induction false} SortKeepsLeastFirst<T>(s: seq<T>, le: (T, T) -> bool)
    requires |s| > 0
    requires forall i :: 0 <= i < |s| ==> le(s[0], s[i])
    ensures Sort(s, le)[0] == s[0]
  {
    if |s| > 1 {
      var init := s[..|s| - 1];
      SortKeepsLeastFirst(init, le);
      var t := Sort(init, le);
      assert le(s[0], s[|s| - 1]);
      InsertKeepsFirst(t, s[|s| - 1], le);
    }
  }

  lemma {:induction false} InsertKeepsFirst<T>(t: seq<T>, x: T, le: (T, T) -> bool)
    requires |t| > 0
    requires le(t[0], x)
    ensures Insert(t, x, le)[0] == t[0]
  {
    if !le(t[|t| - 1], x) {
      InsertKeepsFirst(t[..|t| - 1], x, le);
    }
  }

  /** Stability at the back: a last element that is a maximum stays last. */
  lemma SortKeepsGreatestLast<T>(s: seq<T>, le: (T, T) -> bool)
    requires |s| > 0
    requires forall i :: 0 <= i < |s| ==> le(s[i], s[|s| - 1])
    ensures Sort(s, le)[|s| - 1] == s[|s| - 1]
  {
    var init := s[..|s| - 1];
    var t := Sort(init, le);
    var x := s[|s| - 1];
    if t != [] {
      assert t[|t| - 1] in multiset(init);
      var m :| 0 <= m < |init| && init[m] == t[|t| - 1];
      assert s[m] == t[|t| - 1];
    }
  }

  /** `le` ranks `a` and `b` equally: neither comes strictly before the other. */
  predicate Tied<T>(a: T, b: T, le: (T, T) -> bool) {
    le(a, b) && le(b, a)
  }

  /** The elements of `s` tied with `x`, in their order in `s`. */
  function TiedWith<T>(s: seq<T>, x: T, le: (T, T) -> bool): (r: seq<T>)
    ensures |r| <= |s|
  {
    if s == [] then []
    else TiedWith(s[..|s| - 1], x, le) + (if Tied(s[|s| - 1], x, le) then [s[|s| - 1]] else [])
  }

  lemma TiedWithSnoc<T>(s: seq<T>, y: T, x: T, le: (T, T) -> bool)
    ensures TiedWith(s + [y], x, le) == TiedWith(s, x, le) + (if Tied(y, x, le) then [y] else [])
  {
    assert (s + [y])[..|s|] == s;
  }

  /**
   * Inserting `y` places it after every element tied with `x` when `y` is tied
   * with `x` itself: what is inserted after `y` is strictly greater than `y`.
   */
  lemma {:induction false} InsertKeepsTies<T(!new)>(s: seq<T>, y: T, x: T, le: (T, T) -> bool)
    requires TotalPreorder(le)
    ensures TiedWith(Insert(s, y, le), x, le) == TiedWith(s, x, le) + (if Tied(y, x, le) then [y] else [])
  {
    if s == [] {
      assert Insert(s, y, le) == [] + [y];
      TiedWithSnoc([], y, x, le);
    } else if le(s[|s| - 1], y) {
      TiedWithSnoc(s, y, x, le);
    } else {
      var init, last := s[..|s| - 1], s[|s| - 1];
      InsertKeepsTies(init, y, x, le);
      TiedWithSnoc(Insert(init, y, le), last, x, le);
      assert s == init + [last];
      TiedWithSnoc(init, last, x, le);
      GreaterIsNotTied(last, y, x, le);
    }
  }

  /** An element strictly above one tied with `x` is not tied with `x`. */
  lemma GreaterIsNotTied<T(!new)>(z: T, y: T, x: T, le: (T, T) -> bool)
    requires TotalPreorder(le)
    requires !le(z, y)
    ensures Tied(y, x, le) ==> !Tied(z, x, le)
  {
  }

  /**
   * `sorted` is stable: for every `x`, the elements that rank equally with `x`
   * come out in the order they went in.
   */
  lemma {:induction false} SortIsStable<T(!new)>(s: seq<T>, x: T, le: (T, T) -> bool)
    requires TotalPreorder(le)
    ensures TiedWith(Sort(s, le), x, le) == TiedWith(s, x, le)
  {
    if s != [] {
      var init, last := s[..|s| - 1], s[|s| - 1];
      SortIsStable(init, x, le);
      InsertKeepsTies(Sort(init, le), last, x, le);
    }
  }
}
