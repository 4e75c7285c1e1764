/**
 * JavaScript's `Array.prototype.filter` on a value sequence: a new sequence of
 * the elements for which the callback holds, the input left as it was.
 */
module Arrays {

  function Filter<T>(s: seq<T>, keep: T -> bool): (r: seq<T>)
    ensures |r| <= |s|
  {
    if s == [] then []
    else if keep(s[0]) then [s[0]] + Filter(s[1..], keep)
    else Filter(s[1..], keep)
  }

  /** Each result element is an input element the callback keeps, and each kept input element is in the result. */
  lemma {:induction false} FilterMembers<T>(s: seq<T>, keep: T -> bool)
    ensures forall i :: 0 <= i < |Filter(s, keep)| ==> Filter(s, keep)[i] in s && keep(Filter(s, keep)[i])
    ensures forall i :: 0 <= i < |s| && keep(s[i]) ==> s[i] in Filter(s, keep)
  {
    if s != [] {
      FilterMembers(s[1..], keep);
      var r := Filter(s, keep);
      var rest := Filter(s[1..], keep);
      assert forall x :: x in s[1..] ==> x in s;
      forall i | 0 <= i < |s| && keep(s[i])
        ensures s[i] in r
      {
        if i > 0 {
          assert s[i] == s[1..][i - 1];
        }
      }
    }
  }

  /** `filter` decides the first element and goes on with the rest. */
  lemma FilterCons<T>(x: T, s: seq<T>, keep: T -> bool)
    ensures Filter([x] + s, keep) == (if keep(x) then [x] else []) + Filter(s, keep)
  {
    assert ([x] + s)[0] == x && ([x] + s)[1..] == s;
  }

  /** `filter` on three elements decides each on its own, in order. */
  lemma FilterThree<T>(a: T, b: T, c: T, keep: T -> bool)
    ensures Filter([a, b, c], keep) ==
      (if keep(a) then [a] else []) + (if keep(b) then [b] else []) + (if keep(c) then [c] else [])
  {
    FilterCons(c, [], keep);
    assert [c] == [c] + [];
    FilterCons(b, [c], keep);
    assert [b, c] == [b] + [c];
    FilterCons(a, [b, c], keep);
    assert [a, b, c] == [a] + [b, c];
  }

  /** Strictly increasing positions. */
  predicate Increasing(idx: seq<nat>) {
    forall j, k :: 0 <= j < k < |idx| ==> idx[j] < idx[k]
  }

  /** `idx` lists, in increasing order, the positions of `s` whose elements make up `r`. */
  ghost predicate Selects<T>(idx: seq<nat>, r: seq<T>, s: seq<T>) {
    |idx| == |r| && Increasing(idx) &&
    forall j :: 0 <= j < |idx| ==> idx[j] < |s| && r[j] == s[idx[j]]
  }

  /** Every position of `idx` moved one place right. */
  function Shift(idx: seq<nat>): (r: seq<nat>)
    ensures |r| == |idx|
    ensures forall j :: 0 <= j < |idx| ==> r[j] == idx[j] + 1
  {
    seq(|idx|, j requires 0 <= j < |idx| => idx[j] + 1)
  }

  /** Selecting from the tail of `s` is selecting from `s` one place further on, never position 0. */
  lemma ShiftSelects<T>(idx: seq<nat>, r: seq<T>, s: seq<T>)
    requires s != [] && Selects(idx, r, s[1..])
    ensures Selects(Shift(idx), r, s) && 0 !in Shift(idx)
    ensures forall i :: 1 <= i < |s| ==> (i in Shift(idx) <==> i - 1 in idx)
  {
    var sh := Shift(idx);
    forall i | 1 <= i < |s| && i - 1 in idx
      ensures i in sh
    {
      var j :| 0 <= j < |idx| && idx[j] == i - 1;
      assert sh[j] == i;
    }
  }

  /** Selecting position 0 before positions that are all past it. */
  lemma PrependSelects<T>(idx: seq<nat>, r: seq<T>, s: seq<T>)
    requires s != [] && Selects(idx, r, s) && 0 !in idx
    ensures Selects([0] + idx, [s[0]] + r, s)
    ensures forall i :: 0 <= i < |s| ==> (i in [0] + idx <==> i == 0 || i in idx)
  {
    var idx' := [0] + idx;
    forall j, k | 0 <= j < k < |idx'|
      ensures idx'[j] < idx'[k]
    {
      assert idx'[k] == idx[k - 1];
      if j > 0 {
        assert idx'[j] == idx[j - 1];
      } else {
        assert idx[k - 1] in idx;
      }
    }
  }

  /**
   * The result is an order-preserving selection of exactly the kept elements:
   * a strictly increasing list of input positions produces it, and a position
   * is on that list exactly when its element is kept.
   */
  lemma {:induction false} FilterPositions<T>(s: seq<T>, keep: T -> bool) returns (idx: seq<nat>)
    ensures Selects(idx, Filter(s, keep), s)
    ensures forall i :: 0 <= i < |s| ==> (i in idx <==> keep(s[i]))
  {
    if s == [] {
      idx := [];
    } else {
      var rest := FilterPositions(s[1..], keep);
      ShiftSelects(rest, Filter(s[1..], keep), s);
      var shifted := Shift(rest);
      assert forall i :: 1 <= i < |s| ==> s[1..][i - 1] == s[i];
      if keep(s[0]) {
        PrependSelects(shifted, Filter(s[1..], keep), s);
        idx := [0] + shifted;
      } else {
        idx := shifted;
      }
    }
  }

  /** Each element occurs in the result as often as in the input if it is kept, and not at all otherwise. */
  lemma {:induction false} FilterMultiplicity<T>(s: seq<T>, keep: T -> bool, x: T)
    ensures multiset(Filter(s, keep))[x] == if keep(x) then multiset(s)[x] else 0
  {
    if s != [] {
      FilterMultiplicity(s[1..], keep, x);
      assert s == [s[0]] + s[1..];
    }
  }

  /** Filtering a concatenation filters each part. */
  lemma {:induction false} FilterAppend<T>(a: seq<T>, b: seq<T>, keep: T -> bool)
    ensures Filter(a + b, keep) == Filter(a, keep) + Filter(b, keep)
  {
    if a == [] {
      assert a + b == b;
    } else {
      FilterAppend(a[1..], b, keep);
      assert a + b == [a[0]] + (a[1..] + b);
      FilterCons(a[0], a[1..] + b, keep);
      FilterCons(a[0], a[1..], keep);
      assert a == [a[0]] + a[1..];
    }
  }

  /** A callback that keeps every element returns the input unchanged. */
  lemma {:induction false} FilterKeepsAll<T>(s: seq<T>, keep: T -> bool)
    requires forall x :: x in s ==> keep(x)
    ensures Filter(s, keep) == s
  {
    if s != [] {
      FilterKeepsAll(s[1..], keep);
    }
  }

  /** Two callbacks that agree on every element give the same result. */
  lemma {:induction false} FilterAgreeing<T>(s: seq<T>, keep: T -> bool, keep': T -> bool)
    requires forall x :: x in s ==> keep(x) == keep'(x)
    ensures Filter(s, keep) == Filter(s, keep')
  {
    if s != [] {
      FilterAgreeing(s[1..], keep, keep');
    }
  }

  /** Filtering a filtered sequence again keeps the elements both callbacks keep. */
  lemma {:induction false} FilterTwice<T>(s: seq<T>, first: T -> bool, second: T -> bool, both: T -> bool)
    requires forall x :: x in s ==> both(x) == (first(x) && second(x))
    ensures Filter(Filter(s, first), second) == Filter(s, both)
  {
    if s != [] {
      FilterTwice(s[1..], first, second, both);
      if first(s[0]) {
        assert ([s[0]] + Filter(s[1..], first))[1..] == Filter(s[1..], first);
      }
    }
  }
}
