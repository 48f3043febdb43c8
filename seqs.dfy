/**
 * `Array.prototype.filter` over values, and what "an order-preserving selection"
 * means: the kept elements sit at strictly increasing positions of the input.
 */
module Seqs {

  /** `s.filter(p)`. */
  function Filter<T>(s: seq<T>, p: T -> bool): (r: seq<T>)
    ensures |r| <= |s|
    ensures forall i :: 0 <= i < |r| ==> r[i] in s && p(r[i])
    ensures forall i :: 0 <= i < |s| && p(s[i]) ==> s[i] in r
    decreases |s|
  {
    if s == [] then [] else (if p(s[0]) then [s[0]] else []) + Filter(s[1..], p)
  }

  /** `idx` lists, in strictly increasing order, positions of `s` that hold the elements of `r`. */
  ghost predicate SelectedAt<T>(r: seq<T>, s: seq<T>, idx: seq<int>) {
    && |idx| == |r|
    && (forall k :: 0 <= k < |idx| ==> 0 <= idx[k] < |s| && r[k] == s[idx[k]])
    && (forall k, l :: 0 <= k < l < |idx| ==> idx[k] < idx[l])
  }

  /** Every position moved one place to the right. */
  function Shifted(idx: seq<int>): (r: seq<int>)
    ensures |r| == |idx| && forall k :: 0 <= k < |idx| ==> r[k] == idx[k] + 1
  {
    seq(|idx|, k requires 0 <= k < |idx| => idx[k] + 1)
  }

  lemma ShiftedSelects<T>(x: T, rest: seq<T>, tail: seq<T>, idx: seq<int>)
    requires SelectedAt(rest, tail, idx)
    ensures SelectedAt(rest, [x] + tail, Shifted(idx))
    ensures SelectedAt([x] + rest, [x] + tail, [0] + Shifted(idx))
  {
    var s := [x] + tail;
    var sh := Shifted(idx);
    forall k | 0 <= k < |sh|
      ensures 0 < sh[k] < |s| && rest[k] == s[sh[k]]
    {
      assert s[sh[k]] == tail[idx[k]];
    }
    var full := [0] + sh;
    forall k | 0 <= k < |full|
      ensures 0 <= full[k] < |s| && ([x] + rest)[k] == s[full[k]]
    {
      if k > 0 {
        assert full[k] == sh[k - 1];
      }
    }
    forall k, l | 0 <= k < l < |full|
      ensures full[k] < full[l]
    {
      if k > 0 {
        assert full[k] == sh[k - 1] && full[l] == sh[l - 1];
      } else {
        assert full[l] == sh[l - 1];
      }
    }
  }

  /**
   * `filter` keeps exactly the positions whose element satisfies `p`, in their
   * original order.
   */
  lemma {:induction false} FilterSelects<T>(s: seq<T>, p: T -> bool) returns (idx: seq<int>)
    ensures SelectedAt(Filter(s, p), s, idx)
    ensures forall i :: 0 <= i < |s| ==> (i in idx <==> p(s[i]))
    decreases |s|
  {
    if s == [] {
      idx := [];
    } else {
      var tail := FilterSelects(s[1..], p);
      var rest := Filter(s[1..], p);
      var sh := Shifted(tail);
      assert s == [s[0]] + s[1..];
      ShiftedSelects(s[0], rest, s[1..], tail);
      ShiftedMembers(s, p, tail);
      if p(s[0]) {
        assert Filter(s, p) == [s[0]] + rest;
        idx := [0] + sh;
      } else {
        assert Filter(s, p) == rest;
        idx := sh;
      }
    }
  }

  lemma ShiftedMembers<T>(s: seq<T>, p: T -> bool, tail: seq<int>)
    requires s != []
    requires forall i :: 0 <= i < |s| - 1 ==> (i in tail <==> p(s[1..][i]))
    ensures forall i :: 1 <= i < |s| ==> (i in Shifted(tail) <==> p(s[i]))
    ensures 0 !in Shifted(tail) || exists k :: 0 <= k < |tail| && tail[k] == -1
  {
    var sh := Shifted(tail);
    forall i | 1 <= i < |s|
      ensures i in sh <==> p(s[i])
    {
      if i in sh {
        var k :| 0 <= k < |sh| && sh[k] == i;
        assert tail[k] == i - 1;
      }
      if i - 1 in tail {
        var k :| 0 <= k < |tail| && tail[k] == i - 1;
        assert sh[k] == i;
      }
      assert s[1..][i - 1] == s[i];
    }
    if 0 in sh {
      var k :| 0 <= k < |sh| && sh[k] == 0;
      assert tail[k] == -1;
    }
  }

  /** Filtering with a predicate that holds everywhere returns the input. */
  lemma {:induction false} FilterAll<T>(s: seq<T>, p: T -> bool)
    requires forall i :: 0 <= i < |s| ==> p(s[i])
    ensures Filter(s, p) == s
    decreases |s|
  {
    if s != [] {
      FilterAll(s[1..], p);
      assert [s[0]] + s[1..] == s;
    }
  }

  /** Two predicates that agree on the elements of `s` filter it alike. */
  lemma {:induction false} FilterAgree<T>(s: seq<T>, p: T -> bool, q: T -> bool)
    requires forall i :: 0 <= i < |s| ==> p(s[i]) == q(s[i])
    ensures Filter(s, p) == Filter(s, q)
    decreases |s|
  {
    if s != [] {
      FilterAgree(s[1..], p, q);
    }
  }

  /** Filtering keeps each satisfying value as often as the input holds it, and no other. */
  lemma {:induction false} FilterMultiset<T>(s: seq<T>, p: T -> bool, x: T)
    ensures multiset(Filter(s, p))[x] == if p(x) then multiset(s)[x] else 0
    decreases |s|
  {
    if s != [] {
      FilterMultiset(s[1..], p, x);
      assert s == [s[0]] + s[1..];
      assert multiset(s) == multiset([s[0]]) + multiset(s[1..]);
    }
  }

  /** Filtering a concatenation filters each part. */
  lemma {:induction false} FilterAppend<T>(a: seq<T>, b: seq<T>, p: T -> bool)
    ensures Filter(a + b, p) == Filter(a, p) + Filter(b, p)
    decreases |a|
  {
    if a != [] {
      FilterAppend(a[1..], b, p);
      assert (a + b)[1..] == a[1..] + b;
    } else {
      assert a + b == b;
    }
  }

  /** Two neighbours of which at most one is kept can trade places without changing the filter. */
  lemma FilterSwap<T>(a: T, b: T, rest: seq<T>, p: T -> bool)
    requires !p(a) || !p(b)
    ensures Filter([a] + ([b] + rest), p) == Filter([b] + ([a] + rest), p)
  {
    FilterAppend([a], [b] + rest, p);
    FilterAppend([b], rest, p);
    FilterAppend([b], [a] + rest, p);
    FilterAppend([a], rest, p);
  }
}
