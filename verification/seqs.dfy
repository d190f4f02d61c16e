/** Order-preserving selection from a sequence: the shape of every
    `[x for x in xs if cond]` comprehension in the forecast tool. */
module Seqs {
  import opened Wrappers

  function Min(a: int, b: int): (m: int)
    ensures m <= a && m <= b && (m == a || m == b)
  {
    if a <= b then a else b
  }

  /** The elements of `s` that satisfy `p`, in their original order. */
  function Filter<T>(s: seq<T>, p: T -> bool): seq<T>
  {
    if s == [] then []
    else Filter(s[..|s| - 1], p) + (if p(s[|s| - 1]) then [s[|s| - 1]] else [])
  }

  lemma FilterSnoc<T>(s: seq<T>, x: T, p: T -> bool)
    ensures Filter(s + [x], p) == Filter(s, p) + (if p(x) then [x] else [])
  {
    assert (s + [x])[..|s|] == s;
  }

  lemma {:induction false} FilterConcat<T>(a: seq<T>, b: seq<T>, p: T -> bool)
    ensures Filter(a + b, p) == Filter(a, p) + Filter(b, p)
    decreases |b|
  {
    if b == [] {
      assert a + b == a;
    } else {
      var last := b[|b| - 1];
      var front := b[..|b| - 1];
      assert a + b == (a + front) + [last];
      assert b == front + [last];
      FilterConcat(a, front, p);
      FilterSnoc(a + front, last, p);
      FilterSnoc(front, last, p);
    }
  }

  lemma FilterCons<T>(x: T, s: seq<T>, p: T -> bool)
    ensures Filter([x] + s, p) == (if p(x) then [x] else []) + Filter(s, p)
  {
    FilterConcat([x], s, p);
    FilterSnoc([], x, p);
  }

  /** A filtered sequence is no longer than its input, and holds exactly the
      input's elements that satisfy the condition. */
  lemma {:induction false} FilterMembers<T>(s: seq<T>, p: T -> bool)
    ensures |Filter(s, p)| <= |s|
    ensures forall x :: x in Filter(s, p) <==> x in s && p(x)
  {
    if s != [] {
      var front := s[..|s| - 1];
      FilterMembers(front, p);
      assert s == front + [s[|s| - 1]];
    }
  }

  /** `idx` lists where the elements of `r` sit in `s`: strictly increasing
      positions of elements that satisfy `p` (so the relative order is kept),
      and every position whose element satisfies `p` is among them. */
  ghost predicate Origins<T>(s: seq<T>, r: seq<T>, idx: seq<nat>, p: T -> bool)
  {
    Positions(s, r, idx, p) && Increasing(idx) && Complete(s, idx, p)
  }

  ghost predicate Positions<T>(s: seq<T>, r: seq<T>, idx: seq<nat>, p: T -> bool)
  {
    && |idx| == |r|
    && forall k :: 0 <= k < |idx| ==> idx[k] < |s| && r[k] == s[idx[k]] && p(s[idx[k]])
  }

  ghost predicate Increasing(idx: seq<nat>)
  {
    forall k, l :: 0 <= k < l < |idx| ==> idx[k] < idx[l]
  }

  ghost predicate Complete<T>(s: seq<T>, idx: seq<nat>, p: T -> bool)
  {
    forall i :: 0 <= i < |s| && p(s[i]) ==> i in idx
  }

  /** The positions after appending `x`: those of `front`, then `|front|` when `x` is kept. */
  function SnocPositions<T>(front: seq<T>, x: T, p: T -> bool, prev: seq<nat>): seq<nat>
  {
    if p(x) then prev + [|front|] else prev
  }

  lemma PositionsSnoc<T>(front: seq<T>, x: T, p: T -> bool, kept: seq<T>, prev: seq<nat>)
    requires Positions(front, kept, prev, p)
    ensures Positions(front + [x], kept + (if p(x) then [x] else []), SnocPositions(front, x, p, prev), p)
  {
    var s, r, idx := front + [x], kept + (if p(x) then [x] else []), SnocPositions(front, x, p, prev);
    forall k | 0 <= k < |idx|
      ensures idx[k] < |s| && r[k] == s[idx[k]] && p(s[idx[k]])
    {
      if k < |prev| {
        assert idx[k] == prev[k] && r[k] == kept[k] && s[prev[k]] == front[prev[k]];
      }
    }
  }

  lemma IncreasingSnoc<T>(front: seq<T>, x: T, p: T -> bool, prev: seq<nat>)
    requires Increasing(prev) && forall k :: 0 <= k < |prev| ==> prev[k] < |front|
    ensures Increasing(SnocPositions(front, x, p, prev))
  {
  }

  lemma CompleteSnoc<T>(front: seq<T>, x: T, p: T -> bool, prev: seq<nat>)
    requires Complete(front, prev, p)
    ensures Complete(front + [x], SnocPositions(front, x, p, prev), p)
  {
    var s, idx := front + [x], SnocPositions(front, x, p, prev);
    forall i | 0 <= i < |s| && p(s[i])
      ensures i in idx
    {
      if i < |front| {
        assert s[i] == front[i];
        assert i in prev;
      }
    }
  }

  /** Where every element of `Filter(s, p)` comes from. */
  lemma {:induction false} FilterOrigins<T>(s: seq<T>, p: T -> bool) returns (idx: seq<nat>)
    ensures Origins(s, Filter(s, p), idx, p)
  {
    if s == [] {
      idx := [];
    } else {
      var n := |s| - 1;
      var prev := FilterOrigins(s[..n], p);
      assert s == s[..n] + [s[n]];
      PositionsSnoc(s[..n], s[n], p, Filter(s[..n], p), prev);
      IncreasingSnoc(s[..n], s[n], p, prev);
      CompleteSnoc(s[..n], s[n], p, prev);
      idx := SnocPositions(s[..n], s[n], p, prev);
    }
  }

  /** `f` applied to each element of `s`, keeping the defined results in order:
      a loop that appends only what it can convert. */
  function FilterMap<A, B>(s: seq<A>, f: A -> Option<B>): seq<B>
  {
    if s == [] then []
    else FilterMap(s[..|s| - 1], f) + (match f(s[|s| - 1]) case Some(y) => [y] case None => [])
  }

  lemma FilterMapSnoc<A, B>(s: seq<A>, x: A, f: A -> Option<B>)
    ensures FilterMap(s + [x], f) == FilterMap(s, f) + (match f(x) case Some(y) => [y] case None => [])
  {
    assert (s + [x])[..|s|] == s;
  }

  /** At most one result per element, and a result is kept exactly when some
      element converts to it. */
  lemma {:induction false} FilterMapMembers<A, B>(s: seq<A>, f: A -> Option<B>)
    ensures |FilterMap(s, f)| <= |s|
    ensures forall y :: y in FilterMap(s, f) <==> exists i :: 0 <= i < |s| && f(s[i]) == Some(y)
  {
    if s != [] {
      var n := |s| - 1;
      var front := s[..n];
      FilterMapMembers(front, f);
      assert forall i :: 0 <= i < n ==> front[i] == s[i];
    }
  }
}
