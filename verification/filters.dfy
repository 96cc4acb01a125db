/**
  The list comprehension `[x for x in xs if p(x)]` that every catalog query is built on,
  together with an independent characterisation of its result: the result is the
  subsequence of `xs` picked out by the strictly increasing list of exactly those
  positions whose element satisfies `p`.
 */
module Filters {

  /** Keeps, in their original order, the elements of `s` that satisfy `p`. */
  function Filter<T>(s: seq<T>, p: T -> bool): (r: seq<T>)
    ensures |r| <= |s|
    ensures forall x :: x in r ==> x in s && p(x)
    ensures forall i :: 0 <= i < |s| && p(s[i]) ==> s[i] in r
    decreases |s|
  {
    if |s| == 0 then []
    else if p(s[0]) then [s[0]] + Filter(s[1..], p)
    else Filter(s[1..], p)
  }

  /** `r` is the sequence of the elements of `s` at the positions `idx`. */
  ghost predicate Picks<T>(idx: seq<int>, s: seq<T>, r: seq<T>)
  {
    && |idx| == |r|
    && forall k :: 0 <= k < |idx| ==> 0 <= idx[k] < |s| && r[k] == s[idx[k]]
  }

  ghost predicate Increasing(idx: seq<int>)
  {
    forall k, l :: 0 <= k < l < |idx| ==> idx[k] < idx[l]
  }

  /** Consecutive positions that increase make the whole list increase. */
  lemma {:induction false} IncreasingFromSteps(idx: seq<int>)
    requires forall k :: 0 <= k < |idx| - 1 ==> idx[k] < idx[k + 1]
    ensures Increasing(idx)
    decreases |idx|
  {
    if |idx| > 1 {
      IncreasingFromSteps(idx[1..]);
      forall k, l | 0 <= k < l < |idx|
        ensures idx[k] < idx[l]
      {
        if k > 0 {
          assert idx[k] == idx[1..][k - 1] && idx[l] == idx[1..][l - 1];
        } else if l > 1 {
          assert idx[1] == idx[1..][0] && idx[l] == idx[1..][l - 1];
        }
      }
    }
  }

  /** `idx` holds exactly the positions of `s` whose element satisfies `p`. */
  ghost predicate Covers<T>(idx: seq<int>, s: seq<T>, p: T -> bool)
  {
    forall i :: 0 <= i < |s| ==> (p(s[i]) <==> i in idx)
  }

  /** `idx` lists, in strictly increasing order, exactly the positions of `s` whose
      element satisfies `p`, and `r` is the sequence of the elements at those positions. */
  ghost predicate Selects<T>(idx: seq<int>, s: seq<T>, r: seq<T>, p: T -> bool)
  {
    Picks(idx, s, r) && Increasing(idx) && Covers(idx, s, p)
  }

  /** Moves every position by `d`. */
  function Offset(idx: seq<int>, d: int): (r: seq<int>)
    ensures |r| == |idx|
    ensures forall k :: 0 <= k < |idx| ==> r[k] == idx[k] + d
  {
    seq(|idx|, k requires 0 <= k < |idx| => idx[k] + d)
  }

  lemma OffsetMembers(idx: seq<int>, d: int, i: int)
    ensures i in Offset(idx, d) <==> i - d in idx
  {
    var o := Offset(idx, d);
    if i - d in idx {
      var k :| 0 <= k < |idx| && idx[k] == i - d;
      assert o[k] == i;
    }
    if i in o {
      var k :| 0 <= k < |o| && o[k] == i;
      assert idx[k] == i - d;
    }
  }

  /** Positions picked from `s[1..]`, moved up by one, pick the same elements from `s`. */
  lemma PicksShift<T>(idx: seq<int>, s: seq<T>, r: seq<T>)
    requires |s| > 0 && Picks(idx, s[1..], r)
    ensures Picks(Offset(idx, 1), s, r)
    ensures Picks([0] + Offset(idx, 1), s, [s[0]] + r)
  {
    var up := Offset(idx, 1);
    assert Picks(up, s, r);
    var idx1, r1 := [0] + up, [s[0]] + r;
    forall k | 0 <= k < |idx1|
      ensures 0 <= idx1[k] < |s| && r1[k] == s[idx1[k]]
    {
      if k > 0 {
        assert idx1[k] == up[k - 1] && r1[k] == r[k - 1];
      }
    }
  }

  /** Putting position 0 in front of non-negative increasing positions moved up by one
      keeps them increasing. */
  lemma IncreasingShift(idx: seq<int>)
    requires Increasing(idx)
    requires forall k :: 0 <= k < |idx| ==> 0 <= idx[k]
    ensures Increasing([0] + Offset(idx, 1))
  {
    var idx1 := [0] + Offset(idx, 1);
    forall k, l | 0 <= k < l < |idx1|
      ensures idx1[k] < idx1[l]
    {
      assert idx1[l] == idx[l - 1] + 1;
      if k > 0 {
        assert idx1[k] == idx[k - 1] + 1;
      }
    }
  }

  /** The matching positions of `s[1..]`, moved up by one, are the matching positions of
      `s` after the first; position 0 joins them exactly when `s[0]` matches. */
  lemma CoversShift<T>(idx: seq<int>, s: seq<T>, p: T -> bool)
    requires |s| > 0 && Covers(idx, s[1..], p)
    requires forall k :: 0 <= k < |idx| ==> 0 <= idx[k]
    ensures p(s[0]) ==> Covers([0] + Offset(idx, 1), s, p)
    ensures !p(s[0]) ==> Covers(Offset(idx, 1), s, p)
  {
    var up := Offset(idx, 1);
    forall i | 0 <= i < |s|
      ensures i > 0 ==> (p(s[i]) <==> i in up)
      ensures i == 0 ==> i !in up
    {
      OffsetMembers(idx, 1, i);
      if i > 0 {
        assert s[i] == s[1..][i - 1];
      } else {
        assert i - 1 !in idx;
      }
    }
  }

  /** Extends a selection of `s[1..]` to one of `s` whose first element matches. */
  lemma SelectsConsMatch<T>(idx: seq<int>, s: seq<T>, r: seq<T>, p: T -> bool)
    requires |s| > 0 && p(s[0])
    requires Selects(idx, s[1..], r, p)
    ensures Selects([0] + Offset(idx, 1), s, [s[0]] + r, p)
  {
    PicksShift(idx, s, r);
    IncreasingShift(idx);
    CoversShift(idx, s, p);
  }

  /** Extends a selection of `s[1..]` to one of `s` whose first element does not match. */
  lemma SelectsConsSkip<T>(idx: seq<int>, s: seq<T>, r: seq<T>, p: T -> bool)
    requires |s| > 0 && !p(s[0])
    requires Selects(idx, s[1..], r, p)
    ensures Selects(Offset(idx, 1), s, r, p)
  {
    PicksShift(idx, s, r);
    CoversShift(idx, s, p);
    var up := Offset(idx, 1);
    assert Increasing(up) by {
      forall k, l | 0 <= k < l < |up|
        ensures up[k] < up[l]
      {
      }
    }
  }

  /** The filter's result is the order-preserving selection of the matching positions. */
  lemma {:induction false} FilterSelects<T>(s: seq<T>, p: T -> bool)
    ensures exists idx :: Selects(idx, s, Filter(s, p), p)
    decreases |s|
  {
    if |s| == 0 {
      assert Selects([], s, Filter(s, p), p);
    } else {
      FilterSelects(s[1..], p);
      var idx :| Selects(idx, s[1..], Filter(s[1..], p), p);
      if p(s[0]) {
        SelectsConsMatch(idx, s, Filter(s[1..], p), p);
        assert Selects([0] + Offset(idx, 1), s, Filter(s, p), p);
      } else {
        SelectsConsSkip(idx, s, Filter(s[1..], p), p);
        assert Selects(Offset(idx, 1), s, Filter(s, p), p);
      }
    }
  }

  /** Restricts a selection of `s` whose positions all lie past 0 to one of `s[1..]`. */
  lemma SelectsTail<T>(idx: seq<int>, s: seq<T>, r: seq<T>, p: T -> bool)
    requires |s| > 0
    requires Picks(idx, s, r) && Increasing(idx)
    requires forall k :: 0 <= k < |idx| ==> idx[k] > 0
    requires forall i :: 0 < i < |s| ==> (p(s[i]) <==> i in idx)
    ensures Selects(Offset(idx, -1), s[1..], r, p)
  {
    var down := Offset(idx, -1);
    forall i | 0 <= i < |s[1..]|
      ensures p(s[1..][i]) <==> i in down
    {
      OffsetMembers(idx, -1, i);
      assert s[1..][i] == s[i + 1];
    }
  }

  /** A selection of `s` whose first element matches starts with position 0; the rest of
      it selects from `s[1..]`. */
  lemma SelectsDropHead<T>(idx: seq<int>, s: seq<T>, r: seq<T>, p: T -> bool)
    requires |s| > 0 && p(s[0])
    requires Selects(idx, s, r, p)
    ensures |r| > 0 && r[0] == s[0]
    ensures Selects(Offset(idx[1..], -1), s[1..], r[1..], p)
  {
    assert 0 in idx;
    var k0 :| 0 <= k0 < |idx| && idx[k0] == 0;
    assert idx[0] <= idx[k0];
    var rest := idx[1..];
    forall k | 0 <= k < |rest|
      ensures rest[k] > 0
    {
      assert idx[0] < idx[k + 1];
    }
    forall i | 0 < i < |s|
      ensures i in idx <==> i in rest
    {
      if i in idx {
        var k :| 0 <= k < |idx| && idx[k] == i;
        assert k > 0;
        assert rest[k - 1] == i;
      }
    }
    assert Picks(rest, s, r[1..]);
    SelectsTail(rest, s, r[1..], p);
  }

  /** A selection of `s` whose first element does not match selects from `s[1..]`. */
  lemma SelectsSkipHead<T>(idx: seq<int>, s: seq<T>, r: seq<T>, p: T -> bool)
    requires |s| > 0 && !p(s[0])
    requires Selects(idx, s, r, p)
    ensures Selects(Offset(idx, -1), s[1..], r, p)
  {
    forall k | 0 <= k < |idx|
      ensures idx[k] > 0
    {
      assert idx[k] in idx;
    }
    SelectsTail(idx, s, r, p);
  }

  /** Nothing can be selected from an empty sequence. */
  lemma SelectsOfEmpty<T>(idx: seq<int>, s: seq<T>, r: seq<T>, p: T -> bool)
    requires |s| == 0
    requires Selects(idx, s, r, p)
    ensures r == []
  {
    PicksFromNonEmpty(idx, s, r);
  }

  /** A non-empty selection needs a non-empty sequence to pick from. */
  lemma PicksFromNonEmpty<T>(idx: seq<int>, s: seq<T>, r: seq<T>)
    requires Picks(idx, s, r)
    ensures |r| > 0 ==> |s| > 0
  {
    if |r| > 0 {
      assert 0 <= idx[0] < |s|;
    }
  }

  /** Conversely, any order-preserving selection of the matching positions is the filter's
      result: together with FilterSelects, the two describe the same sequence. */
  lemma {:induction false} SelectsIsFilter<T>(idx: seq<int>, s: seq<T>, r: seq<T>, p: T -> bool)
    requires Selects(idx, s, r, p)
    ensures r == Filter(s, p)
    decreases |s|
  {
    if |s| == 0 {
      SelectsOfEmpty(idx, s, r, p);
    } else if p(s[0]) {
      assert |r| > 0 && r[0] == s[0] && r[1..] == Filter(s[1..], p) by {
        SelectsDropHead(idx, s, r, p);
        SelectsIsFilter(Offset(idx[1..], -1), s[1..], r[1..], p);
      }
      assert r == [r[0]] + r[1..];
    } else {
      assert r == Filter(s[1..], p) by {
        SelectsSkipHead(idx, s, r, p);
        SelectsIsFilter(Offset(idx, -1), s[1..], r, p);
      }
    }
  }

  /** Filtering an already filtered sequence again changes nothing. */
  lemma {:induction false} FilterIdempotent<T>(s: seq<T>, p: T -> bool)
    ensures Filter(Filter(s, p), p) == Filter(s, p)
    decreases |s|
  {
    if |s| > 0 {
      FilterIdempotent(s[1..], p);
      if p(s[0]) {
        var f := Filter(s, p);
        assert f[1..] == Filter(s[1..], p);
      }
    }
  }
}
