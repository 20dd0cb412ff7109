/**
 * The two list operations every part of the application uses:
 * `Array.prototype.filter`, and `Array.prototype.map` with a callback that
 * may throw, which abandons the whole map at the first throw.
 */
module Seqs {
  import opened Wrappers

  /** The elements of `s` that satisfy `keep`, in their original order. */
  function Filter<T>(s: seq<T>, keep: T -> bool): (r: seq<T>)
    ensures |r| <= |s|
    ensures forall x | x in r :: x in s && keep(x)
    ensures forall x | x in s && keep(x) :: x in r
    ensures (forall x | x in s :: keep(x)) <==> r == s
  {
    if s == [] then []
    else if keep(s[0]) then [s[0]] + Filter(s[1..], keep)
    else Filter(s[1..], keep)
  }

  /** The positions of `s` whose elements satisfy `keep`, counted from `offset`, in increasing order. */
  function KeptPositions<T>(s: seq<T>, keep: T -> bool, offset: nat): (r: seq<nat>)
    ensures forall k | 0 <= k < |r| :: offset <= r[k] < offset + |s|
  {
    if s == [] then []
    else if keep(s[0]) then [offset] + KeptPositions(s[1..], keep, offset + 1)
    else KeptPositions(s[1..], keep, offset + 1)
  }

  /** `r` lists the elements of `s` at the positions `idx`, counted from `offset`. */
  ghost predicate ElementsAt<T>(r: seq<T>, s: seq<T>, idx: seq<nat>, offset: nat)
  {
    && |idx| == |r|
    && forall k | 0 <= k < |idx| :: offset <= idx[k] < offset + |s| && r[k] == s[idx[k] - offset]
  }

  /** `Filter` lists the elements at the kept positions, in that order. */
  lemma {:induction false} FilterPositions<T>(s: seq<T>, keep: T -> bool, offset: nat)
    ensures ElementsAt(Filter(s, keep), s, KeptPositions(s, keep, offset), offset)
  {
    if s != [] {
      var tail := s[1..];
      FilterPositions(tail, keep, offset + 1);
      var rest := KeptPositions(tail, keep, offset + 1);
      var r' := Filter(tail, keep);
      if keep(s[0]) {
        assert KeptPositions(s, keep, offset) == [offset] + rest;
        assert Filter(s, keep) == [s[0]] + r';
        ElementsAtCons(s, r', rest, offset);
      } else {
        assert KeptPositions(s, keep, offset) == rest;
        assert Filter(s, keep) == r';
        ElementsAtSkip(s, r', rest, offset);
      }
    }
  }

  lemma ElementsAtCons<T>(s: seq<T>, r: seq<T>, idx: seq<nat>, offset: nat)
    requires s != [] && ElementsAt(r, s[1..], idx, offset + 1)
    ensures ElementsAt([s[0]] + r, s, [offset] + idx, offset)
  {
    var r2, idx2 := [s[0]] + r, [offset] + idx;
    forall k | 0 <= k < |idx2|
      ensures offset <= idx2[k] < offset + |s| && r2[k] == s[idx2[k] - offset]
    {
      if k > 0 {
        assert idx2[k] == idx[k - 1] && r2[k] == r[k - 1];
        assert s[1..][idx[k - 1] - (offset + 1)] == s[idx[k - 1] - offset];
      }
    }
  }

  lemma ElementsAtSkip<T>(s: seq<T>, r: seq<T>, idx: seq<nat>, offset: nat)
    requires s != [] && ElementsAt(r, s[1..], idx, offset + 1)
    ensures ElementsAt(r, s, idx, offset)
  {
    forall k | 0 <= k < |idx|
      ensures offset <= idx[k] < offset + |s| && r[k] == s[idx[k] - offset]
    {
      assert s[1..][idx[k] - (offset + 1)] == s[idx[k] - offset];
    }
  }

  predicate Increasing(s: seq<nat>)
  {
    forall i, j | 0 <= i < j < |s| :: s[i] < s[j]
  }

  /** The kept positions increase strictly. */
  lemma {:induction false} PositionsIncrease<T>(s: seq<T>, keep: T -> bool, offset: nat)
    ensures Increasing(KeptPositions(s, keep, offset))
  {
    if s != [] {
      PositionsIncrease(s[1..], keep, offset + 1);
      var idx := KeptPositions(s, keep, offset);
      var rest := KeptPositions(s[1..], keep, offset + 1);
      if keep(s[0]) {
        assert idx == [offset] + rest;
        forall i, j | 0 <= i < j < |idx|
          ensures idx[i] < idx[j]
        {
          assert idx[j] == rest[j - 1] && rest[j - 1] >= offset + 1;
          if i > 0 {
            assert idx[i] == rest[i - 1];
          }
        }
      } else {
        assert idx == rest;
      }
    }
  }

  /** A position is kept exactly when its element satisfies `keep`. */
  lemma {:induction false} PositionKeptIff<T>(s: seq<T>, keep: T -> bool, offset: nat)
    ensures var idx := KeptPositions(s, keep, offset);
      forall i | 0 <= i < |s| :: keep(s[i]) <==> offset + i in idx
  {
    if s != [] {
      var tail := s[1..];
      PositionKeptIff(tail, keep, offset + 1);
      var rest := KeptPositions(tail, keep, offset + 1);
      var idx := KeptPositions(s, keep, offset);
      assert offset !in rest;
      forall i | 0 <= i < |s|
        ensures keep(s[i]) <==> offset + i in idx
      {
        if i > 0 {
          assert s[i] == tail[i - 1];
        }
      }
    }
  }

  /**
   * `Filter` keeps order: there are increasing positions, exactly those
   * whose elements satisfy `keep`, whose elements form the result.
   */
  lemma FilterKeepsOrder<T>(s: seq<T>, keep: T -> bool)
    ensures exists idx: seq<nat> ::
      && ElementsAt(Filter(s, keep), s, idx, 0)
      && Increasing(idx)
      && (forall i | 0 <= i < |s| :: keep(s[i]) <==> i in idx)
  {
    var idx := KeptPositions(s, keep, 0);
    FilterPositions(s, keep, 0);
    PositionsIncrease(s, keep, 0);
    PositionKeptIff(s, keep, 0);
  }

  /** No element occurs twice. */
  predicate Distinct<T(==)>(s: seq<T>)
  {
    forall i, j | 0 <= i < j < |s| :: s[i] != s[j]
  }

  /** Filtering distributes over concatenation: relative order is kept. */
  lemma {:induction false} FilterAppend<T>(a: seq<T>, b: seq<T>, keep: T -> bool)
    ensures Filter(a + b, keep) == Filter(a, keep) + Filter(b, keep)
  {
    if a == [] {
      assert a + b == b;
    } else {
      assert (a + b)[1..] == a[1..] + b;
      FilterAppend(a[1..], b, keep);
    }
  }

  /** `s.find(p)`: the first element satisfying `p`, if any. */
  function Find<T>(s: seq<T>, p: T -> bool): (r: Option<T>)
    ensures r.None? <==> forall k | 0 <= k < |s| :: !p(s[k])
    ensures r.Some? ==> exists k | 0 <= k < |s| :: s[k] == r.value && p(s[k]) && forall j | 0 <= j < k :: !p(s[j])
  {
    if s == [] then None
    else if p(s[0]) then Some(s[0])
    else
      var r := Find(s[1..], p);
      assert forall k | 1 <= k < |s| :: s[k] == s[1..][k - 1];
      r
  }

  /** `xs.map(f)` from index `from` on, where a throw of `f` ends the map. `f` also receives the index. */
  function MapFrom<A, B, E>(xs: seq<A>, f: (nat, A) -> Result<B, E>, from: nat): (r: Result<seq<B>, E>)
    requires from <= |xs|
    ensures r.Success? ==> |r.value| == |xs| - from
    decreases |xs| - from
  {
    if from == |xs| then Success([])
    else
      match f(from, xs[from])
      case Failure(e) => Failure(e)
      case Success(y) =>
        match MapFrom(xs, f, from + 1)
        case Failure(e) => Failure(e)
        case Success(ys) => Success([y] + ys)
  }

  /** `xs.map(f)` with a callback that may throw. */
  function Map<A, B, E>(xs: seq<A>, f: (nat, A) -> Result<B, E>): (r: Result<seq<B>, E>)
    ensures r.Success? ==> |r.value| == |xs|
  {
    MapFrom(xs, f, 0)
  }

  /** The callback does not throw on element `k`. */
  predicate CallOk<A, B, E>(xs: seq<A>, f: (nat, A) -> Result<B, E>, k: int)
    requires 0 <= k < |xs|
  {
    f(k, xs[k]).Success?
  }

  /**
   * The map from `from` on succeeds exactly when no callback throws, and
   * then holds each callback's value at its element's position; otherwise
   * it throws what the first throwing callback threw.
   */
  lemma {:induction false} MapFromSpec<A, B, E>(xs: seq<A>, f: (nat, A) -> Result<B, E>, from: nat)
    requires from <= |xs|
    ensures var r := MapFrom(xs, f, from);
      && (r.Success? <==> forall k | from <= k < |xs| :: CallOk(xs, f, k))
      && (r.Success? ==> forall j | 0 <= j < |r.value| :: f(from + j, xs[from + j]) == Success(r.value[j]))
      && (r.Failure? ==> exists k | from <= k < |xs| ::
            f(k, xs[k]) == Failure(r.error) && forall j | from <= j < k :: CallOk(xs, f, j))
    decreases |xs| - from
  {
    if from < |xs| {
      MapFromSpec(xs, f, from + 1);
      var r := MapFrom(xs, f, from);
      var first := f(from, xs[from]);
      var rest := MapFrom(xs, f, from + 1);
      if first.Failure? {
        assert !CallOk(xs, f, from);
      } else if rest.Failure? {
        var k :| from + 1 <= k < |xs| && f(k, xs[k]) == Failure(rest.error)
          && forall j | from + 1 <= j < k :: CallOk(xs, f, j);
        assert !CallOk(xs, f, k);
        assert CallOk(xs, f, from);
      } else {
        assert r.value == [first.value] + rest.value;
        assert CallOk(xs, f, from);
        forall j | 0 <= j < |r.value|
          ensures f(from + j, xs[from + j]) == Success(r.value[j])
        {
          if j > 0 {
            assert r.value[j] == rest.value[j - 1];
            assert from + j == (from + 1) + (j - 1);
          }
        }
      }
    }
  }

  /**
   * `xs.map(f)` succeeds exactly when no callback throws; its `k`-th value
   * is then the `k`-th callback's; otherwise it throws the first throw.
   */
  lemma MapSpec<A, B, E>(xs: seq<A>, f: (nat, A) -> Result<B, E>)
    ensures var r := Map(xs, f);
      && (r.Success? <==> forall k | 0 <= k < |xs| :: CallOk(xs, f, k))
      && (r.Success? ==> forall k | 0 <= k < |xs| :: f(k, xs[k]) == Success(r.value[k]))
      && (r.Failure? ==> exists k | 0 <= k < |xs| ::
            f(k, xs[k]) == Failure(r.error) && forall j | 0 <= j < k :: CallOk(xs, f, j))
  {
    MapFromSpec(xs, f, 0);
    var r := Map(xs, f);
    if r.Success? {
      forall k | 0 <= k < |xs|
        ensures f(k, xs[k]) == Success(r.value[k])
      {
        assert 0 + k == k;
      }
    }
  }
}
