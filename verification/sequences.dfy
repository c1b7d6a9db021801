/** List comprehensions with a condition (`[x for x in xs if p(x)]`) and the
    facts about them the model uses. */
module Sequences {
  import opened Optional

  /** `[x for x in xs if p(x)]` */
  function Filter<T>(xs: seq<T>, p: T -> bool): (r: seq<T>)
    ensures |r| <= |xs|
    ensures forall k | 0 <= k < |r| :: p(r[k])
  {
    if xs == [] then []
    else if p(xs[0]) then [xs[0]] + Filter(xs[1..], p)
    else Filter(xs[1..], p)
  }

  /** `a` can be obtained from `b` by deleting elements: the relative order
      of what is kept does not change. */
  predicate IsSubsequence<T(==)>(a: seq<T>, b: seq<T>)
    decreases |b|
  {
    |a| == 0 || (|b| > 0 && ((a[0] == b[0] && IsSubsequence(a[1..], b[1..])) || IsSubsequence(a, b[1..])))
  }

  lemma {:induction false} FilterIsSubsequence<T>(xs: seq<T>, p: T -> bool)
    ensures IsSubsequence(Filter(xs, p), xs)
    decreases |xs|
  {
    if xs != [] {
      FilterIsSubsequence(xs[1..], p);
      if p(xs[0]) {
        assert Filter(xs, p)[1..] == Filter(xs[1..], p);
      }
    }
  }

  /** Every element of `xs` that satisfies `p` is kept. */
  lemma {:induction false} FilterKeeps<T>(xs: seq<T>, p: T -> bool, x: T)
    requires x in xs && p(x)
    ensures x in Filter(xs, p)
    decreases |xs|
  {
    if xs[0] != x {
      FilterKeeps(xs[1..], p, x);
    }
  }

  /** Each element of a filter comes from the filtered list and passes it. */
  lemma {:induction false} FilterMember<T>(xs: seq<T>, p: T -> bool, k: nat)
    requires k < |Filter(xs, p)|
    ensures Filter(xs, p)[k] in xs && p(Filter(xs, p)[k])
    decreases |xs|
  {
    if p(xs[0]) {
      if k > 0 {
        FilterMember(xs[1..], p, k - 1);
      }
    } else {
      FilterMember(xs[1..], p, k);
    }
  }

  /** A filter every element passes keeps the whole list. */
  lemma {:induction false} FilterAll<T>(xs: seq<T>, p: T -> bool)
    requires forall k | 0 <= k < |xs| :: p(xs[k])
    ensures Filter(xs, p) == xs
    decreases |xs|
  {
    if xs != [] {
      FilterAll(xs[1..], p);
    }
  }

  /** Filtering with a stronger condition keeps no more elements. */
  lemma {:induction false} FilterStronger<T>(xs: seq<T>, p: T -> bool, q: T -> bool)
    requires forall k | 0 <= k < |xs| :: q(xs[k]) ==> p(xs[k])
    ensures |Filter(xs, q)| <= |Filter(xs, p)|
    decreases |xs|
  {
    if xs != [] {
      FilterStronger(xs[1..], p, q);
    }
  }

  /** A suffix is the slice up to `b` followed by the suffix from `b`. */
  lemma SliceSplit<T>(s: seq<T>, a: nat, b: nat)
    requires a <= b <= |s|
    ensures s[a..] == s[a..b] + s[b..]
  {
  }

  /** A condition no element meets keeps nothing. */
  lemma {:induction false} FilterNone<T>(xs: seq<T>, p: T -> bool)
    requires forall k | 0 <= k < |xs| :: !p(xs[k])
    ensures Filter(xs, p) == []
    decreases |xs|
  {
    if xs != [] {
      FilterNone(xs[1..], p);
    }
  }

  /** A stricter condition keeps strictly fewer elements when some element
      passes the weaker one only. */
  lemma {:induction false} FilterStrictlyStronger<T>(xs: seq<T>, p: T -> bool, q: T -> bool, j: nat)
    requires forall k | 0 <= k < |xs| :: q(xs[k]) ==> p(xs[k])
    requires j < |xs| && p(xs[j]) && !q(xs[j])
    ensures |Filter(xs, q)| < |Filter(xs, p)|
    decreases |xs|
  {
    if j == 0 {
      FilterStronger(xs[1..], p, q);
    } else {
      FilterStrictlyStronger(xs[1..], p, q, j - 1);
    }
  }

  /** A stronger condition that keeps as many elements as a weaker one
      keeps the same ones. */
  lemma {:induction false} FilterSameLength<T>(xs: seq<T>, p: T -> bool, q: T -> bool)
    requires forall k | 0 <= k < |xs| :: q(xs[k]) ==> p(xs[k])
    requires |Filter(xs, q)| == |Filter(xs, p)|
    ensures Filter(xs, q) == Filter(xs, p)
    decreases |xs|
  {
    if xs != [] {
      FilterStronger(xs[1..], p, q);
      FilterSameLength(xs[1..], p, q);
    }
  }

  /** Filtering a concatenation filters each part. */
  lemma {:induction false} FilterAppend<T>(xs: seq<T>, ys: seq<T>, p: T -> bool)
    ensures Filter(xs + ys, p) == Filter(xs, p) + Filter(ys, p)
    decreases |xs|
  {
    if xs == [] {
      assert xs + ys == ys;
    } else {
      assert (xs + ys)[1..] == xs[1..] + ys;
      FilterAppend(xs[1..], ys, p);
    }
  }

  /** A loop over `xs` that skips the elements failing `p`, appends `f(x)`
      for the others, and leaves at the first `f(x)` that fails, keeping what
      it has collected. */
  function CollectWhile<T, U>(xs: seq<T>, p: T -> bool, f: T -> Option<U>): seq<U> {
    if xs == [] then []
    else if p(xs[0]) then
      match f(xs[0])
      case None => []
      case Some(v) => [v] + CollectWhile(xs[1..], p, f)
    else
      CollectWhile(xs[1..], p, f)
  }

  /** The collected values are `f` of the kept elements, in order, up to the
      first kept element on which `f` fails. */
  lemma {:induction false} CollectWhileSpec<T, U>(xs: seq<T>, p: T -> bool, f: T -> Option<U>)
    ensures var r, ys := CollectWhile(xs, p, f), Filter(xs, p);
      && |r| <= |ys|
      && (forall k | 0 <= k < |r| :: f(ys[k]) == Some(r[k]))
      && (|r| < |ys| ==> f(ys[|r|]).None?)
    decreases |xs|
  {
    if xs != [] {
      CollectWhileSpec(xs[1..], p, f);
      var ys' := Filter(xs[1..], p);
      var r' := CollectWhile(xs[1..], p, f);
      if p(xs[0]) && f(xs[0]).Some? {
        var r, ys := CollectWhile(xs, p, f), Filter(xs, p);
        assert r == [f(xs[0]).value] + r';
        assert ys == [xs[0]] + ys';
        forall k | 0 <= k < |r| ensures f(ys[k]) == Some(r[k]) {
          if k > 0 {
            assert ys[k] == ys'[k - 1] && r[k] == r'[k - 1];
          }
        }
      }
    }
  }

  /** A loop over `xs` that skips the elements failing `p` and appends `f(x)`
      for the others; the first failure of `f` aborts the whole loop. */
  function CollectAll<T, U>(xs: seq<T>, p: T -> bool, f: T -> Option<U>): Option<seq<U>> {
    if xs == [] then Some([])
    else if p(xs[0]) then
      match f(xs[0])
      case None => None
      case Some(v) =>
        match CollectAll(xs[1..], p, f)
        case None => None
        case Some(rest) => Some([v] + rest)
    else
      CollectAll(xs[1..], p, f)
  }

  /** One value per kept element, in order, or `None` exactly when `f` fails
      on a kept element. */
  lemma {:induction false} CollectAllSpec<T, U>(xs: seq<T>, p: T -> bool, f: T -> Option<U>)
    ensures var r, ys := CollectAll(xs, p, f), Filter(xs, p);
      && (r.Some? ==> |r.value| == |ys| && forall k | 0 <= k < |ys| :: f(ys[k]) == Some(r.value[k]))
      && (r.None? <==> exists k | 0 <= k < |ys| :: f(ys[k]).None?)
    decreases |xs|
  {
    if xs != [] {
      CollectAllSpec(xs[1..], p, f);
      var ys' := Filter(xs[1..], p);
      var r' := CollectAll(xs[1..], p, f);
      if p(xs[0]) {
        var ys := Filter(xs, p);
        assert ys == [xs[0]] + ys';
        if f(xs[0]).None? {
          assert f(ys[0]).None?;
        } else if r'.None? {
          var k' :| 0 <= k' < |ys'| && f(ys'[k']).None?;
          assert ys[k' + 1] == ys'[k'];
        } else {
          var r := CollectAll(xs, p, f);
          assert r.value == [f(xs[0]).value] + r'.value;
          forall k | 0 <= k < |ys| ensures f(ys[k]) == Some(r.value[k]) {
            if k > 0 {
              assert ys[k] == ys'[k - 1];
            }
          }
          assert forall k | 0 <= k < |ys| :: f(ys[k]).Some?;
        }
      }
    }
  }

  /** `[f(x) for x in xs]` */
  function Map<T, U>(xs: seq<T>, f: T -> U): (ys: seq<U>)
    ensures |ys| == |xs|
    ensures forall k | 0 <= k < |xs| :: ys[k] == f(xs[k])
  {
    seq(|xs|, k requires 0 <= k < |xs| => f(xs[k]))
  }

  /** Whether `f` yields a value. */
  function Succeeds<T, U>(f: T -> Option<U>): T -> bool {
    x => f(x).Some?
  }

  /** A loop over `xs` that appends `f(x)` where it yields a value and skips
      `x` where it does not. */
  function FilterMap<T, U>(xs: seq<T>, f: T -> Option<U>): (ys: seq<U>)
    ensures |ys| <= |xs|
    decreases |xs|
  {
    if |xs| == 0 then []
    else
      var rest := FilterMap(xs[1..], f);
      match f(xs[0])
      case None => rest
      case Some(y) => [y] + rest
  }

  /** When each value names the element it came from, the values name the
      elements on which `f` succeeds, in order, and each value is `f` of
      the element it names. */
  lemma {:induction false} FilterMapSpec<T, U>(xs: seq<T>, f: T -> Option<U>, source: U -> T)
    requires forall k | 0 <= k < |xs| :: f(xs[k]).Some? ==> source(f(xs[k]).value) == xs[k]
    ensures var ys := FilterMap(xs, f);
      && Map(ys, source) == Filter(xs, Succeeds(f))
      && forall k | 0 <= k < |ys| :: f(source(ys[k])) == Some(ys[k])
    decreases |xs|
  {
    if |xs| > 0 {
      var ys, rest := FilterMap(xs, f), FilterMap(xs[1..], f);
      forall k | 0 <= k < |xs[1..]| ensures f(xs[1..][k]).Some? ==> source(f(xs[1..][k]).value) == xs[1..][k] {
        assert xs[1..][k] == xs[k + 1];
      }
      FilterMapSpec(xs[1..], f, source);
      if f(xs[0]).Some? {
        assert Map(ys, source) == [xs[0]] + Map(rest, source);
        forall k | 0 < k < |ys| ensures f(source(ys[k])) == Some(ys[k]) {
          assert ys[k] == rest[k - 1];
        }
      }
    }
  }

  /** Skipping the first element, the values start with the second's. */
  lemma FilterMapSkipsHead<T, U>(xs: seq<T>, f: T -> Option<U>)
    requires |xs| >= 2 && f(xs[0]).None? && f(xs[1]).Some?
    ensures |FilterMap(xs, f)| > 0 && FilterMap(xs, f)[0] == f(xs[1]).value
  {
    assert xs[1..][0] == xs[1];
  }
}
