/**
 * Selecting from a sequence while keeping order: the shape shared by the
 * feature loop of the collection normaliser, the point loop of the map layer,
 * `dropna`, the boolean-mask filters on tables and the layer loop of the page.
 */
module Seqs {
  import opened PyValue

  function Lift<B>(o: Option<B>): (r: seq<B>)
    ensures |r| <= 1
  {
    if o.Some? then [o.value] else []
  }

  /** Concatenation regroups without changing the sequence. */
  lemma Associative<T>(a: seq<T>, b: seq<T>, c: seq<T>)
    ensures (a + b) + c == a + (b + c)
  {
  }

  /** Map every element through `f` and keep the results that are present, in order. */
  function FilterMap<A, B>(xs: seq<A>, f: A -> Option<B>): (ys: seq<B>)
    ensures |ys| <= |xs|
  {
    if xs == [] then [] else FilterMap(xs[..|xs| - 1], f) + Lift(f(xs[|xs| - 1]))
  }

  /** The positions of `xs` whose image under `f` is present. */
  ghost function KeptIndices<A, B>(xs: seq<A>, f: A -> Option<B>): seq<nat> {
    if xs == [] then []
    else KeptIndices(xs[..|xs| - 1], f) + (if f(xs[|xs| - 1]).Some? then [|xs| - 1] else [])
  }

  ghost predicate Increasing(idx: seq<nat>) {
    forall a, b :: 0 <= a < b < |idx| ==> idx[a] < idx[b]
  }

  /**
   * `ys` is exactly the present images of `xs` under `f`, in the order of `xs`:
   * the k-th result comes from position `idx[k]`, positions increase, and
   * every position whose image is present is used.
   */
  ghost predicate Selects<A, B>(xs: seq<A>, f: A -> Option<B>, ys: seq<B>, idx: seq<nat>) {
    && |idx| == |ys|
    && Increasing(idx)
    && (forall k :: 0 <= k < |idx| ==> idx[k] < |xs| && f(xs[idx[k]]) == Some(ys[k]))
    && (forall i :: 0 <= i < |xs| && f(xs[i]).Some? ==> i in idx)
  }

  lemma {:induction false} FilterMapSelects<A, B>(xs: seq<A>, f: A -> Option<B>)
    ensures Selects(xs, f, FilterMap(xs, f), KeptIndices(xs, f))
  {
    if xs != [] {
      var init := xs[..|xs| - 1];
      FilterMapSelects(init, f);
      var ys0, idx0 := FilterMap(init, f), KeptIndices(init, f);
      var ys, idx := FilterMap(xs, f), KeptIndices(xs, f);
      assert forall k :: 0 <= k < |idx0| ==> idx0[k] < |init|;
      forall k | 0 <= k < |idx| ensures idx[k] < |xs| && f(xs[idx[k]]) == Some(ys[k]) {
        if k < |idx0| {
          assert idx[k] == idx0[k] && ys[k] == ys0[k];
          assert xs[idx[k]] == init[idx0[k]];
        }
      }
      forall i | 0 <= i < |xs| && f(xs[i]).Some? ensures i in idx {
        if i < |init| {
          assert init[i] == xs[i];
          assert i in idx0;
        } else {
          assert idx[|idx| - 1] == i;
        }
      }
    }
  }

  lemma FilterMapAppend<A, B>(xs: seq<A>, x: A, f: A -> Option<B>)
    ensures FilterMap(xs + [x], f) == FilterMap(xs, f) + Lift(f(x))
  {
    assert (xs + [x])[..|xs + [x]| - 1] == xs;
  }

  /** One more element of a prefix: the step a left-to-right loop takes. */
  lemma FilterMapStep<A, B>(xs: seq<A>, i: nat, f: A -> Option<B>)
    requires i < |xs|
    ensures FilterMap(xs[..i + 1], f) == FilterMap(xs[..i], f) + Lift(f(xs[i]))
  {
    assert xs[..i + 1] == xs[..i] + [xs[i]];
    FilterMapAppend(xs[..i], xs[i], f);
  }

  lemma {:induction false} FilterMapPrepend<A, B>(x: A, xs: seq<A>, f: A -> Option<B>)
    ensures FilterMap([x] + xs, f) == Lift(f(x)) + FilterMap(xs, f)
  {
    if xs != [] {
      var init := xs[..|xs| - 1];
      var ys := [x] + xs;
      FilterMapPrepend(x, init, f);
      assert ys[..|ys| - 1] == [x] + init && ys[|ys| - 1] == xs[|xs| - 1];
      Associative(Lift(f(x)), FilterMap(init, f), Lift(f(xs[|xs| - 1])));
    }
  }

  /** `xs` with every position for which `f` gives nothing removed; in particular nothing when `f` always does. */
  lemma FilterMapAllPresent<A, B>(xs: seq<A>, f: A -> Option<B>)
    requires forall i :: 0 <= i < |xs| ==> f(xs[i]).Some?
    ensures |FilterMap(xs, f)| == |xs|
  {
    if xs != [] {
      FilterMapAllPresent(xs[..|xs| - 1], f);
    }
  }

  /** The selector that keeps an element exactly when `p` holds of it. */
  function Keep<A>(p: A -> bool): A -> Option<A> {
    x => if p(x) then Some(x) else None
  }

  /** The elements of `xs` satisfying `p`, in order (a boolean-mask selection). */
  function Filter<A>(xs: seq<A>, p: A -> bool): (ys: seq<A>)
    ensures |ys| <= |xs|
  {
    FilterMap(xs, Keep(p))
  }

  /** `Filter` keeps exactly the elements satisfying `p`, as a subsequence of `xs`. */
  lemma FilterSelects<A>(xs: seq<A>, p: A -> bool)
    ensures var ys, idx := Filter(xs, p), KeptIndices(xs, Keep(p));
      && |idx| == |ys| && Increasing(idx)
      && (forall k :: 0 <= k < |idx| ==> idx[k] < |xs| && ys[k] == xs[idx[k]] && p(ys[k]))
      && (forall i :: 0 <= i < |xs| && p(xs[i]) ==> i in idx)
  {
    FilterMapSelects(xs, Keep(p));
  }

  /** `Filter` as a selection: every kept element satisfies `p`, every element satisfying `p` is kept, in order. */
  lemma FilterKeepsExactly<A>(xs: seq<A>, p: A -> bool)
    ensures var ys := Filter(xs, p);
      && (forall k :: 0 <= k < |ys| ==> p(ys[k]))
      && (forall i :: 0 <= i < |xs| && p(xs[i]) ==> xs[i] in ys)
      && exists idx: seq<nat> :: |idx| == |ys| && Increasing(idx)
           && forall k :: 0 <= k < |idx| ==> idx[k] < |xs| && ys[k] == xs[idx[k]]
  {
    var ys := Filter(xs, p);
    FilterSelects(xs, p);
    var idx := KeptIndices(xs, Keep(p));
    forall i | 0 <= i < |xs| && p(xs[i]) ensures xs[i] in ys {
      var k :| 0 <= k < |idx| && idx[k] == i;
      assert ys[k] == xs[i];
    }
  }

  /** The k-th kept element, without the quantifiers of `FilterSelects`. */
  lemma FilterAt<A>(xs: seq<A>, p: A -> bool, k: nat)
    requires k < |Filter(xs, p)|
    ensures var idx := KeptIndices(xs, Keep(p));
      |idx| == |Filter(xs, p)| && idx[k] < |xs| && Filter(xs, p)[k] == xs[idx[k]] && p(xs[idx[k]])
  {
    FilterSelects(xs, p);
  }

  /** An element satisfying `p` is kept. */
  lemma FilterHas<A>(xs: seq<A>, p: A -> bool, i: nat)
    requires i < |xs| && p(xs[i])
    ensures i in KeptIndices(xs, Keep(p)) && |KeptIndices(xs, Keep(p))| == |Filter(xs, p)|
  {
    FilterSelects(xs, p);
  }

  lemma FilterAppend<A>(xs: seq<A>, x: A, p: A -> bool)
    ensures Filter(xs + [x], p) == Filter(xs, p) + (if p(x) then [x] else [])
  {
    FilterMapAppend(xs, x, Keep(p));
  }

  /** A predicate that holds everywhere keeps the whole sequence. */
  lemma FilterAll<A>(xs: seq<A>, p: A -> bool)
    requires forall i :: 0 <= i < |xs| ==> p(xs[i])
    ensures Filter(xs, p) == xs
  {
    if xs != [] {
      FilterAll(xs[..|xs| - 1], p);
      assert xs[..|xs| - 1] + [xs[|xs| - 1]] == xs;
    }
  }

  /** Python's `min` over a non-empty list of floats. */
  function MinOf(s: seq<real>): (r: real)
    requires |s| > 0
    ensures r in s && forall k :: 0 <= k < |s| ==> r <= s[k]
  {
    if |s| == 1 then s[0] else var m := MinOf(s[..|s| - 1]); if s[|s| - 1] < m then s[|s| - 1] else m
  }

  /** Python's `max` over a non-empty list of floats. */
  function MaxOf(s: seq<real>): (r: real)
    requires |s| > 0
    ensures r in s && forall k :: 0 <= k < |s| ==> s[k] <= r
  {
    if |s| == 1 then s[0] else var m := MaxOf(s[..|s| - 1]); if s[|s| - 1] > m then s[|s| - 1] else m
  }
}
