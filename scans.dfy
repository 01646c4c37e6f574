/**
 A single left-to-right pass that compares every element of a list with the
 element just before it, one block of output per comparison, each block
 appended after the ones before it. Both gap detectors are such a pass over
 file names, with the previous name as the only state carried along.
 */
module Scans {

  /** The blocks `block(xs[i - 1], xs[i])` for i = 1 .. |xs| - 1, in order. */
  function ConcatPairs<T, U>(xs: seq<T>, block: (T, T) -> seq<U>): (r: seq<U>)
    decreases |xs|
    ensures |xs| <= 1 ==> r == []
  {
    if |xs| <= 1 then [] else ConcatPairs(xs[..|xs| - 1], block) + block(xs[|xs| - 2], xs[|xs| - 1])
  }

  /** No adjacent pair of `xs` gives any output. */
  predicate AllPairsEmpty<T, U>(xs: seq<T>, block: (T, T) -> seq<U>) {
    forall i :: 1 <= i < |xs| ==> block(xs[i - 1], xs[i]) == []
  }

  /** Appending one element appends the block of the new last pair. */
  lemma ConcatPairsSnoc<T, U>(xs: seq<T>, x: T, block: (T, T) -> seq<U>)
    requires |xs| > 0
    ensures ConcatPairs(xs + [x], block) == ConcatPairs(xs, block) + block(xs[|xs| - 1], x)
  {
    assert (xs + [x])[..|xs|] == xs;
  }

  /**
   A pass over `a + b` is the pass over `a`, then the block of the pair where
   the two meet, then the pass over `b`: each block depends only on its pair.
   */
  lemma {:induction false} ConcatPairsAppend<T, U>(a: seq<T>, b: seq<T>, block: (T, T) -> seq<U>)
    requires |a| > 0 && |b| > 0
    decreases |b|
    ensures ConcatPairs(a + b, block) == ConcatPairs(a, block) + block(a[|a| - 1], b[0]) + ConcatPairs(b, block)
  {
    if |b| == 1 {
      ConcatPairsSnoc(a, b[0], block);
      assert a + b == a + [b[0]];
    } else {
      var init := b[..|b| - 1];
      var z := b[|b| - 1];
      assert b == init + [z];
      assert a + b == (a + init) + [z];
      ConcatPairsAppend(a, init, block);
      ConcatPairsSnoc(a + init, z, block);
      ConcatPairsSnoc(init, z, block);
      assert (a + init)[|a + init| - 1] == init[|init| - 1];
      assert init[0] == b[0];
    }
  }

  /** A pass gives nothing exactly when no adjacent pair gives anything. */
  lemma {:induction false} ConcatPairsEmpty<T, U>(xs: seq<T>, block: (T, T) -> seq<U>)
    decreases |xs|
    ensures ConcatPairs(xs, block) == [] <==> AllPairsEmpty(xs, block)
  {
    if |xs| > 1 {
      var init := xs[..|xs| - 1];
      ConcatPairsEmpty(init, block);
      forall i | 1 <= i < |init| ensures block(init[i - 1], init[i]) == block(xs[i - 1], xs[i]) {
        assert init[i - 1] == xs[i - 1] && init[i] == xs[i];
      }
      assert AllPairsEmpty(xs, block) <==>
             AllPairsEmpty(init, block) && block(xs[|xs| - 2], xs[|xs| - 1]) == [];
    }
  }

  /** Every line of a pass comes from the block of some adjacent pair. */
  lemma {:induction false} ConcatPairsOrigin<T, U>(xs: seq<T>, block: (T, T) -> seq<U>, e: U)
    requires e in ConcatPairs(xs, block)
    decreases |xs|
    ensures exists i :: 1 <= i < |xs| && e in block(xs[i - 1], xs[i])
  {
    var init := xs[..|xs| - 1];
    if e in block(xs[|xs| - 2], xs[|xs| - 1]) {
      assert 1 <= |xs| - 1 < |xs|;
    } else {
      ConcatPairsOrigin(init, block, e);
      var i :| 1 <= i < |init| && e in block(init[i - 1], init[i]);
      assert init[i - 1] == xs[i - 1] && init[i] == xs[i];
    }
  }

  /**
   The block of the pair ending at index `i` sits, whole, between the pass
   over the names up to `i - 1` and the pass over the names from `i` on.
   */
  lemma ConcatPairsAt<T, U>(xs: seq<T>, block: (T, T) -> seq<U>, i: int)
    requires 1 <= i < |xs|
    ensures ConcatPairs(xs, block) == ConcatPairs(xs[..i], block) + block(xs[i - 1], xs[i]) + ConcatPairs(xs[i..], block)
  {
    var a, b := xs[..i], xs[i..];
    assert xs == a + b;
    assert a[|a| - 1] == xs[i - 1] && b[0] == xs[i];
    ConcatPairsAppend(a, b, block);
  }

  /**
   A pass over `a + [x] + b` is the pass over `a`, the block ending at `x`,
   the block starting at `x`, then the pass over `b`.
   */
  lemma ConcatPairsMiddle<T, U>(a: seq<T>, x: T, b: seq<T>, block: (T, T) -> seq<U>)
    requires |a| > 0 && |b| > 0
    ensures ConcatPairs(a + [x] + b, block) ==
            ConcatPairs(a, block) + block(a[|a| - 1], x) + block(x, b[0]) + ConcatPairs(b, block)
  {
    var ax := a + [x];
    ConcatPairsAppend(ax, b, block);
    ConcatPairsSnoc(a, x, block);
    assert ax[|ax| - 1] == x;
  }

  /** A silent block where `a` meets `x` joins the passes on either side. */
  lemma ConcatPairsSilentJoin<T, U>(a: seq<T>, x: T, b: seq<T>, block: (T, T) -> seq<U>)
    requires |a| > 0 && |b| > 0 && block(a[|a| - 1], x) == []
    ensures ConcatPairs(a + [x] + b, block) == ConcatPairs(a, block) + block(x, b[0]) + ConcatPairs(b, block)
  {
    ConcatPairsMiddle(a, x, b, block);
    assert ConcatPairs(a, block) + block(a[|a| - 1], x) == ConcatPairs(a, block);
  }

  /** Silent blocks on both sides of `x` cut the pass in two. */
  lemma ConcatPairsSeparate<T, U>(a: seq<T>, x: T, b: seq<T>, block: (T, T) -> seq<U>)
    requires |a| > 0 && |b| > 0 && block(a[|a| - 1], x) == [] && block(x, b[0]) == []
    ensures ConcatPairs(a + [x] + b, block) == ConcatPairs(a, block) + ConcatPairs(b, block)
  {
    ConcatPairsSilentJoin(a, x, b, block);
    assert ConcatPairs(a, block) + block(x, b[0]) == ConcatPairs(a, block);
  }

  /** Extending a prefix of `xs` by one element adds the block of the new pair. */
  lemma ConcatPairsPrefixStep<T, U>(xs: seq<T>, i: int, block: (T, T) -> seq<U>)
    requires 1 <= i < |xs|
    ensures ConcatPairs(xs[..i + 1], block) == ConcatPairs(xs[..i], block) + block(xs[i - 1], xs[i])
  {
    assert xs[..i + 1] == xs[..i] + [xs[i]];
    ConcatPairsSnoc(xs[..i], xs[i], block);
  }

  /** The passes over two and over three elements. */
  lemma ConcatPairsShort<T, U>(x: T, y: T, z: T, block: (T, T) -> seq<U>)
    ensures ConcatPairs([x, y], block) == block(x, y)
    ensures ConcatPairs([x, y, z], block) == block(x, y) + block(y, z)
  {
    ConcatPairsSnoc([x], y, block);
    assert [x] + [y] == [x, y];
    ConcatPairsSnoc([x, y], z, block);
    assert [x, y] + [z] == [x, y, z];
  }
}
