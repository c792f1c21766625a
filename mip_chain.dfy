/**
  Integer arithmetic of the mip-chain allocators: level `i` of a chain is `w >> i` wide,
  and the chain stops when a dimension reaches zero or the requested count is met.
*/
module MipChain {

  function Pow2(n: nat): (r: nat)
    ensures r >= 1
  {
    if n == 0 then 1 else 2 * Pow2(n - 1)
  }

  function Min(a: nat, b: nat): nat
  {
    if a <= b then a else b
  }

  /** `x >> i` on an unsigned integer: `i` floor halvings. */
  function Shr(x: nat, i: nat): (r: nat)
    ensures r <= x
  {
    if i == 0 then x else Shr(x, i - 1) / 2
  }

  /** floor(log2 n). */
  function Log2Floor(n: nat): (r: nat)
    requires n >= 1
    ensures Pow2(r) <= n < Pow2(r + 1)
  {
    if n == 1 then 0 else 1 + Log2Floor(n / 2)
  }

  /** Number of levels of the full chain of a `w` x `h` image. */
  function FullChainLength(w: nat, h: nat): nat
    requires w >= 1 && h >= 1
  {
    Min(Log2Floor(w), Log2Floor(h)) + 1
  }

  /**
    Number of levels the 2D allocator builds for `levels` requested levels
    (0 asks for the full chain).
  */
  function MipCount(w: nat, h: nat, levels: nat): nat
    requires w >= 1 && h >= 1
  {
    if levels == 0 then FullChainLength(w, h) else Min(levels, FullChainLength(w, h))
  }

  /** Number of levels the cube allocator builds: only the face width is halved. */
  function CubeMipCount(w: nat, levels: nat): nat
    requires w >= 1
  {
    if levels == 0 then Log2Floor(w) + 1 else Min(levels, Log2Floor(w) + 1)
  }

  /** Halving `i + 1` times is halving the half `i` times. */
  lemma {:induction false} ShrOfHalf(x: nat, i: nat)
    ensures Shr(x, i + 1) == Shr(x / 2, i)
  {
    if i > 0 {
      ShrOfHalf(x, i - 1);
    }
  }

  /** `x >> i` stays positive exactly for the first floor(log2 x) + 1 shifts. */
  lemma {:induction false} ShrPositive(x: nat, i: nat)
    requires x >= 1
    ensures Shr(x, i) >= 1 <==> i <= Log2Floor(x)
  {
    if i > 0 {
      ShrOfHalf(x, i - 1);
      if x >= 2 {
        ShrPositive(x / 2, i - 1);
      } else {
        ShrOfZero(i - 1);
      }
    }
  }

  lemma {:induction false} ShrOfZero(i: nat)
    ensures Shr(0, i) == 0
  {
    if i > 0 {
      ShrOfZero(i - 1);
    }
  }

  /**
    The loop `while (w > 0 && h > 0 && (levels == 0 || n < levels))` that halves both
    dimensions runs exactly MipCount(w, h, levels) times: it may still run after `n`
    iterations exactly when `n` is below that count.
  */
  lemma MipLoopGuard(w: nat, h: nat, levels: nat, n: nat)
    requires w >= 1 && h >= 1
    ensures (Shr(w, n) > 0 && Shr(h, n) > 0 && (levels == 0 || n < levels)) <==> n < MipCount(w, h, levels)
  {
    ShrPositive(w, n);
    ShrPositive(h, n);
  }

  /** The same for the cube allocator, which halves only the width. */
  lemma CubeMipLoopGuard(w: nat, levels: nat, n: nat)
    requires w >= 1
    ensures (Shr(w, n) > 0 && (levels == 0 || n < levels)) <==> n < CubeMipCount(w, levels)
  {
    ShrPositive(w, n);
  }

  /** Every level of a chain is at least one texel in each dimension. */
  lemma MipLevelsNonEmpty(w: nat, h: nat, levels: nat, i: nat)
    requires w >= 1 && h >= 1 && i < MipCount(w, h, levels)
    ensures Shr(w, i) >= 1 && Shr(h, i) >= 1
  {
    ShrPositive(w, i);
    ShrPositive(h, i);
  }

  /** The last level of a full chain is one texel along its shorter dimension. */
  lemma FullChainEndsAtOne(w: nat, h: nat)
    requires w >= 1 && h >= 1
    ensures var n := FullChainLength(w, h); Shr(w, n - 1) == 1 || Shr(h, n - 1) == 1
  {
    var n := FullChainLength(w, h);
    ShrPositive(w, n - 1);
    ShrPositive(h, n - 1);
    ShrPositive(w, n);
    ShrPositive(h, n);
  }

  /** The chains of the examples: 256 x 256 has nine levels and 256 x 4 has three. */
  lemma MipCountExamples()
    ensures MipCount(256, 256, 0) == 9 && MipCount(256, 4, 0) == 3
    ensures MipCount(256, 256, 4) == 4 && MipCount(256, 4, 5) == 3
  {
    Log2FloorOfPow2(8);
    Log2FloorOfPow2(2);
    assert Pow2(2) == 4;
    assert Pow2(8) == 256 by {
      assert Pow2(4) == 16;
    }
  }

  lemma {:induction false} Log2FloorOfPow2(k: nat)
    ensures Log2Floor(Pow2(k)) == k
  {
    if k > 0 {
      Log2FloorOfPow2(k - 1);
      assert Pow2(k) / 2 == Pow2(k - 1);
    }
  }
}
