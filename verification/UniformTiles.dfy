/**
AV1 uniform tile geometry (av1.c): the driver gets only the tile counts, and derives every tile's size from them.
Section 5.9.15 of the AV1 specification, which derives the counts from a coded log2 instead.
*/
module UniformTiles {
  import opened Arithmetic

  const MAX_TILES := 64

  /** (x + (1 << n) - 1) >> n. */
  function ShiftUp(x: nat, n: nat): nat
  {
    Shr(x + Pow2(n) - 1, n)
  }

  /** The least number of blocks of size n that cover x. */
  ghost predicate Covers(x: nat, n: nat, blocks: nat)
  {
    x <= blocks * n && forall fewer: nat | fewer < blocks :: fewer * n < x
  }

  lemma {:induction false} ShrDivides(x: nat, n: nat)
    ensures Shr(x, n) == x / Pow2(n)
  {
    if n > 0 {
      ShrDivides(x, n - 1);
      HalfOfQuotient(x, Pow2(n - 1));
    }
  }

  lemma HalfOfQuotient(x: nat, n: positive)
    ensures x / n / 2 == x / (2 * n)
  {
    var q, r := x / (2 * n), x % (2 * n);
    assert x == q * (2 * n) + r && q * (2 * n) == (2 * q) * n;
    var h := if r < n then 0 else 1;
    QuotientIs(x, n, 2 * q + h, r - h * n);
  }

  lemma MulOrder(a: int, b: int, n: nat)
    requires a <= b
    ensures a * n <= b * n && n * a <= n * b
  {
  }

  lemma ShiftUpCovers(x: positive, n: nat)
    ensures Covers(x, Pow2(n), ShiftUp(x, n)) && ShiftUp(x, n) > 0
  {
    hide Covers, Pow2;
    ShrDivides(x + Pow2(n) - 1, n);
    CeilingCovers(x, Pow2(n));
  }

  lemma CeilingCovers(x: positive, p: positive)
    ensures Covers(x, p, (x + p - 1) / p) && (x + p - 1) / p > 0
  {
    var q, r := (x + p - 1) / p, (x + p - 1) % p;
    assert q * p == x + p - 1 - r;
    Multiples(-q + 1, p);
    assert (q - 1) * p == q * p - p;
    LeastCovers(x, p, q);
  }

  lemma CoversOnce(x: nat, n: nat, a: nat, b: nat)
    requires Covers(x, n, a) && Covers(x, n, b)
    ensures a == b
  {
  }

  // ----- tile_log2

  /** The least n with `count` at most 2^n. */
  ghost predicate IsLog2(count: nat, n: nat)
  {
    count <= Pow2(n) && (n > 0 ==> Pow2(n - 1) < count)
  }

  /** tile_log2. */
  method TileLog2(n: nat) returns (log2: nat)
    ensures IsLog2(n, log2)
  {
    log2 := 0;
    Pow2Exceeds(n);
    while Pow2(log2) < n
      invariant log2 > 0 ==> Pow2(log2 - 1) < n
      decreases n - log2
    {
      Pow2Exceeds(log2);
      log2 := log2 + 1;
    }
  }

  lemma {:induction false} Pow2Exceeds(n: nat)
    ensures Pow2(n) > n
  {
    if n > 0 {
      Pow2Exceeds(n - 1);
    }
  }

  // ----- the tiles of one dimension

  /** Tiles of `step` superblocks each, the last one what is left. */
  function TileSizes(blocks: nat, step: nat): (r: seq<nat>)
    requires step > 0
    ensures blocks > 0 ==> |r| > 0
  {
    if blocks == 0 then []
    else if blocks <= step then [blocks]
    else [step] + TileSizes(blocks - step, step)
  }

  function Sum(s: seq<nat>): nat
  {
    if s == [] then 0 else s[0] + Sum(s[1..])
  }

  /** The tiles cover the superblocks exactly, all but the last are full, and there are as few as can be. */
  lemma {:induction false} TilesCover(blocks: nat, step: positive)
    ensures var t := TileSizes(blocks, step);
      && Sum(t) == blocks && (forall k | 0 <= k < |t| :: 1 <= t[k] <= step && (k + 1 < |t| ==> t[k] == step))
      && Covers(blocks, step, |t|)
    decreases blocks
  {
    if blocks > step {
      TilesCover(blocks - step, step);
      var rest := TileSizes(blocks - step, step);
      assert ([step] + rest)[1..] == rest;
      OneMoreCovers(blocks - step, step, |rest|);
    } else {
      assert blocks <= 1 * step;
    }
  }

  lemma OneMoreCovers(blocks: nat, step: nat, n: nat)
    requires blocks > 0 && Covers(blocks, step, n)
    ensures Covers(blocks + step, step, n + 1)
  {
    forall fewer: nat | fewer < n + 1
      ensures fewer * step < blocks + step
    {
      if fewer > 0 {
        assert (fewer - 1) * step < blocks;
        assert fewer * step == (fewer - 1) * step + step;
      }
    }
    assert (n + 1) * step == n * step + step;
  }

  /** What the driver writes: the sizes minus one, as far as the array goes. */
  ghost predicate Written(after: seq<nat>, before: seq<nat>, sizes: seq<nat>)
  {
    && |after| == |before|
    && forall k | 0 <= k < |after| :: if k < |sizes| then after[k] + 1 == sizes[k] else after[k] == before[k]
  }

  /** One half of derive_uniform_tiles: `blocks` superblocks in `count` tiles. */
  method DeriveDimension(sizes: array<nat>, blocks: nat, count: nat) returns (ghost step: nat)
    requires sizes.Length == MAX_TILES && blocks > 0
    modifies sizes
    ensures step > 0 && exists n :: IsLog2(count, n) && step == ShiftUp(blocks, n)
    ensures Written(sizes[..], old(sizes[..]), TileSizes(blocks, step))
  {
    var log2 := TileLog2(count);
    ShiftUpCovers(blocks, log2);
    var each := ShiftUp(blocks, log2);
    step := each;
    ghost var all := TileSizes(blocks, each);
    var i, k := 0, 0;
    while i < blocks && k < MAX_TILES
      invariant 0 <= k <= MAX_TILES && k <= |all|
      invariant if i < blocks then all[k..] == TileSizes(blocks - i, each) else k == |all|
      invariant forall j | 0 <= j < k :: sizes[j] + 1 == all[j]
      invariant forall j | k <= j < MAX_TILES :: sizes[j] == old(sizes[j])
      decreases MAX_TILES - k
    {
      assert all[k] == all[k..][0];
      sizes[k] := (if blocks - i < each then blocks - i else each) - 1;
      assert all[k + 1..] == all[k..][1..];
      i := i + each;
      k := k + 1;
    }
  }

  // ----- the geometry from the counts is the geometry from the coded log2

  /** The coded tile size, and the number of tiles it makes. */
  function Step(blocks: nat, log2: nat): (r: nat)
    requires blocks > 0
    ensures r > 0
  {
    ShiftUpCovers(blocks, log2);
    ShiftUp(blocks, log2)
  }

  function Count(blocks: nat, log2: nat): nat
    requires blocks > 0
  {
    |TileSizes(blocks, Step(blocks, log2))|
  }

  /** Whatever log2 the stream coded, the count alone gives back the tile size, and so every tile. */
  lemma StepFromCount(blocks: nat, log2: nat, n: nat)
    requires blocks > 0 && IsLog2(Count(blocks, log2), n)
    ensures n <= log2 && Step(blocks, n) == Step(blocks, log2)
  {
    hide ShiftUp, TileSizes, Pow2;
    var step, count := Step(blocks, log2), Count(blocks, log2);
    ShiftUpCovers(blocks, log2);
    TilesCover(blocks, step);
    CountWithin(blocks, log2);
    if n > log2 {
      Pow2Monotone(log2, n - 1);
      assert false;
    }
    Pow2Monotone(n, log2);
    MulOrder(count, Pow2(n), step);
    forall fewer: nat | fewer < step
      ensures fewer * Pow2(n) < blocks
    {
      assert fewer * Pow2(log2) < blocks;
      MulOrder(Pow2(n), Pow2(log2), fewer);
    }
    assert step * Pow2(n) == Pow2(n) * step;
    assert Covers(blocks, Pow2(n), step);
    ShiftUpCovers(blocks, n);
    CoversOnce(blocks, Pow2(n), step, Step(blocks, n));
  }

  /** At most 2^log2 tiles. */
  lemma CountWithin(blocks: positive, log2: nat)
    ensures Count(blocks, log2) <= Pow2(log2)
  {
    hide ShiftUp, TileSizes, Pow2;
    var step, count, p := Step(blocks, log2), Count(blocks, log2), Pow2(log2);
    ShiftUpCovers(blocks, log2);
    TilesCover(blocks, step);
    assert step * p == p * step;
    if count > p {
      assert false;
    }
  }

  /** The coded log2 itself comes back exactly when it is not larger than the frame can use. */
  lemma Log2FromCount(blocks: positive, log2: nat)
    ensures IsLog2(Count(blocks, log2), log2) <==> (log2 == 0 || Pow2(log2 - 1) < blocks)
  {
    CountWithin(blocks, log2);
    if log2 > 0 {
      CountOverHalf(blocks, log2);
    }
  }

  lemma CountOverHalf(blocks: positive, log2: positive)
    ensures Count(blocks, log2) > Pow2(log2 - 1) <==> Pow2(log2 - 1) < blocks
  {
    hide ShiftUp, TileSizes;
    var step, count, half := Step(blocks, log2), Count(blocks, log2), Pow2(log2 - 1);
    assert Pow2(log2) == 2 * half;
    ShiftUpCovers(blocks, log2);
    TilesCover(blocks, step);
    if count <= half {
      MulOrder(count, half, step);
      assert (step - 1) * (2 * half) < blocks;
      StepIsOne(blocks, step, half);
    } else {
      assert half * step < blocks;
      MulOrder(1, step, half);
    }
  }

  lemma StepIsOne(blocks: nat, step: nat, half: nat)
    requires step > 0 && half > 0 && (step - 1) * (2 * half) < blocks <= half * step
    ensures blocks <= half
  {
    assert (step - 1) * (2 * half) == 2 * (half * step) - 2 * half;
    assert half * (step - 2) == half * step - 2 * half;
    Multiples(step - 1, half);
    if step >= 2 {
      MulOrder(0, step - 2, half);
      assert false;
    }
  }

  // ----- the whole of derive_uniform_tiles

  /** Superblocks across a dimension of `minus1` + 1 pixels, by way of the 8-pixel units the specification counts. */
  function Superblocks(minus1: nat, large: bool): nat
  {
    var units := 2 * ((minus1 + 1 + 7) / 8);
    if large then (units + 31) / 32 else (units + 15) / 16
  }

  lemma SuperblocksCover(minus1: nat, large: bool)
    ensures Superblocks(minus1, large) > 0
    ensures Covers(minus1 + 1, if large then 128 else 64, Superblocks(minus1, large))
  {
    var n := Superblocks(minus1, large);
    if large {
      assert n > 0 && (n - 1) * 128 < minus1 + 1 <= n * 128;
      LeastCovers(minus1 + 1, 128, n);
    } else {
      assert n > 0 && (n - 1) * 64 < minus1 + 1 <= n * 64;
      LeastCovers(minus1 + 1, 64, n);
    }
  }

  lemma LeastCovers(x: nat, size: nat, n: nat)
    requires n > 0 && (n - 1) * size < x <= n * size
    ensures Covers(x, size, n)
  {
  }

  /** derive_uniform_tiles. With a zero count it writes nothing. */
  method DeriveUniformTiles(widths: array<nat>, heights: array<nat>, widthMinus1: nat, heightMinus1: nat, large: bool,
                            tileCols: nat, tileRows: nat)
    requires widths.Length == heights.Length == MAX_TILES && widths != heights
    modifies widths, heights
    ensures tileCols == 0 || tileRows == 0 ==> widths[..] == old(widths[..]) && heights[..] == old(heights[..])
    ensures tileCols > 0 && tileRows > 0 ==>
      && Derived(widths[..], old(widths[..]), Superblocks(widthMinus1, large), tileCols)
      && Derived(heights[..], old(heights[..]), Superblocks(heightMinus1, large), tileRows)
  {
    SuperblocksCover(widthMinus1, large);
    SuperblocksCover(heightMinus1, large);
    if tileCols == 0 || tileRows == 0 {
      return;
    }
    ghost var w := DeriveDimension(widths, Superblocks(widthMinus1, large), tileCols);
    ghost var h := DeriveDimension(heights, Superblocks(heightMinus1, large), tileRows);
  }

  /** The array holds the tile sizes minus one that `count` tiles make. */
  ghost predicate Derived(after: seq<nat>, before: seq<nat>, blocks: nat, count: nat)
  {
    blocks > 0 && exists n :: IsLog2(count, n) && Written(after, before, TileSizes(blocks, Step(blocks, n)))
  }

  /**
  The main result: from the count the specification derives from any coded log2, and at most 64 of them, the driver
  writes exactly the specification's tiles.
  */
  lemma TilesAreTheCodedOnes(after: seq<nat>, before: seq<nat>, blocks: nat, log2: nat)
    requires blocks > 0 && |before| == MAX_TILES && Count(blocks, log2) <= MAX_TILES
    requires Derived(after, before, blocks, Count(blocks, log2))
    ensures var tiles := TileSizes(blocks, Step(blocks, log2));
      && Sum(tiles) == blocks
      && (forall k | 0 <= k < |tiles| :: after[k] + 1 == tiles[k])
      && (forall k | |tiles| <= k < MAX_TILES :: after[k] == before[k])
  {
    var n :| IsLog2(Count(blocks, log2), n) && Written(after, before, TileSizes(blocks, Step(blocks, n)));
    StepFromCount(blocks, log2, n);
    TilesCover(blocks, Step(blocks, log2));
  }
}
