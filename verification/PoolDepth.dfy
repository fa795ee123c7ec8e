/**
How many CAPTURE buffers a session asks for (context.c): as deep as a memory budget allows, within fixed bounds.
*/
module PoolDepth {

  import opened Arithmetic

  const WORD64: int := 0x1_0000_0000_0000_0000
  const POOL_MAX := 64
  const POOL_MIN := 20
  const POOL_BUDGET := 384 * 1024 * 1024
  const AV1_MAX := 25
  const AV1_REFERENCES := 9
  const AV1_BUDGET := 448 * 1024 * 1024

  /** A width or a height: a positive C int. */
  type dimension = x: int | 0 < x < 0x8000_0000 witness 1

  /** What a 64-bit product comes to in bytes, and what av1_motion_vector_bytes can come to. */
  type frameSize = x: int | 0 <= x < WORD64 / 8
  type vectorSize = x: int | 0 <= x < WORD64 / 16

  function FrameBytes(width: dimension, height: dimension, bpp: nat): nat
  {
    width * height * bpp / 8
  }

  /** av1_motion_vector_bytes. */
  function MotionVectorBytes(width: dimension, height: dimension): nat
  {
    (width + 63) / 64 * ((height + 63) / 64) * 384 * 2 + 512
  }

  function Minimum(av1: bool): nat
  {
    if av1 then AV1_REFERENCES else POOL_MIN
  }

  function Maximum(av1: bool): nat
  {
    if av1 then AV1_MAX else POOL_MAX
  }

  function Budget(av1: bool): nat
  {
    if av1 then AV1_BUDGET else POOL_BUDGET
  }

  function Wrap64(x: nat): (r: nat)
    ensures r < WORD64 && (x < WORD64 ==> r == x)
  {
    x % WORD64
  }

  /** The frame's size as the driver's 64-bit products have it. */
  function DriverFrameBytes(width: dimension, height: dimension, bpp: nat): nat
  {
    Wrap64(Wrap64(width * height) * bpp) / 8
  }

  /** pool_depth, with the wrap-around of its 64-bit products. */
  method ComputePoolDepth(width: dimension, height: dimension, bpp: nat, av1: bool) returns (depth: nat)
    ensures depth == Depth(DriverFrameBytes(width, height, bpp), MotionVectorBytes(width, height), av1)
  {
    hide Wrap64, MotionVectorBytes, DriverFrameBytes;
    var frameBytes := DriverFrameBytes(width, height, bpp);
    var budget, maximum, minimum := POOL_BUDGET, POOL_MAX, POOL_MIN;
    if frameBytes == 0 {
      return POOL_MAX;
    }
    if av1 {
      var privateBytes := Wrap64(frameBytes + MotionVectorBytes(width, height));
      budget := AV1_BUDGET;
      maximum := AV1_MAX;
      minimum := AV1_REFERENCES;
      if Wrap64(privateBytes * AV1_REFERENCES) >= budget {
        return minimum;
      }
      budget := budget - Wrap64(privateBytes * AV1_REFERENCES);
    }
    depth := budget / frameBytes;
    if depth > maximum {
      depth := maximum;
    }
    if depth < minimum {
      depth := minimum;
    }
  }

  function Clamp(x: nat, low: nat, high: nat): nat
  {
    var y := if x > high then high else x;
    if y < low then low else y
  }

  /** The depth for frames of this many bytes, with this many for motion vectors. */
  function Depth(frame: nat, vectors: nat, av1: bool): nat
  {
    var private := Wrap64(Wrap64(frame + vectors) * AV1_REFERENCES);
    if frame == 0 then POOL_MAX
    else if !av1 then Clamp(POOL_BUDGET / frame, POOL_MIN, POOL_MAX)
    else if private >= AV1_BUDGET then AV1_REFERENCES
    else Clamp((AV1_BUDGET - private) / frame, AV1_REFERENCES, AV1_MAX)
  }

  /** What is left for the pool; 0 when the private buffers alone are too much. */
  function Left(frame: nat, vectors: nat, av1: bool): nat
  {
    var private := Wrap64(Wrap64(frame + vectors) * AV1_REFERENCES);
    if !av1 then POOL_BUDGET else if private < AV1_BUDGET then AV1_BUDGET - private else 0
  }

  lemma DepthIsQuotient(frame: positive, vectors: nat, av1: bool)
    ensures Depth(frame, vectors, av1) == Clamp(Left(frame, vectors, av1) / frame, Minimum(av1), Maximum(av1))
  {
    hide Wrap64;
  }

  /** What a pool of this depth takes, with the private buffers the kernel adds for AV1. */
  function Memory(depth: nat, frame: nat, vectors: nat, av1: bool): nat
  {
    if av1 then (depth + AV1_REFERENCES) * frame + AV1_REFERENCES * vectors else depth * frame
  }

  /** Within its bounds, and within the budget unless it is already as shallow as the codec allows. */
  predicate Promised(depth: nat, frame: nat, vectors: nat, av1: bool)
  {
    && Minimum(av1) <= depth <= Maximum(av1)
    && (Memory(depth, frame, vectors, av1) <= Budget(av1) || depth == Minimum(av1))
  }

  /** One buffer more than the least is already over the budget. */
  predicate Large(frame: nat, vectors: nat, av1: bool)
  {
    Memory(Minimum(av1) + 1, frame, vectors, av1) > Budget(av1)
  }

  lemma QuotientBounds(x: nat, n: positive)
    ensures x / n * n <= x < (x / n + 1) * n
  {
  }

  lemma QuotientAntitone(x: nat, n: nat, y: nat, m: nat)
    requires 0 < n <= m && y <= x
    ensures y / m <= x / n
  {
    QuotientBounds(x, n);
    QuotientBounds(y, m);
    if y / m > x / n {
      MulOrder(x / n + 1, y / m, n, m);
      assert false;
    }
  }

  lemma MulOrder(a: nat, b: nat, n: nat, m: nat)
    requires a <= b && n <= m
    ensures a * n <= b * m
  {
  }

  /** A depth is never under the least one, and only a computed size of 0 takes AV1 over its greatest. */
  lemma DepthBounds(frame: nat, vectors: nat, av1: bool)
    ensures Minimum(av1) <= Depth(frame, vectors, av1)
    ensures Depth(frame, vectors, av1) <= Maximum(av1) <==> !(frame == 0 && av1)
    ensures frame == 0 ==> Depth(frame, vectors, av1) == POOL_MAX
  {
  }

  /** What is left of the budget once the kernel's private buffers are charged; their own product may be cut short. */
  lemma PrivateIsExact(frame: frameSize, vectors: vectorSize)
    ensures var exact := (frame + vectors) * AV1_REFERENCES;
      || Wrap64(Wrap64(frame + vectors) * AV1_REFERENCES) == exact
      || (frame > AV1_BUDGET && exact > AV1_BUDGET)
  {
  }

  lemma MulQuotient(k: nat, x: nat, n: positive)
    requires k <= x / n
    ensures k * n <= x
  {
    QuotientBounds(x, n);
    MulOrder(k, x / n, n, n);
  }

  lemma MemorySplit(depth: nat, frame: nat, vectors: nat)
    ensures Memory(depth, frame, vectors, false) == depth * frame
    ensures Memory(depth, frame, vectors, true) == depth * frame + (frame + vectors) * AV1_REFERENCES
  {
  }

  /** The pool of a frame counted right: even if the private buffers' product is cut short, the promise holds. */
  lemma DepthFitsBudget(frame: frameSize, vectors: vectorSize, av1: bool)
    requires frame > 0
    ensures Promised(Depth(frame, vectors, av1), frame, vectors, av1)
  {
    hide Wrap64, Memory, Depth;
    DepthBounds(frame, vectors, av1);
    DepthIsQuotient(frame, vectors, av1);
    var depth, left := Depth(frame, vectors, av1), Left(frame, vectors, av1);
    if depth > Minimum(av1) {
      MulQuotient(depth, left, frame);
      MemorySplit(depth, frame, vectors);
      PrivateIsExact(frame, vectors);
      MulOrder(1, depth, frame, frame);
    }
  }

  lemma QuotientBelow(x: nat, n: positive, k: nat)
    ensures x / n <= k <==> x < (k + 1) * n
  {
    QuotientBounds(x, n);
    if x / n <= k {
      MulOrder(x / n + 1, k + 1, n, n);
    } else {
      MulOrder(k + 1, x / n, n, n);
    }
  }

  /** The depth is the least one exactly for the large frames. */
  lemma LeastDepthExact(frame: frameSize, vectors: vectorSize, av1: bool)
    ensures Depth(frame, vectors, av1) == Minimum(av1) <==> frame > 0 && Large(frame, vectors, av1)
  {
    hide Wrap64, Depth;
    PrivateIsExact(frame, vectors);
    DepthBounds(frame, vectors, av1);
    if frame > 0 {
      DepthIsQuotient(frame, vectors, av1);
      QuotientBelow(Left(frame, vectors, av1), frame, Minimum(av1));
    }
  }

  /** Larger frames never get a deeper pool. */
  lemma DepthAntitone(frame: frameSize, vectors: vectorSize, frame': frameSize, vectors': vectorSize, av1: bool)
    requires 0 < frame <= frame' && vectors <= vectors'
    ensures Depth(frame', vectors', av1) <= Depth(frame, vectors, av1)
  {
    hide Wrap64, Depth;
    DepthIsQuotient(frame, vectors, av1);
    DepthIsQuotient(frame', vectors', av1);
    PrivateIsExact(frame, vectors);
    PrivateIsExact(frame', vectors');
    if Left(frame', vectors', av1) <= Left(frame, vectors, av1) {
      QuotientAntitone(Left(frame, vectors, av1), frame, Left(frame', vectors', av1), frame');
    } else {
      QuotientBelow(Left(frame', vectors', av1), frame', 0);
    }
  }

  // ----- in terms of width and height

  /** 768 bytes for every superblock of 64 by 64 pixels that the picture touches, and 512 more. */
  lemma VectorsExact(width: dimension, height: dimension, n: nat, m: nat)
    requires 64 * (n - 1) < width <= 64 * n && 64 * (m - 1) < height <= 64 * m
    ensures MotionVectorBytes(width, height) == 768 * (n * m) + 512
  {
    assert (width + 63) / 64 == n && (height + 63) / 64 == m;
  }

  lemma PixelsGrow(width: dimension, height: dimension, width': dimension, height': dimension, bpp: nat)
    requires width <= width' && height <= height'
    ensures width * height * bpp <= width' * height' * bpp
    ensures MotionVectorBytes(width, height) <= MotionVectorBytes(width', height')
  {
    MulOrder(width, width', height, height');
    MulOrder(width * height, width' * height', bpp, bpp);
    MulOrder((width + 63) / 64, (width' + 63) / 64, (height + 63) / 64, (height' + 63) / 64);
  }

  lemma SizesAreBounded(width: dimension, height: dimension, bpp: nat)
    ensures DriverFrameBytes(width, height, bpp) < WORD64 / 8
    ensures MotionVectorBytes(width, height) < WORD64 / 16
  {
    MulOrder((width + 63) / 64, 0x200_0000, (height + 63) / 64, 0x200_0000);
  }

  lemma DriverFrameIsFrame(width: dimension, height: dimension, bpp: nat)
    requires 8 <= bpp && width * height * bpp < WORD64
    ensures DriverFrameBytes(width, height, bpp) == FrameBytes(width, height, bpp) > 0
  {
  }

  /** The depth the driver computes for a picture size. */
  function DriverDepth(width: dimension, height: dimension, bpp: nat, av1: bool): nat
  {
    Depth(DriverFrameBytes(width, height, bpp), MotionVectorBytes(width, height), av1)
  }

  /** Sizes the driver handles right: the product fits 64 bits, or what is left of it still counts as a large frame. */
  predicate Sound(width: dimension, height: dimension, bpp: nat, av1: bool)
  {
    || width * height * bpp < WORD64
    || (var frame := DriverFrameBytes(width, height, bpp);
        frame > 0 && Large(frame, MotionVectorBytes(width, height), av1))
  }

  /** The main result, for every size: bounds and budget are kept exactly by the sound sizes. */
  lemma PoolDepthExact(width: dimension, height: dimension, bpp: nat, av1: bool)
    requires 8 <= bpp
    ensures Promised(DriverDepth(width, height, bpp, av1), FrameBytes(width, height, bpp),
                     MotionVectorBytes(width, height), av1)
      <==> Sound(width, height, bpp, av1)
  {
    hide Wrap64, DriverFrameBytes, MotionVectorBytes, Depth;
    var computed, frame, vectors :=
      DriverFrameBytes(width, height, bpp), FrameBytes(width, height, bpp), MotionVectorBytes(width, height);
    SizesAreBounded(width, height, bpp);
    LeastDepthExact(computed, vectors, av1);
    if width * height * bpp < WORD64 {
      DriverFrameIsFrame(width, height, bpp);
      DepthFitsBudget(frame, vectors, av1);
    } else {
      DepthBounds(computed, vectors, av1);
      hide Memory;
      MemorySplit(Depth(computed, vectors, av1), frame, vectors);
      MulOrder(1, Depth(computed, vectors, av1), frame, frame);
    }
  }

  /** A size at least as wide and as high never gets a deeper pool, if its product fits 64 bits. */
  lemma PoolDepthNeverGrows(
    width: dimension, height: dimension, width': dimension, height': dimension, bpp: nat, av1: bool)
    requires 8 <= bpp && width <= width' && height <= height' && width' * height' * bpp < WORD64
    ensures DriverDepth(width', height', bpp, av1) <= DriverDepth(width, height, bpp, av1)
  {
    hide Wrap64, DriverFrameBytes, MotionVectorBytes, Depth;
    PixelsGrow(width, height, width', height', bpp);
    DriverFrameIsFrame(width, height, bpp);
    DriverFrameIsFrame(width', height', bpp);
    SizesAreBounded(width', height', bpp);
    DepthAntitone(FrameBytes(width, height, bpp), MotionVectorBytes(width, height),
                  FrameBytes(width', height', bpp), MotionVectorBytes(width', height'), av1);
  }

  lemma RowSize(width: dimension, height: dimension, bpp: nat)
    requires bpp < 0x1_0000_0000 && width * height * bpp >= WORD64
    ensures 0x2_0000_0000 < width * 1 * bpp < WORD64
  {
    var row := width * bpp;
    assert width * height * bpp == row * height;
    if row <= 0x2_0000_0000 {
      MulOrder(row, 0x2_0000_0000, height, 0x7FFF_FFFF);
    }
    MulOrder(width, 0x8000_0000, bpp, 0x1_0000_0000);
  }

  /** A single row of a size whose product is cut short is a large frame already. */
  lemma RowIsLarge(width: dimension, height: dimension, bpp: nat, av1: bool)
    requires 8 <= bpp < 0x1_0000_0000 && width * height * bpp >= WORD64
    ensures DriverDepth(width, 1, bpp, av1) == Minimum(av1)
  {
    hide Wrap64, DriverFrameBytes, MotionVectorBytes, Depth;
    RowSize(width, height, bpp);
    DriverFrameIsFrame(width, 1, bpp);
    SizesAreBounded(width, 1, bpp);
    LeastDepthExact(DriverFrameBytes(width, 1, bpp), MotionVectorBytes(width, 1), av1);
  }

  /** Exactly the sound sizes get no deeper a pool than any smaller size. */
  lemma NeverGrowsExact(width: dimension, height: dimension, bpp: nat, av1: bool)
    requires 8 <= bpp < 0x1_0000_0000
    ensures (forall w: dimension, h: dimension | w <= width && h <= height ::
               DriverDepth(width, height, bpp, av1) <= DriverDepth(w, h, bpp, av1))
      <==> Sound(width, height, bpp, av1)
  {
    hide Wrap64, DriverFrameBytes, MotionVectorBytes, Depth, FrameBytes, Large;
    var computed, vectors := DriverFrameBytes(width, height, bpp), MotionVectorBytes(width, height);
    SizesAreBounded(width, height, bpp);
    LeastDepthExact(computed, vectors, av1);
    DepthBounds(computed, vectors, av1);
    if Sound(width, height, bpp, av1) {
      forall w: dimension, h: dimension | w <= width && h <= height
        ensures DriverDepth(width, height, bpp, av1) <= DriverDepth(w, h, bpp, av1)
      {
        if width * height * bpp < WORD64 {
          PoolDepthNeverGrows(w, h, width, height, bpp, av1);
        } else {
          DepthBounds(DriverFrameBytes(w, h, bpp), MotionVectorBytes(w, h), av1);
        }
      }
    } else {
      RowIsLarge(width, height, bpp, av1);
      assert !(DriverDepth(width, height, bpp, av1) <= DriverDepth(width, 1, bpp, av1));
    }
  }

  const WRAPPED_WIDTH: dimension := 2146721619
  const WRAPPED_HEIGHT: dimension := 1432163965

  // ----- what some sizes get, at 12 bits a pixel: H.264 and the like first, AV1 second

  lemma DepthAt1080()
    ensures DriverDepth(1920, 1080, 12, false) == 64 && DriverDepth(1920, 1080, 12, true) == 25
  {
    VectorsExact(1920, 1080, 30, 17);
    assert DriverFrameBytes(1920, 1080, 12) == 3110400;
    hide DriverFrameBytes, MotionVectorBytes;
  }

  lemma DepthAt2160()
    ensures DriverDepth(3840, 2160, 12, false) == 32 && DriverDepth(3840, 2160, 12, true) == 25
  {
    VectorsExact(3840, 2160, 60, 34);
    assert DriverFrameBytes(3840, 2160, 12) == 12441600;
    hide DriverFrameBytes, MotionVectorBytes;
  }

  lemma DepthAt2880()
    ensures DriverDepth(5120, 2880, 12, false) == 20 && DriverDepth(5120, 2880, 12, true) == 11
  {
    VectorsExact(5120, 2880, 80, 45);
    assert DriverFrameBytes(5120, 2880, 12) == 22118400;
    hide DriverFrameBytes, MotionVectorBytes;
  }

  lemma DepthAt4320()
    ensures DriverDepth(7680, 4320, 12, false) == 20 && DriverDepth(7680, 4320, 12, true) == 9
  {
    VectorsExact(7680, 4320, 120, 68);
    assert DriverFrameBytes(7680, 4320, 12) == 49766400;
    hide DriverFrameBytes, MotionVectorBytes;
  }

  lemma WrappedFrame()
    ensures DriverFrameBytes(WRAPPED_WIDTH, WRAPPED_HEIGHT, 12) == 1098
    ensures FrameBytes(WRAPPED_WIDTH, WRAPPED_HEIGHT, 12) > 0x4000_0000_0000_0000
  {
    assert WRAPPED_WIDTH * WRAPPED_HEIGHT == 3074457345618259335;
  }

  /** Unsound: a frame of over 2^62 bytes counts as 1098 bytes and gets the deepest pool, which 8K does not. */
  lemma WrappedSizeMissesBudget()
    ensures DriverFrameBytes(WRAPPED_WIDTH, WRAPPED_HEIGHT, 12) == 1098
    ensures FrameBytes(WRAPPED_WIDTH, WRAPPED_HEIGHT, 12) > 0x4000_0000_0000_0000
    ensures DriverDepth(WRAPPED_WIDTH, WRAPPED_HEIGHT, 12, false) == POOL_MAX
    ensures DriverDepth(7680, 4320, 12, false) == POOL_MIN && 7680 <= WRAPPED_WIDTH && 4320 <= WRAPPED_HEIGHT
    ensures !Sound(WRAPPED_WIDTH, WRAPPED_HEIGHT, 12, false)
  {
    WrappedFrame();
    hide FrameBytes, MotionVectorBytes;
    assert DriverFrameBytes(7680, 4320, 12) == 49766400;
    hide DriverFrameBytes;
  }

  // ----- when the computed size is 0: the formats have 12 or 24 bits a pixel

  /** 12 w h leaves less than 8 over a multiple of 2^64 only as 2 * 2^64 + 4. */
  const ZERO_AT_12: int := 0x2AAA_AAAA_AAAA_AAAB

  lemma ZeroArea(area: nat)
    requires area < 0x4000_0000_0000_0000
    ensures Wrap64(area * 24) / 8 == 0 <==> area == 0 || area == 0x2000_0000_0000_0000
    ensures Wrap64(area * 12) / 8 == 0 <==> area == 0 || area == ZERO_AT_12
  {
  }

  lemma ZeroFrame(width: dimension, height: dimension)
    ensures DriverFrameBytes(width, height, 24) == 0 <==> width * height == 0x2000_0000_0000_0000
    ensures DriverFrameBytes(width, height, 12) == 0 <==> width * height == ZERO_AT_12
  {
    hide Wrap64;
    MulOrder(width, 0x7FFF_FFFF, height, 0x7FFF_FFFF);
    MulOrder(1, width, 1, height);
    ZeroArea(width * height);
  }

  lemma Distribute(c: nat, b: nat)
    ensures (c + c) * b == c * b + c * b
    ensures (c + c + 1) * b == c * b + c * b + b
  {
  }

  lemma HalveProduct(a: nat, b: nat, p: nat)
    requires a * b == p + p
    ensures a % 2 == 0 ==> a / 2 * b == p
    ensures a % 2 == 1 ==> b % 2 == 0 && a * (b / 2) == p
  {
    var c, d := a / 2, b / 2;
    Distribute(c, b);
    Distribute(d, a);
    if a % 2 == 0 {
      assert a == c + c;
    } else {
      assert a == c + c + 1;
      assert b == d + d;
      assert a * b == (d + d) * a;
      assert d * a == a * d;
    }
  }

  lemma Pow2At61(n: nat)
    requires n == 5
    ensures Pow2(n + 26) == 0x8000_0000 && Pow2(n + 56) == 0x2000_0000_0000_0000
  {
    Pow2Eight(n);
    Pow2Eight(n + 8);
    Pow2Eight(n + 16);
    assert Pow2(n + 26) == 4 * Pow2(n + 24);
    Pow2Eight(n + 24);
    Pow2Eight(n + 32);
    Pow2Eight(n + 40);
    Pow2Eight(n + 48);
  }

  /** A product of two numbers is a power of two only if both are. */
  lemma {:induction false} FactorsOfPow2(a: nat, b: nat, i: nat, j: nat, k: nat)
    requires a < Pow2(i) && b < Pow2(j) && a * b == Pow2(k)
    ensures k + 2 <= i + j
    decreases k
  {
    assert a > 0 && b > 0;
    if k > 0 {
      HalveProduct(a, b, Pow2(k - 1));
      if a % 2 == 0 {
        FactorsOfPow2(a / 2, b, i - 1, j, k - 1);
      } else {
        FactorsOfPow2(a, b / 2, i, j - 1, k - 1);
      }
    }
  }

  /** The bounds are kept for every size at 24 bits a pixel, and at 12 for all but one number of pixels. */
  lemma DepthWithinBounds(width: dimension, height: dimension, bpp: nat, av1: bool)
    requires bpp == 12 || bpp == 24
    ensures Minimum(av1) <= DriverDepth(width, height, bpp, av1) <= Maximum(av1)
      <==> !(av1 && bpp == 12 && width * height == ZERO_AT_12)
  {
    hide DriverFrameBytes, MotionVectorBytes, Depth;
    DepthBounds(DriverFrameBytes(width, height, bpp), MotionVectorBytes(width, height), av1);
    ZeroFrame(width, height);
    if width * height == 0x2000_0000_0000_0000 {
      Pow2At61(5);
      hide Pow2;
      FactorsOfPow2(width, height, 31, 31, 61);
      assert false;
    }
  }

  // ----- retreating when REQBUFS fails

  const LADDER: seq<nat> := [64, 48, 32, 24, 20, 16, 12, 10, 6, 3]

  predicate Tried(n: nat, want: nat)
  {
    n == want || (n in [64, 48, 32, 24, 20, 16, 12, 10, 6, 3] && n < want)
  }

  predicate Largest(n: nat, want: nat, grants: map<nat, nat>)
  {
    forall m | m in grants && Tried(m, want) :: m <= n
  }

  /**
  request_buffers_backoff. `grants` is the kernel's answers: a size it is absent for is refused, another one gets as
  many buffers as it says, which may be fewer than asked for.
  */
  method RequestBuffersBackoff(want: nat, grants: map<nat, nat>) returns (ok: bool, count: nat)
    ensures ok <==> exists n :: Tried(n, want) && n in grants
    ensures ok ==> exists n | Tried(n, want) && n in grants :: count == grants[n] && Largest(n, want, grants)
  {
    count := 0;
    if want in grants {
      assert Tried(want, want);
      return true, grants[want];
    }
    var i := 0;
    while i < |LADDER|
      invariant 0 <= i <= |LADDER|
      invariant forall k | 0 <= k < i :: LADDER[k] >= want || LADDER[k] !in grants
    {
      if LADDER[i] < want {
        if LADDER[i] in grants {
          forall n | Tried(n, want) && n in grants
            ensures n <= LADDER[i]
          {
            var k :| 0 <= k < |LADDER| && LADDER[k] == n;
            LadderDescends();
          }
          assert Tried(LADDER[i], want);
          return true, grants[LADDER[i]];
        }
      }
      i := i + 1;
    }
    ok := false;
  }

  lemma LadderDescends()
    ensures forall i, k | 0 <= i <= k < |LADDER| :: LADDER[k] <= LADDER[i]
  {
  }
}
