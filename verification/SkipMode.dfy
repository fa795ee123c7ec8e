/**
AV1 order hints (av1.c): distances inside a wrapping field, and the two references skip mode predicts from. Sections
5.9.3 and 5.9.22 of the AV1 specification.
*/
module SkipMode {
  import opened Arithmetic

  const REFS_PER_FRAME := 7

  function Half(bits: nat): (m: int)
    requires bits > 0
    ensures m > 0
  {
    Pow2(bits - 1)
  }

  /** Hints are orders modulo the width of their field. */
  function Field(bits: nat): (n: int)
    ensures n > 0 && (bits > 0 ==> n == 2 * Half(bits))
  {
    Pow2(bits)
  }

  /** x & (2^k - 1) and x & 2^k on a two's complement int, for 2^k = m. */
  function Below(x: int, m: int): int
    requires m > 0
  {
    x % m
  }

  function BitOf(x: int, m: int): int
    requires m > 0
  {
    if x % (2 * m) < m then 0 else m
  }

  /** relative_dist. */
  function RelativeDist(bits: nat, a: int, b: int): int
  {
    if bits == 0 then 0
    else
      var diff, m := a - b, Half(bits);
      Below(diff, m) - BitOf(diff, m)
  }

  // ----- the distance is the signed residue

  /** The bit at m and the bits below it make up the residue modulo 2 m. */
  lemma HalvesOfResidue(x: int, m: positive)
    ensures x % m == x % (2 * m) - BitOf(x, m)
  {
    var q, r := x / (2 * m), x % (2 * m);
    assert x == q * (2 * m) + r;
    assert q * (2 * m) == (2 * q) * m && (2 * q + 1) * m == (2 * q) * m + m;
    if r < m {
      QuotientIs(x, m, 2 * q, r);
    } else {
      QuotientIs(x, m, 2 * q + 1, r - m);
    }
  }

  /** A signed residue is the only number of its class in [-m, m). */
  lemma ResidueUnique(x: int, y: int, m: int, k: int)
    requires m > 0 && -m <= x < m && -m <= y < m && x - y == k * (2 * m)
    ensures x == y
  {
    Multiples(k, 2 * m);
  }

  /** relative_dist is a - b brought into [-2^(bits-1), 2^(bits-1)) by whole turns of the field. */
  lemma DistIsSignedResidue(bits: positive, a: int, b: int) returns (turns: int)
    ensures -Half(bits) <= RelativeDist(bits, a, b) < Half(bits)
    ensures a - b == RelativeDist(bits, a, b) + turns * Field(bits)
  {
    var diff, m := a - b, Half(bits);
    HalvesOfResidue(diff, m);
    var q, r := diff / (2 * m), diff % (2 * m);
    assert diff == q * (2 * m) + r;
    if r < m {
      turns := q;
    } else {
      turns := q + 1;
      assert (q + 1) * (2 * m) == q * (2 * m) + 2 * m;
    }
  }

  function Hint(bits: nat, order: int): int
  {
    order % Field(bits)
  }

  lemma TurnsAdd(x: int, y: int, p: int, a: int, q: int, b: int, turns: int, d: int, n: int)
    requires x == p * n + a && y == q * n + b && a - b == d + turns * n
    ensures (x - y) - d == (p - q + turns) * n
  {
  }

  /** On hints of orders less than half the field apart, the distance is the difference of the orders. */
  lemma DistOfHints(bits: nat, x: int, y: int)
    requires bits > 0 && -Half(bits) <= x - y < Half(bits)
    ensures RelativeDist(bits, Hint(bits, x), Hint(bits, y)) == x - y
  {
    hide RelativeDist, Pow2;
    var n := Field(bits);
    var a, b := Hint(bits, x), Hint(bits, y);
    var turns := DistIsSignedResidue(bits, a, b);
    var d := RelativeDist(bits, a, b);
    var p, q := x / n, y / n;
    TurnsAdd(x, y, p, a, q, b, turns, d, n);
    ResidueUnique(x - y, d, Half(bits), p - q + turns);
  }

  /** Half a field apart or more, it is not: the wrapped comparison then says the opposite of the true order. */
  lemma HalfApartIsMisread(bits: nat, x: int, y: int)
    requires bits > 0 && Half(bits) <= x - y < 2 * Half(bits)
    ensures RelativeDist(bits, Hint(bits, x), Hint(bits, y)) < 0
  {
    var n := Field(bits);
    DistOfHints(bits, x - n, y);
    assert Hint(bits, x - n) == Hint(bits, x) by {
      var p := x / n;
      assert x - n == (p - 1) * n + x % n by {
        assert (p - 1) * n == p * n - n;
      }
      QuotientIs(x - n, n, p - 1, x % n);
    }
  }

  // ----- skip mode

  /** The index of a reference, -1 for none, and its hint. */
  datatype Best = Best(index: int, hint: int)

  /** The nearest of the first k references before `limit`. */
  function BestPast(bits: nat, hints: seq<int>, limit: int, k: nat): (b: Best)
    requires k <= |hints|
    ensures -1 <= b.index < k
  {
    if k == 0 then Best(-1, 0)
    else
      var b, hint := BestPast(bits, hints, limit, k - 1), hints[k - 1];
      if RelativeDist(bits, hint, limit) < 0 && (b.index < 0 || RelativeDist(bits, hint, b.hint) > 0)
      then Best(k - 1, hint) else b
  }

  function BestFuture(bits: nat, hints: seq<int>, limit: int, k: nat): (b: Best)
    requires k <= |hints|
    ensures -1 <= b.index < k
  {
    if k == 0 then Best(-1, 0)
    else
      var b, hint := BestFuture(bits, hints, limit, k - 1), hints[k - 1];
      if RelativeDist(bits, hint, limit) > 0 && (b.index < 0 || RelativeDist(bits, hint, b.hint) < 0)
      then Best(k - 1, hint) else b
  }

  /** Two references as V4L2 numbers them, the lower first. */
  function Slots(i: int, j: int): (int, int)
  {
    if i < j then (i + 1, j + 1) else (j + 1, i + 1)
  }

  function SkipModeFrames(bits: nat, hints: seq<int>, hint: int, present: bool): (int, int)
  {
    var n := |hints|;
    var forward, backward := BestPast(bits, hints, hint, n), BestFuture(bits, hints, hint, n);
    var second := BestPast(bits, hints, forward.hint, n);
    if !present || forward.index < 0 then (0, 0)
    else if backward.index >= 0 then Slots(forward.index, backward.index)
    else if second.index < 0 then (0, 0)
    else Slots(forward.index, second.index)
  }

  /** derive_skip_mode_frame; orderHints[0] is the intra frame's, so reference i is entry i + 1. */
  method DeriveSkipModeFrame(skipModeFrame: array<int>, orderHints: seq<int>, bits: nat, hint: int, present: bool)
    requires skipModeFrame.Length == 2 && |orderHints| == REFS_PER_FRAME + 1
    modifies skipModeFrame
    ensures (skipModeFrame[0], skipModeFrame[1]) == SkipModeFrames(bits, orderHints[1..], hint, present)
    ensures !present ==> skipModeFrame[0] == 0 == skipModeFrame[1]
  {
    hide RelativeDist;
    ghost var hints := orderHints[1..];
    skipModeFrame[0] := 0;
    skipModeFrame[1] := 0;
    if !present {
      return;
    }
    var forwardIndex, backwardIndex, secondIndex := -1, -1, -1;
    var forwardHint, backwardHint, secondHint := 0, 0, 0;
    var i := 0;
    while i < REFS_PER_FRAME
      invariant 0 <= i <= REFS_PER_FRAME
      invariant Best(forwardIndex, forwardHint) == BestPast(bits, hints, hint, i)
      invariant Best(backwardIndex, backwardHint) == BestFuture(bits, hints, hint, i)
      invariant skipModeFrame[0] == skipModeFrame[1] == 0
    {
      var refHint := orderHints[i + 1];
      if RelativeDist(bits, refHint, hint) < 0 {
        if forwardIndex < 0 || RelativeDist(bits, refHint, forwardHint) > 0 {
          forwardIndex := i;
          forwardHint := refHint;
        }
      } else if RelativeDist(bits, refHint, hint) > 0 {
        if backwardIndex < 0 || RelativeDist(bits, refHint, backwardHint) < 0 {
          backwardIndex := i;
          backwardHint := refHint;
        }
      }
      i := i + 1;
    }
    if forwardIndex < 0 {
      return;
    }
    if backwardIndex >= 0 {
      skipModeFrame[0] := (if forwardIndex < backwardIndex then forwardIndex else backwardIndex) + 1;
      skipModeFrame[1] := (if forwardIndex < backwardIndex then backwardIndex else forwardIndex) + 1;
      return;
    }
    i := 0;
    while i < REFS_PER_FRAME
      invariant 0 <= i <= REFS_PER_FRAME
      invariant Best(secondIndex, secondHint) == BestPast(bits, hints, forwardHint, i)
      invariant skipModeFrame[0] == skipModeFrame[1] == 0
    {
      var refHint := orderHints[i + 1];
      if RelativeDist(bits, refHint, forwardHint) < 0 {
        if secondIndex < 0 || RelativeDist(bits, refHint, secondHint) > 0 {
          secondIndex := i;
          secondHint := refHint;
        }
      }
      i := i + 1;
    }
    if secondIndex < 0 {
      return;
    }
    skipModeFrame[0] := (if forwardIndex < secondIndex then forwardIndex else secondIndex) + 1;
    skipModeFrame[1] := (if forwardIndex < secondIndex then secondIndex else forwardIndex) + 1;
  }

  // ----- the same choice by true order

  ghost predicate Past(orders: seq<int>, limit: int, k: nat)
    requires k <= |orders|
  {
    exists i :: 0 <= i < k && orders[i] < limit
  }

  ghost predicate Future(orders: seq<int>, limit: int, k: nat)
    requires k <= |orders|
  {
    exists i :: 0 <= i < k && orders[i] > limit
  }

  /** The latest of the first k orders before `limit`, the first of them on ties. */
  ghost predicate NearestPast(orders: seq<int>, limit: int, k: nat, i: int)
    requires k <= |orders|
  {
    && 0 <= i < k && orders[i] < limit
    && forall j | 0 <= j < k && orders[j] < limit :: orders[j] < orders[i] || (orders[j] == orders[i] && i <= j)
  }

  ghost predicate NearestFuture(orders: seq<int>, limit: int, k: nat, i: int)
    requires k <= |orders|
  {
    && 0 <= i < k && orders[i] > limit
    && forall j | 0 <= j < k && orders[j] > limit :: orders[j] > orders[i] || (orders[j] == orders[i] && i <= j)
  }

  function Hints(bits: nat, orders: seq<int>): (r: seq<int>)
    ensures |r| == |orders| && forall i | 0 <= i < |orders| :: r[i] == Hint(bits, orders[i])
  {
    seq(|orders|, i requires 0 <= i < |orders| => Hint(bits, orders[i]))
  }

  /** Near enough for hints to tell orders apart. */
  predicate Near(bits: nat, x: int, y: int)
    requires bits > 0
  {
    -Half(bits) <= x - y < Half(bits)
  }

  lemma {:induction false} BestPastIsNearest(bits: nat, orders: seq<int>, limit: int, k: nat)
    requires bits > 0 && k <= |orders|
    requires forall i | 0 <= i < k :: Near(bits, orders[i], limit)
    requires forall i, j | 0 <= i < k && 0 <= j < k && orders[i] < limit && orders[j] < limit ::
      Near(bits, orders[i], orders[j])
    ensures var b := BestPast(bits, Hints(bits, orders), Hint(bits, limit), k);
      if b.index < 0 then !Past(orders, limit, k)
      else NearestPast(orders, limit, k, b.index) && b.hint == Hint(bits, orders[b.index])
  {
    hide RelativeDist, Hint;
    if k > 0 {
      BestPastIsNearest(bits, orders, limit, k - 1);
      var b := BestPast(bits, Hints(bits, orders), Hint(bits, limit), k - 1);
      assert Near(bits, orders[k - 1], limit);
      DistOfHints(bits, orders[k - 1], limit);
      if b.index >= 0 && orders[k - 1] < limit {
        assert Near(bits, orders[k - 1], orders[b.index]);
        DistOfHints(bits, orders[k - 1], orders[b.index]);
      }
    }
  }

  lemma {:induction false} BestFutureIsNearest(bits: nat, orders: seq<int>, limit: int, k: nat)
    requires bits > 0 && k <= |orders|
    requires forall i | 0 <= i < k :: Near(bits, orders[i], limit)
    requires forall i, j | 0 <= i < k && 0 <= j < k && orders[i] > limit && orders[j] > limit ::
      Near(bits, orders[i], orders[j])
    ensures var b := BestFuture(bits, Hints(bits, orders), Hint(bits, limit), k);
      if b.index < 0 then !Future(orders, limit, k)
      else NearestFuture(orders, limit, k, b.index) && b.hint == Hint(bits, orders[b.index])
  {
    hide RelativeDist, Hint;
    if k > 0 {
      BestFutureIsNearest(bits, orders, limit, k - 1);
      var b := BestFuture(bits, Hints(bits, orders), Hint(bits, limit), k - 1);
      assert Near(bits, orders[k - 1], limit);
      DistOfHints(bits, orders[k - 1], limit);
      if b.index >= 0 && orders[k - 1] > limit {
        assert Near(bits, orders[k - 1], orders[b.index]);
        DistOfHints(bits, orders[k - 1], orders[b.index]);
      }
    }
  }

  /**
  What the specification asks for, by true order: the nearest past frame with the nearest future frame, or else the
  two nearest distinct past orders, or else none.
  */
  ghost predicate Chosen(orders: seq<int>, current: int, frames: (int, int))
  {
    var n := |orders|;
    if !Past(orders, current, n) then frames == (0, 0)
    else
      exists f :: NearestPast(orders, current, n, f) && ChosenWith(orders, current, f, frames)
  }

  /** These two references, numbered from 1, the lower first. */
  ghost predicate InOrder(frames: (int, int), i: int, j: int)
  {
    frames.0 < frames.1 && (frames == (i + 1, j + 1) || frames == (j + 1, i + 1))
  }

  ghost predicate ChosenWith(orders: seq<int>, current: int, f: int, frames: (int, int))
    requires 0 <= f < |orders|
  {
    var n := |orders|;
    if Future(orders, current, n) then
      exists b :: NearestFuture(orders, current, n, b) && InOrder(frames, f, b)
    else if Past(orders, orders[f], n) then
      exists g :: NearestPast(orders, orders[f], n, g) && InOrder(frames, f, g)
    else frames == (0, 0)
  }

  /** The main result: strictly within half the field of the current frame, hints choose what true orders would. */
  lemma HintsChooseByOrder(bits: nat, orders: seq<int>, current: int)
    requires bits > 0
    requires forall i | 0 <= i < |orders| :: -Half(bits) < orders[i] - current < Half(bits)
    ensures Chosen(orders, current, SkipModeFrames(bits, Hints(bits, orders), Hint(bits, current), true))
  {
    hide RelativeDist, Hint, BestPast, BestFuture;
    var n, hints, hint := |orders|, Hints(bits, orders), Hint(bits, current);
    BestPastIsNearest(bits, orders, current, n);
    BestFutureIsNearest(bits, orders, current, n);
    var forward, backward := BestPast(bits, hints, hint, n), BestFuture(bits, hints, hint, n);
    if forward.index >= 0 && backward.index < 0 {
      var limit := orders[forward.index];
      forall i | 0 <= i < n
        ensures orders[i] <= current
      {
      }
      BestPastIsNearest(bits, orders, limit, n);
    }
  }

  /** The choice by true order leaves no freedom. */
  lemma ChosenOnce(orders: seq<int>, current: int, x: (int, int), y: (int, int))
    requires Chosen(orders, current, x) && Chosen(orders, current, y)
    ensures x == y
  {
  }

  /** Without order hints there is no skip mode. */
  lemma NoHintsNoSkipMode(hints: seq<int>, hint: int, present: bool)
    ensures SkipModeFrames(0, hints, hint, present) == (0, 0)
  {
    NoHintsNoPast(hints, hint, |hints|);
  }

  lemma {:induction false} NoHintsNoPast(hints: seq<int>, hint: int, k: nat)
    requires k <= |hints|
    ensures BestPast(0, hints, hint, k).index == -1
  {
    if k > 0 {
      NoHintsNoPast(hints, hint, k - 1);
    }
  }
}
