/**
The word-at-a-time range decoder of vpx_rac.h and vpx_rac.c: 24 bits in one word, two bytes prefetched at a
time, renormalisation by a table and left for the next read. The class keeps beside its fields the state of
the Boolean decoder of section 9.2 of the VP9 specification that it must agree with.
*/
module RangeCoder {
  import opened Arithmetic
  import opened BoolDecoder

  const NORM_SHIFT: seq<nat> :=
    [8, 7] + seq(2, _ => 6) + seq(4, _ => 5) + seq(8, _ => 4) + seq(16, _ => 3) + seq(32, _ => 2)
    + seq(64, _ => 1) + seq(128, _ => 0)

  /** d doublings are what the renormalisation loop does to a range of r. */
  ghost predicate Doublings(r: nat, d: nat)
    decreases d
  {
    if d == 0 then r >= 128 else r < 128 && Doublings(2 * r, d - 1)
  }

  /** The table gives, for every range, the number of doublings the loop would do. */
  lemma {:induction false} NormShiftDoublings(r: nat)
    requires 1 <= r <= 255
    ensures |NORM_SHIFT| == 256
    ensures NORM_SHIFT[r] <= 7 && Doublings(r, NORM_SHIFT[r])
    decreases 128 - r
  {
  }

  /** The value v after the d bits from position p on were shifted in. */
  ghost function ShiftIn(b: seq<byte>, v: nat, p: nat, d: nat): nat
  {
    if d == 0 then v else 2 * ShiftIn(b, v, p, d - 1) + BitAt(b, p + d - 1)
  }

  lemma {:induction false} ShiftInFront(b: seq<byte>, v: nat, p: nat, d: positive)
    ensures ShiftIn(b, v, p, d) == ShiftIn(b, 2 * v + BitAt(b, p), p + 1, d - 1)
  {
    if d > 1 {
      ShiftInFront(b, v, p, d - 1);
    }
  }

  /** The renormalisation loop, as one shift. */
  lemma {:induction false} NormalizeByShift(b: seq<byte>, s: State, d: nat)
    requires s.range >= 1 && Doublings(s.range, d)
    ensures Normalize(b, s) == State(Shl(s.range, d), ShiftIn(b, s.value, s.pos, d), s.pos + d)
    decreases d
  {
    if d > 0 {
      ShiftInFront(b, s.value, s.pos, d);
      NormalizeByShift(b, State(2 * s.range, 2 * s.value + BitAt(b, s.pos), s.pos + 1), d - 1);
      ShlFront(s.range, d);
    }
  }

  /** Which bits were already fetched does not matter to those consumed within them. */
  lemma {:induction false} ShiftInFetched(b: seq<byte>, next: nat, v: nat, p: nat, d: nat)
    requires next <= |b|
    ensures p + d <= 8 * next ==> ShiftIn(b, v, p, d) == ShiftIn(b[..next], v, p, d)
    ensures p <= 8 * next <= p + d ==>
      ShiftIn(b, v, p, d) == ShiftIn(b[..next], v, p, d) + Window(b, 8 * next, p + d - 8 * next)
  {
    if d > 0 {
      ShiftInFetched(b, next, v, p, d - 1);
    }
  }

  /**
  The word: the value in its upper part and below it the next n bits of the bytes fetched so far. Bits not
  fetched yet are zero there, and so are those past the end. In vpx_rac.h, n is 16.
  */
  ghost predicate Holds(fetched: seq<byte>, word: nat, value: nat, pos: nat, n: nat)
  {
    word == Shl(value, n) + Window(fetched, pos, n)
  }

  /** One more fetched bit moves into the value and a zero follows the ones that are left. */
  lemma HoldsShiftOne(f: seq<byte>, word: nat, value: nat, p: nat, n: nat)
    requires Holds(f, word, value, p, n) && p + n >= 8 * |f|
    ensures Holds(f, 2 * word, 2 * value + BitAt(f, p), p + 1, n)
  {
    assert BitAt(f, p + n) == 0;
    hide BitAt;
    WindowSplit(f, p, 1, n);
    assert Window(f, p, 1) == 2 * Window(f, p, 0) + BitAt(f, p);
    assert Window(f, p, 1 + n) == 2 * Window(f, p, n) + BitAt(f, p + n);
    ShlSum(2 * value, BitAt(f, p), n);
    ShlSum(value, value, n);
  }

  /** Shifting the word is shifting fetched bits into the value. */
  lemma {:induction false} HoldsShift(f: seq<byte>, word: nat, value: nat, pos: nat, n: nat, d: nat)
    requires Holds(f, word, value, pos, n) && pos + n >= 8 * |f|
    ensures Holds(f, Shl(word, d), ShiftIn(f, value, pos, d), pos + d, n)
  {
    hide BitAt;
    if d > 0 {
      HoldsShift(f, word, value, pos, n, d - 1);
      HoldsShiftOne(f, Shl(word, d - 1), ShiftIn(f, value, pos, d - 1), pos + d - 1, n);
    }
  }

  /** The two bytes fetched next, the second one zero when the buffer ends in between. */
  function Fetch(b: seq<byte>, next: nat): (v: nat)
    requires next < |b|
    ensures v < 0x1_0000
  {
    var hi: nat, lo: nat := b[next], if next + 1 < |b| then b[next + 1] else 0;
    hi * 256 + lo
  }

  function After(b: seq<byte>, next: nat): (n: nat)
    requires next < |b|
    ensures next < n <= |b|
  {
    if next + 1 < |b| then next + 2 else next + 1
  }

  lemma FetchIsWindow(b: seq<byte>, next: nat, n: nat)
    requires next < |b| && n + n == 16
    ensures Fetch(b, next) == Window(b, 8 * next, n + n)
  {
    hide BitAt;
    WindowSplit(b, 8 * next, n, n);
    WindowByte(b, next, n);
    ShlEight(b[next], 0);
    if next + 1 < |b| {
      WindowByte(b, next + 1, n);
    } else {
      WindowPastEnd(b, 8 * (next + 1), n);
    }
  }

  lemma {:induction false} WindowOfPart(b: seq<byte>, m: nat, p: nat, n: nat)
    requires m <= |b| && (p + n <= 8 * m || m == |b|)
    ensures Window(b[..m], p, n) == Window(b, p, n)
  {
    if m == |b| {
      assert b[..m] == b;
    } else if n > 0 {
      WindowOfPart(b, m, p, n - 1);
    }
  }

  /** The two bytes, shifted e places, fall on bits of the word that are still zero. */
  lemma RefillMerges(b: seq<byte>, next: nat, word: nat, x: nat, e: nat, v: nat, n: nat)
    requires next <= |b| && v < Pow2(n)
    requires Holds(b[..next], word, Shl(x, e), 8 * next + e, n)
    ensures word == Shl(x, n + e) && Or(word, Shl(v, e)) == word + Shl(v, e)
  {
    WindowPastEnd(b[..next], 8 * next + e, n);
    ShlTwice(x, e, n);
    ShlBound(v, n, e);
    OrDisjoint(x, n + e, Shl(v, e));
  }

  /** The bits of v that do not complete the value are the first ones below it. */
  lemma LeftOver(b: seq<byte>, q: nat, m: nat, e: nat, k: nat)
    requires m <= |b| && 8 * m <= q + k && (8 * m == q + k || m == |b|)
    ensures Window(b[..m], q, k + e) == Shl(Window(b, q, k), e)
  {
    WindowOfPart(b, m, q, k);
    WindowSplit(b[..m], q, k, e);
    WindowPastEnd(b[..m], q + k, e);
  }

  lemma SplitFetched(b: seq<byte>, q: nat, e: nat, k: nat)
    ensures Shl(Window(b, q, e + k), e) == Shl(Window(b, q, e), k + e) + Shl(Window(b, q + e, k), e)
  {
    var hi, lo := Window(b, q, e), Window(b, q + e, k);
    WindowSplit(b, q, e, k);
    ShlSum(Shl(hi, k), lo, e);
    ShlTwice(hi, k, e);
  }

  /** e + k bits fetched at position q and merged in e bits late complete the value. */
  lemma RefillCompletes(b: seq<byte>, q: nat, m: nat, x: nat, e: nat, k: nat)
    requires m <= |b| && 8 * m <= q + e + k && (8 * m == q + e + k || m == |b|)
    ensures Holds(b[..m], Shl(Shl(x, e), k + e) + Shl(Window(b, q, e + k), e),
                  Shl(x, e) + Window(b, q, e), q + e, k + e)
  {
    hide BitAt;
    ShlSum(Shl(x, e), Window(b, q, e), k + e);
    SplitFetched(b, q, e, k);
    LeftOver(b, q + e, m, e, k);
  }

  /** What one decoder word says about the value, whatever the bits below it are. */
  lemma HoldsBounds(f: seq<byte>, word: nat, value: nat, pos: nat, n: nat)
    requires Holds(f, word, value, pos, n)
    ensures Shl(value, n) <= word < Shl(value + 1, n)
  {
    ShlSum(value, 1, n);
    ShlOne(n);
  }

  lemma ValueBelow(f: seq<byte>, word: nat, value: nat, pos: nat, n: nat, low: nat)
    requires Holds(f, word, value, pos, n)
    ensures word >= Shl(low, n) <==> value >= low
    ensures value >= low ==> Holds(f, word - Shl(low, n), value - low, pos, n)
  {
    HoldsBounds(f, word, value, pos, n);
    if value >= low {
      ShlOrder(low, value, n);
      ShlSum(low, value - low, n);
    } else {
      ShlOrder(value + 1, low, n);
    }
  }

  lemma WordSmall(f: seq<byte>, word: nat, value: nat, pos: nat, n: nat)
    requires Holds(f, word, value, pos, n) && value <= 255 && n + n == 32
    ensures word < 0x100_0000 < WORD
  {
    HoldsBounds(f, word, value, pos, n);
    ShlOrder(value + 1, 256, n);
    ShlWidth(256, n);
  }

  /**
  The decoder's fields agree with a state of the specification's decoder. `bits` counts, negated, the fetched
  bits not yet consumed; once the buffer is used up it only says that there is nothing left to fetch.
  */
  ghost predicate Tracks(b: seq<byte>, bits: int, next: nat, word: nat, s: State, n: nat)
  {
    && 0 <= bits + n && next <= |b|
    && (if next < |b| then bits == s.pos - 8 * next else bits <= s.pos - 8 * |b|)
    && Holds(b[..next], word, s.value, s.pos, n)
  }

  /** Shifting keeps the agreement while no byte has to be fetched. */
  lemma ShiftTracks(b: seq<byte>, bits: int, next: nat, word: nat, s: State, d: nat, n: nat)
    requires Tracks(b, bits, next, word, s, n)
    requires s.range >= 1 && Doublings(s.range, d)
    requires bits + d < 0 || next == |b|
    ensures Tracks(b, bits + d, next, Shl(word, d), Normalize(b, s), n)
  {
    hide BitAt, Normalize, Holds, Window, ShiftIn, Shl, Doublings;
    NormalizeByShift(b, s, d);
    HoldsShift(b[..next], word, s.value, s.pos, n, d);
    if next == |b| {
      assert b[..next] == b;
    } else {
      ShiftInFetched(b, next, s.value, s.pos, d);
    }
  }

  /** Shifting past the fetched bits leaves a word of zeros below a value that is e bits short. */
  lemma ShiftOver(b: seq<byte>, bits: int, next: nat, word: nat, s: State, d: nat, n: nat) returns (x: nat)
    requires Tracks(b, bits, next, word, s, n)
    requires s.range >= 1 && Doublings(s.range, d)
    requires bits < 0 <= bits + d && next < |b|
    ensures var e := bits + d;
      && Holds(b[..next], Shl(word, d), Shl(x, e), 8 * next + e, n)
      && Normalize(b, s).value == Shl(x, e) + Window(b, 8 * next, e)
      && Normalize(b, s).pos == 8 * next + e
  {
    hide BitAt;
    NormalizeByShift(b, s, d);
    HoldsShift(b[..next], word, s.value, s.pos, n, d);
    ShiftInFetched(b, next, s.value, s.pos, d);
    x := ShiftIn(b[..next], s.value, s.pos, -bits);
    ShiftInPast(b[..next], s.value, s.pos, -bits, bits + d);
  }

  /** Merging in the n bits v of the bytes next..m completes the value. */
  lemma RefillTracks(b: seq<byte>, next: nat, m: nat, v: nat, word: nat, x: nat, t: State, e: nat, n: nat)
    requires next < m <= |b| && e <= n && v == Window(b, 8 * next, n)
    requires 8 * m <= 8 * next + n && (8 * m == 8 * next + n || m == |b|)
    requires Holds(b[..next], word, Shl(x, e), 8 * next + e, n)
    requires t.value == Shl(x, e) + Window(b, 8 * next, e) && t.pos == 8 * next + e
    ensures Or(word, Shl(v, e)) == word + Shl(v, e)
    ensures Tracks(b, e - n, m, word + Shl(v, e), t, n)
  {
    hide BitAt, Window, Or;
    RefillMerges(b, next, word, x, e, v, n);
    var k: nat := n - e;
    RefillCompletes(b, 8 * next, m, x, e, k);
    ShlTwice(x, e, n);
    assert k + e == n && e + k == n;
  }

  /** Shifting in bits that were not fetched yet shifts in zeros. */
  lemma {:induction false} ShiftInPast(f: seq<byte>, v: nat, p: nat, d: nat, e: nat)
    requires p + d >= 8 * |f|
    ensures ShiftIn(f, v, p, d + e) == Shl(ShiftIn(f, v, p, d), e)
  {
    if e > 0 {
      ShiftInPast(f, v, p, d, e - 1);
    }
  }

  /** The low part of the word is 16 bits wide. */
  ghost predicate InStep(b: seq<byte>, bits: int, next: nat, word: nat, s: State)
  {
    forall n: nat :: Pow2(n) == 0x1_0000 ==> Tracks(b, bits, next, word, s, n)
  }

  lemma InStepWidth(b: seq<byte>, bits: int, next: nat, word: nat, s: State) returns (n: nat)
    requires InStep(b, bits, next, word, s)
    ensures n + n == 32 && Tracks(b, bits, next, word, s, n)
    ensures Pow2(n) == 0x1_0000
  {
    n := 16;
    Pow2Width(n);
  }

  lemma InStepFrom(b: seq<byte>, bits: int, next: nat, word: nat, s: State, n: nat)
    requires n + n == 32 && Tracks(b, bits, next, word, s, n)
    ensures InStep(b, bits, next, word, s)
  {
    forall m: nat | Pow2(m) == 0x1_0000
      ensures Tracks(b, bits, next, word, s, m)
    {
      Pow2Width(n);
      Pow2Injective(m, n);
    }
  }

  /** The word lies below the range: 24 bits are all it ever needs. */
  lemma WordBelowRange(b: seq<byte>, bits: int, next: nat, word: nat, s: State)
    requires InStep(b, bits, next, word, s)
    ensures -16 <= bits
    ensures s.value < s.range ==> word < s.range * 0x1_0000
    ensures s.value <= 255 ==> word < 0x100_0000
  {
    var n := InStepWidth(b, bits, next, word, s);
    if s.value <= 255 {
      WordSmall(b[..next], word, s.value, s.pos, n);
    }
    HoldsBounds(b[..next], word, s.value, s.pos, n);
    ShlWidth(s.value + 1, n);
  }

  /** One decision on the word is the specification's decision on the value. */
  lemma DecideInStep(b: seq<byte>, bits: int, next: nat, word: nat, s: State, prob: byte)
    requires InStep(b, bits, next, word, s) && s.range >= 2
    ensures var low, d := Split(s.range, prob), Decide(s, prob);
      && d.bit == (word >= low * 0x1_0000)
      && InStep(b, bits, next, if d.bit then word - low * 0x1_0000 else word, d.state)
      && d.state.range == (if d.bit then s.range - low else low)
  {
    SplitInside(s.range, prob);
    var low, d := Split(s.range, prob), Decide(s, prob);
    var n := InStepWidth(b, bits, next, word, s);
    ValueBelow(b[..next], word, s.value, s.pos, n, low);
    ShlWidth(low, n);
    InStepFrom(b, bits, next, if d.bit then word - low * 0x1_0000 else word, d.state, n);
  }

  /** One renormalisation of the word is the specification's renormalisation loop. */
  lemma RenormInStep(b: seq<byte>, bits: int, next: nat, word: nat, s: State, d: nat)
    requires InStep(b, bits, next, word, s) && (next < |b| ==> bits < 0)
    requires s.range >= 1 && Doublings(s.range, d) && d < 8 && Normalize(b, s).value <= 255
    ensures Shl(word, d) < WORD
    ensures var t, e := Normalize(b, s), bits + d;
      if e >= 0 && next < |b| then
        && Shl(Fetch(b, next), e) < WORD
        && Or(Shl(word, d), Shl(Fetch(b, next), e)) < WORD
        && InStep(b, e - 16, After(b, next), Or(Shl(word, d), Shl(Fetch(b, next), e)), t)
      else
        InStep(b, e, next, Shl(word, d), t)
  {
    hide BitAt, Window;
    var t, e := Normalize(b, s), bits + d;
    var n := InStepWidth(b, bits, next, word, s);
    if e >= 0 && next < |b| {
      var v, m := Fetch(b, next), After(b, next);
      var x := ShiftOver(b, bits, next, word, s, d, n);
      WordSmall(b[..next], Shl(word, d), Shl(x, e), 8 * next + e, n);
      FetchIsWindow(b, next, n / 2);
      RefillTracks(b, next, m, v, Shl(word, d), x, t, e, n);
      WordSmall(b[..m], Shl(word, d) + Shl(v, e), t.value, t.pos, n);
      InStepFrom(b, e - 16, m, Shl(word, d) + Shl(v, e), t, n);
    } else {
      ShiftTracks(b, bits, next, word, s, d, n);
      WordSmall(b[..next], Shl(word, d), t.value, t.pos, n);
      InStepFrom(b, e, next, Shl(word, d), t, n);
    }
  }

  lemma ShlByte(x: byte, k: nat)
    requires k + k == 16
    ensures Shl(x, k) == (x as nat) * 256 && Shl(x, k + k) == (x as nat) * 0x1_0000
    ensures forall y: byte :: Or(Shl(x, k), y) == (x as nat) * 256 + (y as nat)
  {
    ShlEight(x, 0);
    ShlEight(x, k);
    Pow2Eight(0);
    forall y: byte
      ensures Or(Shl(x, k), y) == (x as nat) * 256 + (y as nat)
    {
      OrDisjoint(x, k, y);
    }
  }

  /** The three bytes loaded first, merged into one word. */
  lemma ThreeBytes(hi: byte, mid: byte, lo: byte, k: nat)
    requires k + k == 16
    ensures var upper := Or(Shl(hi, k + k), Shl(mid, k));
      && upper == (hi as nat) * 0x1_0000 + (mid as nat) * 256
      && Or(upper, lo) == upper + (lo as nat)
  {
    Pow2Eight(0);
    ShlBound(mid, k, k);
    ShlByte(mid, k);
    ShlByte(hi, k);
    OrDisjoint(hi, k + k, Shl(mid, k));
    ShlTwice(hi, k, k);
    ShlSum(Shl(hi, k), mid, k);
    OrDisjoint(Shl(hi, k) + (mid as nat), k, lo);
  }

  /** They hold the first value and 16 prefetched bits. */
  lemma InitInStep(b: seq<byte>, k: nat)
    requires |b| >= 3 && k + k == 16
    ensures InStep(b, -16, 3, Or(Or(Shl(b[0], k + k), Shl(b[1], k)), b[2]), Init(b))
  {
    var f := b[..3];
    ThreeBytes(b[0], b[1], b[2], k);
    ShlByte(b[0], k);
    ShlByte(b[1], k);
    WindowSplit(f, 8, k, k);
    WindowByte(f, 1, k);
    WindowByte(f, 2, k);
    InStepFrom(b, -16, 3, Or(Or(Shl(b[0], k + k), Shl(b[1], k)), b[2]), Init(b), k + k);
  }

  lemma InitWord(b: seq<byte>)
    requires |b| >= 3
    ensures InStep(b, -16, 3, Or(Or(Shl32(b[0], 16), Shl32(b[1], 8)), b[2]), Init(b))
  {
    hide BitAt, Window, Or;
    InitInStep(b, 8);
    ShlByte(b[0], 8);
    ShlByte(b[1], 8);
  }

  lemma FetchMerges(b: seq<byte>, next: nat)
    requires next < |b|
    ensures Fetch(b, next) == if next + 1 < |b| then Or(Shl32(b[next], 8), b[next + 1]) else Shl32(b[next], 8)
  {
    ShlByte(b[next], 8);
  }

  method LookUpShift(high: nat) returns (d: nat)
    requires 1 <= high <= 255
    ensures d < 8 && Doublings(high, d)
  {
    NormShiftDoublings(high);
    d := NORM_SHIFT[high];
  }

  class VpxRac {
    var high: nat
    var bits: int
    var buffer: seq<byte>
    var next: nat
    var codeWord: nat

    /** The specification's state as of the last decision, before the renormalisation that is still due. */
    ghost var due: State

    ghost predicate Agrees()
      reads this
    {
      && 1 <= high <= 255 && high == due.range && due.value <= 255
      && next <= |buffer| && (next < |buffer| ==> bits < 0)
      && InStep(buffer, bits, next, codeWord, due)
    }

    /** The value lies inside the range: so it does from a 0 marker on. */
    ghost predicate Ready()
      reads this
    {
      Agrees() && due.value < high
    }

    /** The state of the specification's decoder. */
    ghost function Spec(): (s: State)
      requires due.range >= 1
      reads this
      ensures s.range >= 128
    {
      Normalize(buffer, due)
    }

    constructor ()
    {
    }

    method Init(buf: seq<byte>) returns (rc: int)
      modifies this
      ensures rc == if |buf| < 3 then -1 else 0
      ensures rc == 0 ==> Agrees() && high == 255 && buffer == buf && Spec() == BoolDecoder.Init(buf)
    {
      high, bits, buffer, next := 255, -16, buf, 0;
      if |buf| < 3 {
        return -1;
      }
      InitWord(buf);
      codeWord := Or(Or(Shl32(buf[0], 16), Shl32(buf[1], 8)), buf[2]);
      next := 3;
      due := BoolDecoder.Init(buf);
      return 0;
    }

    /** Take the next two bytes, or the last one and a zero. */
    method TakeTwo() returns (v: nat)
      requires next < |buffer|
      modifies this`next
      ensures v == Fetch(buffer, old(next)) && next == After(buffer, old(next))
    {
      FetchMerges(buffer, next);
      v := Shl32(buffer[next], 8);
      next := next + 1;
      if next < |buffer| {
        v := Or(v, buffer[next]);
        next := next + 1;
      }
    }

    /** Bring the range back to at least 128; the renormalised word is returned, not stored. */
    method Renorm() returns (word: nat)
      requires Agrees() && (due.value < high || high == 255)
      modifies this`high, this`bits, this`next
      ensures 128 <= high <= 255 && high == Spec().range && Spec().value <= 255
      ensures InStep(buffer, bits, next, word, Spec())
      ensures next <= |buffer| && (next < |buffer| ==> -16 <= bits < 0)
    {
      hide BitAt, Window, Or, Holds, Tracks, InStep;
      var shift := LookUpShift(high);
      ghost var t := Spec();
      RenormInStep(buffer, bits, next, codeWord, due, shift);
      NormalizeByShift(buffer, due, shift);
      var b := bits;
      word := codeWord;
      high := Shl(high, shift);
      word := Shl32(word, shift);
      assert word == Shl(codeWord, shift);
      b := b + shift;
      if b >= 0 && next < |buffer| {
        var v := TakeTwo();
        word := Or(word, Shl32(v, b));
        b := b - 16;
        assert InStep(buffer, b, next, word, t);
      } else {
        assert InStep(buffer, b, next, word, t);
      }
      bits := b;
      WordBelowRange(buffer, bits, next, word, t);
    }

    /** A read at probability prob / 256: bit for bit the specification's. */
    method GetProb(prob: byte) returns (bit: bool)
      requires Agrees() && (due.value < high || high == 255)
      modifies this`high, this`bits, this`next, this`codeWord, this`due
      ensures Agrees() && (old(Ready()) || !bit ==> Ready())
      ensures Decision(bit, Spec()) == ReadBool(buffer, old(Spec()), prob)
      ensures bit <==> 256 * old(Spec().value) > (old(Spec().range) - 1) * prob
      ensures codeWord < WORD && (old(Ready()) || !bit ==> codeWord < high * 0x1_0000)
    {
      hide BitAt, Window, Holds, Tracks, InStep;
      ReadBoolExact(buffer, Spec(), prob);
      var word := Renorm();
      var low := 1 + ((high - 1) * prob) / 256;
      DecideInStep(buffer, bits, next, word, Spec(), prob);
      SplitInside(high, prob);
      due := Decide(Spec(), prob).state;
      bit := word >= low * 0x1_0000;
      high := if bit then high - low else low;
      codeWord := if bit then word - low * 0x1_0000 else word;
      WordBelowRange(buffer, bits, next, codeWord, due);
    }

    /** The same read with its two outcomes as branches, used where a marker or an update flag is read. */
    method GetProbBranchy(prob: byte) returns (bit: bool)
      requires Agrees() && (due.value < high || high == 255)
      modifies this`high, this`bits, this`next, this`codeWord, this`due
      ensures Agrees() && (old(Ready()) || !bit ==> Ready())
      ensures Decision(bit, Spec()) == ReadBool(buffer, old(Spec()), prob)
      ensures bit <==> 256 * old(Spec().value) > (old(Spec().range) - 1) * prob
    {
      hide BitAt, Window, Holds, Tracks, InStep;
      ReadBoolExact(buffer, Spec(), prob);
      var word := Renorm();
      var low := 1 + ((high - 1) * prob) / 256;
      var lowShift := low * 0x1_0000;
      DecideInStep(buffer, bits, next, word, Spec(), prob);
      SplitInside(high, prob);
      due := Decide(Spec(), prob).state;
      if word >= lowShift {
        high := high - low;
        codeWord := word - lowShift;
        return true;
      }
      high := low;
      codeWord := word;
      return false;
    }

    /** A read at even odds: the specification's read at probability 128. */
    method Get() returns (bit: bool)
      requires Ready()
      modifies this`high, this`bits, this`next, this`codeWord, this`due
      ensures Ready()
      ensures Decision(bit, Spec()) == ReadBool(buffer, old(Spec()), 128)
      ensures bit <==> 2 * old(Spec().value) > old(Spec().range) - 1
    {
      hide BitAt, Window, Holds, Tracks, InStep;
      ReadBoolExact(buffer, Spec(), 128);
      var word := Renorm();
      var low := (high + 1) / 2;
      var lowShift := low * 0x1_0000;
      DecideInStep(buffer, bits, next, word, Spec(), 128);
      SplitInside(high, 128);
      due := Decide(Spec(), 128).state;
      bit := word >= lowShift;
      if bit {
        high := high - low;
        word := word - lowShift;
      } else {
        high := low;
      }
      codeWord := word;
    }

    /** An n-bit literal, most significant bit first. */
    method GetUint(n: nat) returns (v: nat)
      requires Ready() && n <= 32
      modifies this`high, this`bits, this`next, this`codeWord, this`due
      ensures Ready()
      ensures (v, Spec()) == ReadLiteral(buffer, old(Spec()), n)
      ensures v < Pow2(n)
    {
      hide BitAt, Window, Holds, Tracks, InStep, Normalize, ReadBool, Shl, Or;
      v := 0;
      ghost var start := Spec();
      var left := n;
      while left > 0
        invariant 0 <= left <= n && Ready() && buffer == old(buffer)
        invariant (v, Spec()) == ReadLiteral(buffer, start, n - left)
        invariant v < Pow2(n - left)
      {
        left := left - 1;
        var bit := Get();
        v := 2 * v + if bit then 1 else 0;
      }
    }
  }

  /**
  Open a buffer, insist on a 0 marker and read one bit for each probability: what every reader of a compressed
  header does, whatever it reads. The buffer's length may be odd and the reads may run past its end.
  */
  method DecodeRun(buf: seq<byte>, probs: seq<byte>) returns (rc: int, bits: seq<bool>)
    ensures rc == 0 <==> |buf| >= 3 && !ReadBool(buf, Init(buf), 128).bit
    ensures rc == 0 ==> bits == ReadAll(buf, ReadBool(buf, Init(buf), 128).state, probs)
  {
    hide BitAt, Normalize;
    var c := new VpxRac();
    bits := [];
    rc := c.Init(buf);
    if rc < 0 {
      return;
    }
    var marker := c.GetProbBranchy(128);
    if marker {
      return -1, [];
    }
    ghost var s := c.Spec();
    for i := 0 to |probs|
      invariant c.Ready() && c.buffer == buf
      invariant bits == ReadAll(buf, s, probs[..i]) && c.Spec() == StateAfter(buf, s, probs[..i])
    {
      ReadAllAppend(buf, s, probs[..i], probs[i]);
      assert probs[..i + 1] == probs[..i] + [probs[i]];
      var bit := c.GetProb(probs[i]);
      bits := bits + [bit];
    }
    assert probs[..|probs|] == probs;
  }
}
