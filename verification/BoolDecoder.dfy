/**
The Boolean decoder of section 9.2 of the VP9 bitstream specification: one bit at a time, over the bits
of a buffer followed by zeros for ever.
*/
module BoolDecoder {
  import opened Arithmetic

  /** Bit k of the buffer, most significant bit of each byte first; past the end every bit is zero. */
  function BitAt(b: seq<byte>, k: nat): (r: nat)
    ensures r < 2
  {
    if k < 8 * |b| then Shr(b[k / 8], 7 - k % 8) % 2 else 0
  }

  /** The n bits from position p on, read as a number. */
  ghost function Window(b: seq<byte>, p: nat, n: nat): (r: nat)
    ensures r < Pow2(n)
  {
    if n == 0 then 0 else 2 * Window(b, p, n - 1) + BitAt(b, p + n - 1)
  }

  /** Taking m bits off the front of a window of m + n. */
  lemma {:induction false} WindowSplit(b: seq<byte>, p: nat, m: nat, n: nat)
    ensures Window(b, p, m + n) == Shl(Window(b, p, m), n) + Window(b, p + m, n)
  {
    hide BitAt;
    if n > 0 {
      WindowSplit(b, p, m, n - 1);
    }
  }

  lemma {:induction false} WindowPastEnd(b: seq<byte>, p: nat, n: nat)
    requires p >= 8 * |b|
    ensures Window(b, p, n) == 0
  {
    if n > 0 {
      WindowPastEnd(b, p, n - 1);
    }
  }

  /** The top n bits of a byte. */
  lemma {:induction false} WindowInByte(b: seq<byte>, i: nat, n: nat)
    requires i < |b| && n <= 8
    ensures Window(b, 8 * i, n) == Shr(b[i], 8 - n)
  {
    if n == 0 {
      ShrByte(b[i], 8);
    } else {
      WindowInByte(b, i, n - 1);
      var k := 8 * i + n - 1;
      assert k / 8 == i && k % 8 == n - 1;
    }
  }

  lemma ShrByte(x: byte, n: nat)
    requires n + n == 16
    ensures Shr(x, n) == 0
  {
    var y := Shr(x, n - 8);
    assert y == x;
    assert Shr(x, n - 6) == x / 2 / 2;
    assert Shr(x, n - 4) == Shr(x, n - 6) / 2 / 2;
    assert Shr(x, n - 2) == Shr(x, n - 4) / 2 / 2;
  }

  lemma WindowByte(b: seq<byte>, i: nat, n: nat)
    requires i < |b| && n + n == 16
    ensures Window(b, 8 * i, n) == b[i]
  {
    WindowInByte(b, i, n);
  }

  /** BoolRange, BoolValue, and how many bits of the buffer have been taken. */
  datatype State = State(range: nat, value: nat, pos: nat)

  function Init(b: seq<byte>): State
    requires |b| >= 1
  {
    State(255, b[0], 8)
  }

  function Split(range: nat, prob: byte): nat
    requires range >= 1
  {
    1 + ((range - 1) * prob) / 256
  }

  lemma ProductBelow(r: nat, p: nat)
    requires p <= 255
    ensures 0 <= r * p <= 255 * r
  {
    assert r * (255 - p) == 255 * r - r * p;
    assert r * (255 - p) >= 0;
  }

  /** Each split leaves both halves nonempty, so a symbol of either value can always be coded. */
  lemma SplitInside(range: nat, prob: byte)
    requires range >= 2
    ensures 1 <= Split(range, prob) < range
  {
    var r, p: nat := range - 1, prob;
    ProductBelow(r, p);
    assert (range - 1) * prob == r * p;
  }

  /** Where the range is split: the least number over prob / 256 of what is above 1. */
  lemma SplitLeast(range: nat, prob: byte, r: nat)
    requires range >= 1
    ensures Split(range, prob) <= r <==> 256 * r > (range - 1) * prob
  {
    var x := (range - 1) * prob;
    assert x == 256 * (x / 256) + x % 256;
  }

  datatype Decision = Decision(bit: bool, state: State)

  function Decide(s: State, prob: byte): Decision
    requires s.range >= 1
  {
    var split := Split(s.range, prob);
    if s.value < split then Decision(false, s.(range := split))
    else Decision(true, State(if s.range > split then s.range - split else 0, s.value - split, s.pos))
  }

  /** The renormalisation loop: double the range, shift one bit in, until the range is at least 128. */
  function Normalize(b: seq<byte>, s: State): (t: State)
    requires s.range >= 1
    ensures t.range >= 128
    ensures s.range <= 255 ==> t.range <= 255
    ensures s.value < s.range ==> t.value < t.range
    decreases 128 - s.range
  {
    if s.range >= 128 then s
    else Normalize(b, State(2 * s.range, 2 * s.value + BitAt(b, s.pos), s.pos + 1))
  }

  function ReadBool(b: seq<byte>, s: State, prob: byte): (d: Decision)
    requires s.range >= 2
    ensures d.state.range >= 128
    ensures s.range <= 255 ==> d.state.range <= 255
    ensures s.value < s.range ==> d.state.value < d.state.range
  {
    SplitInside(s.range, prob);
    var d := Decide(s, prob);
    Decision(d.bit, Normalize(b, d.state))
  }

  /** The bit a read returns, by the numbers alone. */
  lemma ReadBoolExact(b: seq<byte>, s: State, prob: byte)
    requires s.range >= 2
    ensures ReadBool(b, s, prob).bit <==> 256 * s.value > (s.range - 1) * prob
  {
    SplitLeast(s.range, prob, s.value);
  }

  /** The half it leaves: the low one has the least size over prob / 256 of the range, the high one the rest. */
  lemma ReadBoolHalves(b: seq<byte>, s: State, prob: byte, low: nat)
    requires s.range >= 2 && 256 * (low - 1) <= (s.range - 1) * prob < 256 * low
    ensures 1 <= low < s.range
    ensures ReadBool(b, s, prob).state ==
      Normalize(b, if s.value < low then State(low, s.value, s.pos) else State(s.range - low, s.value - low, s.pos))
  {
    SplitInside(s.range, prob);
    SplitLeast(s.range, prob, low);
    SplitLeast(s.range, prob, low - 1);
  }

  /** The first read of a buffer is decided by its first byte, against 254 parts of 256. */
  lemma FirstRead(b: seq<byte>, prob: byte)
    requires b != []
    ensures ReadBool(b, Init(b), prob).bit <==> 256 * b[0] > 254 * prob
    ensures Init(b).pos == 8
  {
    ReadBoolExact(b, Init(b), prob);
  }

  /** The bits a sequence of reads returns, one for each probability. */
  function ReadAll(b: seq<byte>, s: State, probs: seq<byte>): (bits: seq<bool>)
    requires s.range >= 2
    ensures |bits| == |probs|
    decreases |probs|
  {
    if probs == [] then []
    else var d := ReadBool(b, s, probs[0]); [d.bit] + ReadAll(b, d.state, probs[1..])
  }

  function StateAfter(b: seq<byte>, s: State, probs: seq<byte>): (t: State)
    requires s.range >= 2
    ensures t.range >= 2
    decreases |probs|
  {
    if probs == [] then s
    else StateAfter(b, ReadBool(b, s, probs[0]).state, probs[1..])
  }

  /** An n-bit literal: n reads at even odds, most significant first. */
  function ReadLiteral(b: seq<byte>, s: State, n: nat): (r: (nat, State))
    requires s.range >= 2
    ensures r.1.range >= 2
    ensures s.range <= 255 ==> r.1.range <= 255
    ensures s.value < s.range ==> r.1.value < r.1.range
  {
    if n == 0 then (0, s)
    else
      var (v, t) := ReadLiteral(b, s, n - 1);
      var d := ReadBool(b, t, 128);
      (2 * v + (if d.bit then 1 else 0), d.state)
  }

  lemma {:induction false} ReadAllAppend(b: seq<byte>, s: State, probs: seq<byte>, p: byte)
    requires s.range >= 2
    ensures StateAfter(b, s, probs + [p]) == ReadBool(b, StateAfter(b, s, probs), p).state
    ensures ReadAll(b, s, probs + [p]) == ReadAll(b, s, probs) + [ReadBool(b, StateAfter(b, s, probs), p).bit]
    decreases |probs|
  {
    if probs == [] {
      assert [p][1..] == [];
    } else {
      assert (probs + [p])[1..] == probs[1..] + [p];
      ReadAllAppend(b, ReadBool(b, s, probs[0]).state, probs[1..], p);
    }
  }
}
