/**
The encoder the specification leaves implicit: it narrows an interval symbol by symbol, and any number inside
the last interval, written out as bytes, makes the decoder return the symbols again.
*/
module ArithmeticEncoder {
  import opened Arithmetic
  import opened BoolDecoder
  import RangeCoder

  datatype Symbol = Symbol(prob: byte, bit: bool)

  /** The interval [low, low + range) of numbers of 8 + shift bits. */
  datatype Interval = Interval(low: nat, range: nat, shift: nat)

  const WHOLE := Interval(0, 255, 0)

  ghost function Narrow(e: Interval, y: Symbol): (r: Interval)
    requires e.range >= 2
    ensures r.range >= 1
    ensures e.low <= r.low && r.low + r.range <= e.low + e.range && r.shift == e.shift
  {
    SplitInside(e.range, y.prob);
    var split := Split(e.range, y.prob);
    if y.bit then Interval(e.low + split, e.range - split, e.shift) else e.(range := split)
  }

  ghost function Widen(e: Interval): (r: Interval)
    requires e.range >= 1
    ensures r.range >= 128 && r.shift >= e.shift
    ensures r.low == Shl(e.low, r.shift - e.shift) && r.range == Shl(e.range, r.shift - e.shift)
    decreases 128 - e.range
  {
    if e.range >= 128 then e
    else
      var r := Widen(Interval(2 * e.low, 2 * e.range, e.shift + 1));
      ShlFront(e.low, r.shift - e.shift);
      ShlFront(e.range, r.shift - e.shift);
      r
  }

  ghost function Encode(e: Interval, ys: seq<Symbol>): (r: Interval)
    requires e.range >= 2
    ensures r.range >= 2
    decreases |ys|
  {
    if ys == [] then e else Encode(Widen(Narrow(e, ys[0])), ys[1..])
  }

  /** Later symbols only narrow the interval further. */
  lemma {:induction false} EncodeInside(e: Interval, ys: seq<Symbol>)
    requires e.range >= 2
    ensures var r := Encode(e, ys);
      && r.shift >= e.shift
      && Shl(e.low, r.shift - e.shift) <= r.low
      && r.low + r.range <= Shl(e.low + e.range, r.shift - e.shift)
    decreases |ys|
  {
    hide Narrow;
    if ys != [] {
      var a := Narrow(e, ys[0]);
      var w := Widen(a);
      var r := Encode(w, ys[1..]);
      EncodeInside(w, ys[1..]);
      var m, n := w.shift - e.shift, r.shift - w.shift;
      ShlSum(a.low, a.range, m);
      ShlOrder(e.low, a.low, m);
      ShlOrder(a.low + a.range, e.low + e.range, m);
      ShlOrder(Shl(e.low, m), w.low, n);
      ShlOrder(w.low + w.range, Shl(e.low + e.range, m), n);
      ShlTwice(e.low, m, n);
      ShlTwice(e.low + e.range, m, n);
    }
  }

  /** The bits from the front of the buffer lie in the interval at every scale up to that of the last one. */
  ghost predicate InsideAt(b: seq<byte>, e: Interval)
  {
    e.low <= Window(b, 0, 8 + e.shift) < e.low + e.range
  }

  lemma InsideEarlier(b: seq<byte>, e: Interval, ys: seq<Symbol>)
    requires e.range >= 2 && InsideAt(b, Encode(e, ys))
    ensures InsideAt(b, e)
  {
    hide BitAt, Window;
    var r := Encode(e, ys);
    EncodeInside(e, ys);
    var d := r.shift - e.shift;
    var v := Window(b, 0, 8 + e.shift);
    WindowSplit(b, 0, 8 + e.shift, d);
    var w := Window(b, 8 + e.shift, d);
    ShlOne(d);
    ShlSum(v, 1, d);
    if v < e.low {
      ShlOrder(v + 1, e.low, d);
    } else if v >= e.low + e.range {
      ShlOrder(e.low + e.range, v, d);
    }
  }

  /** Decoder and encoder at the same point: same range, and the value is what exceeds the interval's low end. */
  ghost predicate Aligned(b: seq<byte>, s: State, e: Interval)
  {
    s.range == e.range && s.pos == 8 + e.shift && s.value + e.low == Window(b, 0, 8 + e.shift)
  }

  lemma {:induction false} NormalizeAligned(b: seq<byte>, s: State, e: Interval)
    requires e.range >= 1 && Aligned(b, s, e)
    ensures Aligned(b, Normalize(b, s), Widen(e))
    decreases 128 - e.range
  {
    if e.range < 128 {
      NormalizeAligned(b, State(2 * s.range, 2 * s.value + BitAt(b, s.pos), s.pos + 1),
                       Interval(2 * e.low, 2 * e.range, e.shift + 1));
    }
  }

  /** Reading with the symbol's probability gives the symbol's bit, whichever half was chosen. */
  lemma ReadUndoesNarrow(b: seq<byte>, s: State, e: Interval, y: Symbol)
    requires e.range >= 2 && Aligned(b, s, e) && InsideAt(b, Narrow(e, y))
    ensures ReadBool(b, s, y.prob).bit == y.bit
    ensures Aligned(b, ReadBool(b, s, y.prob).state, Widen(Narrow(e, y)))
  {
    SplitInside(e.range, y.prob);
    NormalizeAligned(b, Decide(s, y.prob).state, Narrow(e, y));
  }

  lemma {:induction false} WidenInside(b: seq<byte>, e: Interval)
    requires e.range >= 1 && InsideAt(b, Widen(e))
    ensures InsideAt(b, e)
    decreases 128 - e.range
  {
    if e.range < 128 {
      var n := 8 + e.shift;
      WidenInside(b, Interval(2 * e.low, 2 * e.range, e.shift + 1));
      assert Window(b, 0, n + 1) == 2 * Window(b, 0, n) + BitAt(b, n);
    }
  }

  function Probs(ys: seq<Symbol>): seq<byte>
  {
    seq(|ys|, i requires 0 <= i < |ys| => ys[i].prob)
  }

  function Bits(ys: seq<Symbol>): seq<bool>
  {
    seq(|ys|, i requires 0 <= i < |ys| => ys[i].bit)
  }

  lemma {:induction false} DecodesFrom(b: seq<byte>, s: State, e: Interval, ys: seq<Symbol>)
    requires e.range >= 2 && Aligned(b, s, e) && InsideAt(b, Encode(e, ys))
    ensures ReadAll(b, s, Probs(ys)) == Bits(ys)
    decreases |ys|
  {
    hide BitAt, Window, Normalize;
    if ys != [] {
      var w := Widen(Narrow(e, ys[0]));
      InsideEarlier(b, w, ys[1..]);
      WidenInside(b, Narrow(e, ys[0]));
      ReadUndoesNarrow(b, s, e, ys[0]);
      DecodesFrom(b, ReadBool(b, s, ys[0].prob).state, w, ys[1..]);
      assert Probs(ys)[1..] == Probs(ys[1..]);
      assert Bits(ys) == [ys[0].bit] + Bits(ys[1..]);
    }
  }

  /** x as n big-endian bytes. */
  ghost function Bytes(x: nat, n: nat): (b: seq<byte>)
    ensures |b| == n
  {
    if n == 0 then [] else Bytes(x / 256, n - 1) + [x % 256]
  }

  lemma {:induction false} WindowOfFront(b: seq<byte>, c: seq<byte>, n: nat)
    requires n <= 8 * |b|
    ensures Window(b + c, 0, n) == Window(b, 0, n)
  {
    if n > 0 {
      WindowOfFront(b, c, n - 1);
      assert (n - 1) / 8 < |b|;
    }
  }

  lemma {:induction false} BytesWindow(x: nat, n: nat, k: nat)
    requires x < Pow2(8 * n) && k + k == 16
    ensures Window(Bytes(x, n), 0, 8 * n) == x
    decreases n
  {
    hide BitAt, Window;
    if n > 0 {
      var b := Bytes(x, n);
      var front := Bytes(x / 256, n - 1);
      Pow2Eight(8 * (n - 1));
      BytesWindow(x / 256, n - 1, k);
      WindowSplit(b, 0, 8 * (n - 1), k);
      WindowOfFront(front, [x % 256], 8 * (n - 1));
      WindowByte(b, n - 1, k);
      ShlEight(x / 256, 0);
    }
  }

  ghost function Length(e: Interval): (n: nat)
    ensures n >= 3 && 8 * n > 8 + e.shift
  {
    (8 + e.shift) / 8 + 2
  }

  /** The low end of the interval, padded with zero bits to whole bytes and to at least three of them. */
  ghost function Buffer(e: Interval): (b: seq<byte>)
    ensures |b| == Length(e)
  {
    Bytes(Shl(e.low, 8 * Length(e) - (8 + e.shift)), Length(e))
  }

  lemma ShlCancel(x: nat, y: nat, r: nat, n: nat)
    requires Shl(x, n) == Shl(y, n) + r && r < Pow2(n)
    ensures x == y
  {
    ShlOne(n);
    if x < y {
      ShlSum(x, y - x, n);
      ShlOrder(1, y - x, n);
    } else if y < x {
      ShlSum(y, x - y, n);
      ShlOrder(1, x - y, n);
    }
  }

  lemma EncodedFits(ys: seq<Symbol>, k: nat)
    requires k + k == 16
    ensures var e := Encode(WHOLE, ys); e.low < Pow2(k + e.shift)
  {
    hide Encode;
    var e := Encode(WHOLE, ys);
    EncodeInside(WHOLE, ys);
    Pow2Eight(0);
    ShlBound(255, k, e.shift);
    assert Shl(WHOLE.low, e.shift) >= 0;
  }

  /** The first m bits of a number written out with pad zeros after it. */
  lemma BytesStartWith(x: nat, n: nat, m: nat, pad: nat, k: nat)
    requires x < Pow2(m) && m + pad == 8 * n && k + k == 16
    ensures Window(Bytes(Shl(x, pad), n), 0, m) == x
  {
    hide Bytes, BitAt, Window;
    var b := Bytes(Shl(x, pad), n);
    ShlBound(x, m, pad);
    BytesWindow(Shl(x, pad), n, k);
    WindowSplit(b, 0, m, pad);
    ShlCancel(x, Window(b, 0, m), Window(b, m, pad), pad);
  }

  lemma BufferInside(ys: seq<Symbol>)
    ensures InsideAt(Buffer(Encode(WHOLE, ys)), Encode(WHOLE, ys))
  {
    hide Encode, Bytes, Window, Pow2, Shl;
    var e := Encode(WHOLE, ys);
    EncodedFits(ys, 8);
    BytesStartWith(e.low, Length(e), 8 + e.shift, 8 * Length(e) - (8 + e.shift), 8);
  }

  lemma InitAligned(b: seq<byte>, k: nat)
    requires |b| >= 1 && k + k == 16
    ensures Aligned(b, Init(b), WHOLE)
  {
    hide Window;
    WindowByte(b, 0, k);
  }

  /** Whatever symbols are encoded, the specification's decoder returns them. */
  lemma DecodeUndoesEncode(ys: seq<Symbol>)
    ensures var b := Buffer(Encode(WHOLE, ys));
      ReadAll(b, Init(b), Probs(ys)) == Bits(ys)
  {
    hide Encode, Buffer, Window, Aligned, InsideAt, ReadAll;
    var b := Buffer(Encode(WHOLE, ys));
    BufferInside(ys);
    InitAligned(b, 8);
    DecodesFrom(b, Init(b), WHOLE, ys);
  }

  lemma FirstRead(b: seq<byte>, s: State, ys: seq<Symbol>)
    requires s.range >= 2 && ys != [] && ReadAll(b, s, Probs(ys)) == Bits(ys)
    ensures ReadBool(b, s, ys[0].prob).bit == ys[0].bit
    ensures ReadAll(b, ReadBool(b, s, ys[0].prob).state, Probs(ys[1..])) == Bits(ys[1..])
  {
    hide ReadBool, Encode, Buffer;
    assert Probs(ys)[1..] == Probs(ys[1..]) && Bits(ys)[1..] == Bits(ys[1..]);
    assert ReadAll(b, s, Probs(ys))[0] == Bits(ys)[0];
  }

  /**
  And so does the word-at-a-time decoder, for every sequence that starts with the marker: some buffer decodes to
  exactly that sequence.
  */
  method Decode(ys: seq<Symbol>, buf: seq<byte>) returns (rc: int, bits: seq<bool>)
    requires ys != [] && ys[0] == Symbol(128, false)
    requires buf == Buffer(Encode(WHOLE, ys))
    ensures rc == 0 && bits == Bits(ys[1..])
  {
    hide Encode, Buffer, ReadAll, ReadBool, Bits;
    DecodeUndoesEncode(ys);
    FirstRead(buf, Init(buf), ys);
    rc, bits := RangeCoder.DecodeRun(buf, Probs(ys[1..]));
  }
}
