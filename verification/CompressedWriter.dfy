/**
The compressed header written out: the symbols, one after the other, that section 6.3 of the VP9 bitstream
specification asks for, with each probability of the control struct at its place in the struct. What the reader makes
of them is what was written.
*/
module CompressedWriter {
  import opened Arithmetic
  import opened BoolDecoder
  import opened BitSyntax
  import opened ProbDelta
  import opened CompressedHeader
  import A = ArithmeticEncoder

  type Symbol = A.Symbol

  // ----- what the decoder yields

  /** From s on, the decoder returns the symbols' bits when it is asked with their probabilities. */
  predicate Yields(b: seq<byte>, s: State, ys: seq<Symbol>)
    requires s.range >= 2
    decreases |ys|
  {
    ys == []
    || var d := ReadBool(b, s, ys[0].prob); d.bit == ys[0].bit && Yields(b, d.state, ys[1..])
  }

  function After(b: seq<byte>, s: State, ys: seq<Symbol>): (t: State)
    requires s.range >= 2
    ensures t.range >= 2
    decreases |ys|
  {
    if ys == [] then s else After(b, ReadBool(b, s, ys[0].prob).state, ys[1..])
  }

  lemma {:induction false} YieldsBoth(b: seq<byte>, s: State, xs: seq<Symbol>, ys: seq<Symbol>)
    requires s.range >= 2
    ensures Yields(b, s, xs + ys) <==> Yields(b, s, xs) && Yields(b, After(b, s, xs), ys)
    ensures After(b, s, xs + ys) == After(b, After(b, s, xs), ys)
    decreases |xs|
  {
    hide ReadBool;
    if xs == [] {
      assert xs + ys == ys;
    } else {
      assert (xs + ys)[1..] == xs[1..] + ys;
      YieldsBoth(b, ReadBool(b, s, xs[0].prob).state, xs[1..], ys);
    }
  }

  lemma {:induction false} YieldsIsReadAll(b: seq<byte>, s: State, ys: seq<Symbol>)
    requires s.range >= 2
    ensures Yields(b, s, ys) <==> ReadAll(b, s, A.Probs(ys)) == A.Bits(ys)
    decreases |ys|
  {
    hide ReadBool;
    if ys == [] {
      assert A.Probs(ys) == [] && A.Bits(ys) == [];
    } else {
      var d := ReadBool(b, s, ys[0].prob);
      YieldsIsReadAll(b, d.state, ys[1..]);
      assert A.Probs(ys)[1..] == A.Probs(ys[1..]);
      assert A.Bits(ys) == [ys[0].bit] + A.Bits(ys[1..]);
      var rest := ReadAll(b, d.state, A.Probs(ys[1..]));
      assert ([d.bit] + rest)[1..] == rest && ([ys[0].bit] + A.Bits(ys[1..]))[1..] == A.Bits(ys[1..]);
    }
  }

  function CoinsOf(bits: seq<bool>): (ys: seq<Symbol>)
    ensures |ys| == |bits|
  {
    seq(|bits|, i requires 0 <= i < |bits| => A.Symbol(128, bits[i]))
  }

  lemma {:induction false} CoinsRead(b: seq<byte>, s: State, bits: seq<bool>)
    requires s.range >= 2
    ensures Yields(b, s, CoinsOf(bits)) <==> Coins(b, s, |bits|) == bits
    ensures Yields(b, s, CoinsOf(bits)) ==> CoinState(b, s, |bits|) == After(b, s, CoinsOf(bits))
    decreases |bits|
  {
    hide ReadBool;
    if bits != [] {
      var n := |bits| - 1;
      var front, last := bits[..n], A.Symbol(128, bits[n]);
      CoinsRead(b, s, front);
      assert CoinsOf(bits) == CoinsOf(front) + [last];
      YieldsBoth(b, s, CoinsOf(front), [last]);
      assert bits == front + [bits[n]];
      var t := After(b, s, CoinsOf(front));
      assert [last][1..] == [];
      assert Yields(b, t, [last]) <==> ReadBool(b, t, 128).bit == bits[n];
      assert Coins(b, s, n + 1)[..n] == Coins(b, s, n);
    }
  }

  // ----- the content of a header, and its symbols

  /**
  The modes, which transform sizes have coefficient updates, and the coded slots: for each the index of the
  probability, or, for a motion-vector probability, its seven bits.
  */
  datatype Content = Content(txMode: nat, sizes: seq<bool>, comp: nat, coded: map<nat, nat>)

  /** The slots a header of this kind has room for. */
  predicate Present(txMode: nat, sizes: seq<bool>, comp: nat, p: Params, k: nat)
    requires |sizes| == 4
  {
    if k < 12 then txMode == 4
    else if k < 1740 then (k - 12) / 432 <= txMode && sizes[(k - 12) / 432] && !(9 <= (k - 12) % 108 < 18)
    else if k < 1743 then true
    else
      && p.inter && k < 1949
      && (1764 <= k < 1772 ==> p.filterSwitchable)
      && (1776 <= k < 1781 ==> comp == 2)
      && (1781 <= k < 1791 ==> comp != 1)
      && (1791 <= k < 1796 ==> comp != 0)
      && (1945 <= k < 1949 ==> p.highPrecision)
  }

  predicate Small(h: Content)
  {
    forall k | k in h.coded :: h.coded[k] < if k < 1880 then 255 else 128
  }

  ghost predicate Valid(h: Content, p: Params)
  {
    && h.txMode <= 4 && (p.lossless ==> h.txMode == 0)
    && h.comp <= 2 && (!p.inter || !p.allowCompInter ==> h.comp == 0)
    && |h.sizes| == 4
    && Small(h) && forall k | k in h.coded :: Present(h.txMode, h.sizes, h.comp, p, k)
  }

  /** The number stored for a slot. */
  function Value(h: Content, k: nat): nat
    requires Small(h)
  {
    if k !in h.coded then 0
    else if k < 1880 then InvMap(h.coded[k])
    else 2 * h.coded[k] + 1
  }

  function Update(h: Content, k: nat): seq<Symbol>
    requires Small(h)
  {
    if k !in h.coded then [A.Symbol(252, false)]
    else [A.Symbol(252, true)] + CoinsOf(if k < 1880 then Encode(h.coded[k]) else Digits(h.coded[k], 7))
  }

  function Updates(h: Content, from: nat, to: nat): seq<Symbol>
    requires Small(h)
  {
    if from >= to then [] else Updates(h, from, to - 1) + Update(h, to - 1)
  }

  function TxModeBits(txMode: nat): seq<bool>
  {
    if txMode == 0 then [false, false]
    else if txMode == 1 then [false, true]
    else if txMode == 2 then [true, false]
    else if txMode == 3 then [true, true, false]
    else [true, true, true]
  }

  /** Coefficients of one plane type and reference: three contexts in the first band, six in each of five others. */
  function PlaneSymbols(h: Content, base: nat): seq<Symbol>
    requires Small(h)
  {
    Updates(h, base, base + 9) + Updates(h, base + 18, base + 108)
  }

  function SizeSymbols(h: Content, i: nat): seq<Symbol>
    requires Small(h) && |h.sizes| == 4 && i < 4
  {
    var base := 12 + 432 * i;
    if !h.sizes[i] then [A.Symbol(128, false)]
    else
      [A.Symbol(128, true)] + (PlaneSymbols(h, base) + PlaneSymbols(h, base + 108)
                               + PlaneSymbols(h, base + 216) + PlaneSymbols(h, base + 324))
  }

  function SizesFrom(h: Content, i: nat): seq<Symbol>
    requires Small(h) && |h.sizes| == 4
    decreases 4 - i
  {
    if i >= 4 || i > h.txMode then [] else SizeSymbols(h, i) + SizesFrom(h, i + 1)
  }

  function CompBits(comp: nat): seq<bool>
  {
    if comp == 0 then [false] else [true, comp == 2]
  }

  function TxSymbols(h: Content, lossless: bool): seq<Symbol>
    requires Small(h)
  {
    (if lossless then [] else CoinsOf(TxModeBits(h.txMode)))
    + (if h.txMode == 4 then Updates(h, 0, 2) + Updates(h, 2, 6) + Updates(h, 6, 12) else [])
  }

  function FirstInterSymbols(h: Content, filterSwitchable: bool): seq<Symbol>
    requires Small(h)
  {
    Updates(h, 1743, 1764) + (if filterSwitchable then Updates(h, 1764, 1772) else []) + Updates(h, 1772, 1776)
  }

  function ReferenceSymbols(h: Content): seq<Symbol>
    requires Small(h)
  {
    (if h.comp == 2 then Updates(h, 1776, 1781) else [])
    + (if h.comp != 1 then Updates(h, 1781, 1791) else [])
    + (if h.comp != 0 then Updates(h, 1791, 1796) else [])
  }

  /** Sign, classes and integer bits of one motion-vector component. */
  function ComponentSymbols(h: Content, i: nat): seq<Symbol>
    requires Small(h)
  {
    Updates(h, 1883 + i, 1884 + i) + Updates(h, 1885 + 10 * i, 1895 + 10 * i)
    + Updates(h, 1905 + i, 1906 + i) + Updates(h, 1907 + 10 * i, 1917 + 10 * i)
  }

  /** Two groups of one component. */
  function PairSymbols(h: Content, one: nat, n: nat, two: nat, m: nat): seq<Symbol>
    requires Small(h)
  {
    Updates(h, one, one + n) + Updates(h, two, two + m)
  }

  function MvSymbols(h: Content, highPrecision: bool): seq<Symbol>
    requires Small(h)
  {
    Updates(h, 1880, 1883) + ComponentSymbols(h, 0) + ComponentSymbols(h, 1)
    + PairSymbols(h, 1927, 6, 1939, 3) + PairSymbols(h, 1933, 6, 1942, 3)
    + if highPrecision then PairSymbols(h, 1945, 1, 1947, 1) + PairSymbols(h, 1946, 1, 1948, 1) else []
  }

  function LastInterSymbols(h: Content, highPrecision: bool): seq<Symbol>
    requires Small(h)
  {
    ReferenceSymbols(h) + (Updates(h, 1796, 1832) + Updates(h, 1832, 1880)) + MvSymbols(h, highPrecision)
  }

  function InterSymbols(h: Content, p: Params): seq<Symbol>
    requires Small(h)
  {
    FirstInterSymbols(h, p.filterSwitchable)
    + (if p.allowCompInter then CoinsOf(CompBits(h.comp)) else [])
    + LastInterSymbols(h, p.highPrecision)
  }

  function HeaderSymbols(h: Content, p: Params): seq<Symbol>
    requires Small(h) && |h.sizes| == 4
  {
    TxSymbols(h, p.lossless) + SizesFrom(h, 0) + Updates(h, 1740, 1743)
    + if p.inter then InterSymbols(h, p) else []
  }

  // ----- reading them

  /** Of the slots in d, those that are coded have their value, and nothing else is set. */
  ghost predicate Holds(x: Machine, h: Content, d: set<nat>)
  {
    && Whole(x) && Small(h)
    && (forall i | 0 <= i < SLOTS :: x.slots[i] == if i in d then Value(h, i) else 0)
    && (forall i :: i in x.coded <==> i in d && i in h.coded)
  }

  /** Reading these sites where the decoder yields ys sets the slots of e, and takes exactly ys. */
  ghost predicate Writes(h: Content, sites: seq<Site>, ys: seq<Symbol>, e: set<nat>)
  {
    && Inside(sites)
    && forall b, x, d :: Whole(x) && Holds(x, h, d) && Yields(b, x.state, ys) ==>
         Holds(ReadSites(b, x, sites), h, d + e) && ReadSites(b, x, sites).state == After(b, x.state, ys)
  }

  lemma WritesNothing(h: Content)
    ensures Writes(h, [], [], {})
  {
    forall b, x, d | Whole(x) && Holds(x, h, d) && Yields(b, x.state, [])
      ensures Holds(ReadSites(b, x, []), h, d + {})
    {
      assert d + {} == d;
    }
  }

  lemma {:induction false} ReadSitesBoth(b: seq<byte>, x: Machine, xs: seq<Site>, ys: seq<Site>)
    requires Whole(x) && Inside(xs) && Inside(ys)
    ensures ReadSites(b, x, xs + ys) == ReadSites(b, ReadSites(b, x, xs), ys)
    decreases |ys|
  {
    hide ReadSite;
    if ys == [] {
      assert xs + ys == xs;
    } else {
      var n := |ys| - 1;
      ReadSitesBoth(b, x, xs, ys[..n]);
      assert (xs + ys)[..|xs + ys| - 1] == xs + ys[..n];
    }
  }

  lemma WritesBoth(h: Content, xs: seq<Site>, us: seq<Symbol>, d: set<nat>,
                   ys: seq<Site>, vs: seq<Symbol>, e: set<nat>)
    requires Writes(h, xs, us, d) && Writes(h, ys, vs, e)
    ensures Writes(h, xs + ys, us + vs, d + e)
  {
    hide Holds, ReadSites, Yields, After;
    forall b, x, c | Whole(x) && Holds(x, h, c) && Yields(b, x.state, us + vs)
      ensures Holds(ReadSites(b, x, xs + ys), h, c + (d + e))
      ensures ReadSites(b, x, xs + ys).state == After(b, x.state, us + vs)
    {
      YieldsBoth(b, x.state, us, vs);
      ReadSitesBoth(b, x, xs, ys);
      var y := ReadSites(b, x, xs);
      assert Holds(y, h, c + d) && y.state == After(b, x.state, us);
      assert Whole(y);
      assert c + (d + e) == c + d + e;
    }
  }

  function Range(from: nat, to: nat): (r: set<nat>)
    ensures forall i: nat :: i in r <==> from <= i < to
  {
    if from >= to then {} else Range(from, to - 1) + {to - 1}
  }

  lemma EncodeLength(index: nat)
    requires index < 255
    ensures |Encode(index)| <= 11
  {
  }

  lemma ValueRead(b: seq<byte>, s: State, h: Content, k: nat)
    requires s.range >= 2 && Small(h) && k in h.coded
    requires Yields(b, s, CoinsOf(if k < 1880 then Encode(h.coded[k]) else Digits(h.coded[k], 7)))
    ensures ReadUpdate(b, s, k >= 1880)
      == (Value(h, k), After(b, s, CoinsOf(if k < 1880 then Encode(h.coded[k]) else Digits(h.coded[k], 7))))
  {
    hide ReadBool, Coins, CoinState, Yields, After, InvMap, ReadLiteral, CoinsOf, Digits, Number;
    var v := h.coded[k];
    if k < 1880 {
      CoinsRead(b, s, Encode(v));
      EncodeLength(v);
      IndexFrom(b, s, |Encode(v)|, v);
    } else {
      var n := 7;
      CoinsRead(b, s, Digits(v, n));
      NoCoins(b, s);
      LiteralIsCoins(b, s, 0, n);
      DigitsBound(v, n);
    }
  }

  lemma UpdateRead(b: seq<byte>, x: Machine, h: Content, d: set<nat>, k: nat)
    requires k < SLOTS && Holds(x, h, d) && Yields(b, x.state, Update(h, k))
    ensures Whole(x)
    ensures var y := ReadSite(b, x, Site(k, k >= 1880));
      Holds(y, h, d + {k}) && y.state == After(b, x.state, Update(h, k))
  {
    hide ReadBool, ReadUpdate, InvMap, Encode, Digits, CoinsOf;
    var ys := Update(h, k);
    var t := ReadBool(b, x.state, 252).state;
    if k in h.coded {
      var bits := if k < 1880 then Encode(h.coded[k]) else Digits(h.coded[k], 7);
      assert ys[1..] == CoinsOf(bits);
      ValueRead(b, t, h, k);
    } else {
      assert ys[1..] == [];
    }
  }

  lemma UpdateWrites(h: Content, k: nat)
    requires k < SLOTS && Small(h)
    ensures Writes(h, [Site(k, k >= 1880)], Update(h, k), {k})
  {
    hide Holds, Yields, After, ReadSite, Update;
    var sites := [Site(k, k >= 1880)];
    forall b, x, d | Whole(x) && Holds(x, h, d) && Yields(b, x.state, Update(h, k))
      ensures Holds(ReadSites(b, x, sites), h, d + {k})
      ensures ReadSites(b, x, sites).state == After(b, x.state, Update(h, k))
    {
      UpdateRead(b, x, h, d, k);
      assert sites[..0] == [];
      assert ReadSites(b, x, sites) == ReadSite(b, x, sites[0]);
    }
  }

  lemma {:induction false} RunWrites(h: Content, from: nat, to: nat, vector: bool)
    requires from <= to <= SLOTS && Small(h) && (if vector then 1880 <= from else to <= 1880)
    ensures Writes(h, Run(from, to - from, vector), Updates(h, from, to), Range(from, to))
  {
    hide Writes, Update;
    if from == to {
      WritesNothing(h);
      assert Range(from, to) == {} && Run(from, 0, vector) == [];
    } else {
      RunWrites(h, from, to - 1, vector);
      UpdateWrites(h, to - 1);
      WritesBoth(h, Run(from, to - 1 - from, vector), Updates(h, from, to - 1), Range(from, to - 1),
                 [Site(to - 1, vector)], Update(h, to - 1), {to - 1});
      assert Range(from, to) == Range(from, to - 1) + {to - 1};
      assert Run(from, to - from, vector) == Run(from, to - 1 - from, vector) + [Site(to - 1, vector)];
    }
  }

  lemma {:induction false} UpdatesJoin(h: Content, from: nat, mid: nat, to: nat)
    requires Small(h) && from <= mid <= to
    ensures Updates(h, from, mid) + Updates(h, mid, to) == Updates(h, from, to)
  {
    hide Update;
    if mid < to {
      UpdatesJoin(h, from, mid, to - 1);
      assert Updates(h, from, mid) + (Updates(h, mid, to - 1) + Update(h, to - 1))
          == Updates(h, from, mid) + Updates(h, mid, to - 1) + Update(h, to - 1);
    } else {
      assert Updates(h, from, mid) + [] == Updates(h, from, mid);
    }
  }

  // ----- the coefficients

  lemma {:induction false} ContextsWrite(h: Content, base: nat, contexts: nat)
    requires base + 3 * contexts <= 1880 && Small(h)
    ensures Writes(h, Contexts(base, contexts), Updates(h, base, base + 3 * contexts),
                   Range(base, base + 3 * contexts))
  {
    hide Writes, Updates, Run;
    if contexts == 0 {
      WritesNothing(h);
      assert Range(base, base) == {};
      UpdatesJoin(h, base, base, base);
      assert Updates(h, base, base) == [];
    } else {
      var mid, to := base + 3 * (contexts - 1), base + 3 * contexts;
      ContextsWrite(h, base, contexts - 1);
      RunWrites(h, mid, to, false);
      WritesBoth(h, Contexts(base, contexts - 1), Updates(h, base, mid), Range(base, mid),
                 Run(mid, 3, false), Updates(h, mid, to), Range(mid, to));
      UpdatesJoin(h, base, mid, to);
      assert Range(base, to) == Range(base, mid) + Range(mid, to);
    }
  }

  /** Bands after the first. */
  lemma {:induction false} BandsWrite(h: Content, base: nat, bands: nat)
    requires 1 <= bands <= 6 && base + 18 * bands <= 1880 && Small(h)
    ensures Writes(h, Bands(base, bands), Updates(h, base, base + 9) + Updates(h, base + 18, base + 18 * bands),
                   Range(base, base + 9) + Range(base + 18, base + 18 * bands))
  {
    hide Writes, Updates, Contexts;
    var first, e := Updates(h, base, base + 9), Range(base, base + 9);
    if bands == 1 {
      ContextsWrite(h, base, 3);
      assert Bands(base, 0) + Contexts(base, 3) == Contexts(base, 3);
      UpdatesNone(h, base + 18);
      assert first + [] == first && e + Range(base + 18, base + 18) == e;
    } else {
      var mid, to := base + 18 * (bands - 1), base + 18 * bands;
      BandsWrite(h, base, bands - 1);
      ContextsWrite(h, mid, 6);
      WritesBoth(h, Bands(base, bands - 1), first + Updates(h, base + 18, mid), e + Range(base + 18, mid),
                 Contexts(mid, 6), Updates(h, mid, to), Range(mid, to));
      UpdatesJoin(h, base + 18, mid, to);
      assert first + Updates(h, base + 18, mid) + Updates(h, mid, to)
          == first + (Updates(h, base + 18, mid) + Updates(h, mid, to));
      assert e + Range(base + 18, mid) + Range(mid, to) == e + Range(base + 18, to);
    }
  }

  lemma UpdatesNone(h: Content, k: nat)
    requires Small(h)
    ensures Updates(h, k, k) == []
  {
  }

  function PlaneSlots(base: nat): set<nat>
  {
    Range(base, base + 9) + Range(base + 18, base + 108)
  }

  function SizeSlots(base: nat): set<nat>
  {
    PlaneSlots(base) + PlaneSlots(base + 108) + PlaneSlots(base + 216) + PlaneSlots(base + 324)
  }

  lemma CoefficientsWrite(h: Content, i: nat)
    requires i < 4 && Small(h)
    ensures var base := 12 + 432 * i;
      Writes(h, CoefSites(i), PlaneSymbols(h, base) + PlaneSymbols(h, base + 108)
                              + PlaneSymbols(h, base + 216) + PlaneSymbols(h, base + 324), SizeSlots(base))
  {
    hide Writes, Updates, Bands, Range;
    var b0 := 12 + 432 * i;
    var b1, b2, b3 := b0 + 108, b0 + 216, b0 + 324;
    BandsWrite(h, b0, 6);
    BandsWrite(h, b1, 6);
    BandsWrite(h, b2, 6);
    BandsWrite(h, b3, 6);
    assert Planes(b0, 1) == Bands(b0, 6) by {
      assert Planes(b0, 0) + Bands(b0, 6) == Bands(b0, 6);
    }
    assert Planes(b0, 2) == Bands(b0, 6) + Bands(b1, 6);
    assert Planes(b0, 3) == Bands(b0, 6) + Bands(b1, 6) + Bands(b2, 6);
    assert Planes(b0, 4) == Bands(b0, 6) + Bands(b1, 6) + Bands(b2, 6) + Bands(b3, 6);
    WritesFour(h, Bands(b0, 6), PlaneSymbols(h, b0), PlaneSlots(b0), Bands(b1, 6), PlaneSymbols(h, b1), PlaneSlots(b1),
               Bands(b2, 6), PlaneSymbols(h, b2), PlaneSlots(b2), Bands(b3, 6), PlaneSymbols(h, b3), PlaneSlots(b3));
  }

  lemma WritesFour(h: Content,
                   s0: seq<Site>, y0: seq<Symbol>, e0: set<nat>, s1: seq<Site>, y1: seq<Symbol>, e1: set<nat>,
                   s2: seq<Site>, y2: seq<Symbol>, e2: set<nat>, s3: seq<Site>, y3: seq<Symbol>, e3: set<nat>)
    requires Writes(h, s0, y0, e0) && Writes(h, s1, y1, e1) && Writes(h, s2, y2, e2) && Writes(h, s3, y3, e3)
    ensures Writes(h, s0 + s1 + s2, y0 + y1 + y2, e0 + e1 + e2)
    ensures Writes(h, s0 + s1 + s2 + s3, y0 + y1 + y2 + y3, e0 + e1 + e2 + e3)
  {
    hide Writes;
    WritesBoth(h, s0, y0, e0, s1, y1, e1);
    WritesBoth(h, s0 + s1, y0 + y1, e0 + e1, s2, y2, e2);
    WritesBoth(h, s0 + s1 + s2, y0 + y1 + y2, e0 + e1 + e2, s3, y3, e3);
  }

  // ----- the phases

  lemma HoldsState(x: Machine, h: Content, d: set<nat>, t: State)
    requires Holds(x, h, d) && t.range >= 2
    ensures Holds(x.(state := t), h, d)
  {
  }

  lemma TxModeRead(b: seq<byte>, s: State, m: nat)
    requires s.range >= 2 && m <= 4 && Yields(b, s, CoinsOf(TxModeBits(m)))
    ensures TxMode(b, s, false) == (m, After(b, s, CoinsOf(TxModeBits(m))))
  {
    hide ReadBool;
    var bits := TxModeBits(m);
    var ys := CoinsOf(bits);
    YieldsIsReadAll(b, s, ys);
    AfterIsStateAfter(b, s, ys);
    TxModeExact(b, s);
    assert A.Bits(ys) == bits;
    assert A.Probs(ys) == if m < 3 then [128, 128] else [128, 128, 128];
  }

  lemma CompModeRead(b: seq<byte>, s: State, m: nat)
    requires s.range >= 2 && m <= 2 && Yields(b, s, CoinsOf(CompBits(m)))
    ensures CompMode(b, s, true) == (m, After(b, s, CoinsOf(CompBits(m))))
  {
    hide ReadBool;
    var bits := CompBits(m);
    var ys := CoinsOf(bits);
    YieldsIsReadAll(b, s, ys);
    AfterIsStateAfter(b, s, ys);
    CompModeExact(b, s);
    assert A.Bits(ys) == bits;
    assert A.Probs(ys) == if m == 0 then [128] else [128, 128];
  }

  lemma {:induction false} AfterIsStateAfter(b: seq<byte>, s: State, ys: seq<Symbol>)
    requires s.range >= 2
    ensures After(b, s, ys) == StateAfter(b, s, A.Probs(ys))
    decreases |ys|
  {
    hide ReadBool;
    if ys != [] {
      AfterIsStateAfter(b, ReadBool(b, s, ys[0].prob).state, ys[1..]);
      assert A.Probs(ys)[1..] == A.Probs(ys[1..]);
    }
  }

  function TxSlots(): set<nat>
  {
    Range(0, 2) + Range(2, 6) + Range(6, 12)
  }

  lemma TxWrites(h: Content)
    requires Small(h)
    ensures Writes(h, TxSites(), Updates(h, 0, 2) + Updates(h, 2, 6) + Updates(h, 6, 12), TxSlots())
  {
    hide Writes, Updates, Range, Run;
    RunWrites(h, 0, 2, false);
    RunWrites(h, 2, 6, false);
    RunWrites(h, 6, 12, false);
    WritesNothing(h);
    WritesFour(h, Run(0, 2, false), Updates(h, 0, 2), Range(0, 2), Run(2, 4, false), Updates(h, 2, 6), Range(2, 6),
               Run(6, 6, false), Updates(h, 6, 12), Range(6, 12), [], [], {});
  }

  lemma TxRead(b: seq<byte>, x: Machine, h: Content, d: set<nat>, lossless: bool)
    requires Holds(x, h, d) && Small(h) && h.txMode <= 4 && (lossless ==> h.txMode == 0)
    requires Whole(x) && Yields(b, x.state, TxSymbols(h, lossless))
    ensures var (m, y) := TxPhase(b, x, lossless);
      && m == h.txMode && Holds(y, h, if h.txMode == 4 then d + TxSlots() else d)
      && y.state == After(b, x.state, TxSymbols(h, lossless))
  {
    hide Holds, Yields, Updates, ReadSites, TxSites, CoinsOf, TxMode, TxSlots;
    var ys := if lossless then [] else CoinsOf(TxModeBits(h.txMode));
    var zs := if h.txMode == 4 then Updates(h, 0, 2) + Updates(h, 2, 6) + Updates(h, 6, 12) else [];
    assert TxSymbols(h, lossless) == ys + zs;
    YieldsBoth(b, x.state, ys, zs);
    if lossless {
      TxModeExact(b, x.state);
    } else {
      TxModeRead(b, x.state, h.txMode);
    }
    var t := After(b, x.state, ys);
    HoldsState(x, h, d, t);
    if h.txMode == 4 {
      TxWrites(h);
    }
  }

  /** The slots of the coefficient updates that are there. */
  function SizesSlots(h: Content, i: nat): set<nat>
    requires |h.sizes| == 4
    decreases 4 - i
  {
    if i >= 4 || i > h.txMode then {}
    else (if h.sizes[i] then SizeSlots(12 + 432 * i) else {}) + SizesSlots(h, i + 1)
  }

  lemma OneSizeRead(b: seq<byte>, x: Machine, h: Content, d: set<nat>, i: nat)
    requires Holds(x, h, d) && Small(h) && |h.sizes| == 4 && i < 4
    requires Whole(x) && Yields(b, x.state, SizeSymbols(h, i))
    ensures Inside(CoefSites(i))
    ensures var flag := ReadBool(b, x.state, EVEN);
      var x1 := x.(state := flag.state);
      var y := if flag.bit then ReadSites(b, x1, CoefSites(i)) else x1;
      && Holds(y, h, d + if h.sizes[i] then SizeSlots(12 + 432 * i) else {})
      && y.state == After(b, x.state, SizeSymbols(h, i))
  {
    hide Holds, PlaneSymbols, ReadSites, CoefSites, SizeSlots, ReadBool;
    CoefficientsWrite(h, i);
    var ys := SizeSymbols(h, i);
    var flag := ReadBool(b, x.state, EVEN);
    HoldsState(x, h, d, flag.state);
    var base := 12 + 432 * i;
    if h.sizes[i] {
      assert ys[1..] == PlaneSymbols(h, base) + PlaneSymbols(h, base + 108)
                        + PlaneSymbols(h, base + 216) + PlaneSymbols(h, base + 324);
    } else {
      assert ys[1..] == [] && d + {} == d;
    }
  }

  lemma {:induction false} CoefRead(b: seq<byte>, x: Machine, h: Content, d: set<nat>, i: nat)
    requires Holds(x, h, d) && Small(h) && |h.sizes| == 4 && i <= 4 && i <= h.txMode
    requires Whole(x) && Yields(b, x.state, SizesFrom(h, i))
    ensures var y := CoefPhase(b, x, h.txMode, i);
      Holds(y, h, d + SizesSlots(h, i)) && y.state == After(b, x.state, SizesFrom(h, i))
    decreases 4 - i
  {
    hide Holds, SizeSymbols, ReadSites, CoefSites, SizeSlots, ReadBool, Yields;
    if i == 4 {
      assert d + {} == d;
    } else {
      var ys := SizeSymbols(h, i);
      YieldsBoth(b, x.state, ys, SizesFrom(h, i + 1));
      OneSizeRead(b, x, h, d, i);
      var e := if h.sizes[i] then SizeSlots(12 + 432 * i) else {};
      var flag := ReadBool(b, x.state, EVEN);
      var x1 := x.(state := flag.state);
      var y := if flag.bit then ReadSites(b, x1, CoefSites(i)) else x1;
      assert d + (e + SizesSlots(h, i + 1)) == d + e + SizesSlots(h, i + 1);
      if h.txMode == i {
        assert SizesFrom(h, i + 1) == [] && d + e + {} == d + e;
      } else {
        CoefRead(b, y, h, d + e, i + 1);
      }
    }
  }

  // ----- the part only inter frames have

  function FirstInterSlots(filterSwitchable: bool): set<nat>
  {
    Range(1743, 1764) + (if filterSwitchable then Range(1764, 1772) else {}) + Range(1772, 1776)
  }

  lemma FirstInterWrites(h: Content, filterSwitchable: bool)
    requires Small(h)
    ensures Writes(h, FirstInterSites(filterSwitchable), FirstInterSymbols(h, filterSwitchable),
                   FirstInterSlots(filterSwitchable))
  {
    hide Writes, Updates, Range, Run;
    WritesNothing(h);
    RunWrites(h, 1743, 1764, false);
    RunWrites(h, 1764, 1772, false);
    RunWrites(h, 1772, 1776, false);
    WritesFour(h, Run(1743, 21, false), Updates(h, 1743, 1764), Range(1743, 1764),
               if filterSwitchable then Run(1764, 8, false) else [],
               if filterSwitchable then Updates(h, 1764, 1772) else [],
               if filterSwitchable then Range(1764, 1772) else {},
               Run(1772, 4, false), Updates(h, 1772, 1776), Range(1772, 1776), [], [], {});
  }

  function ReferenceSlots(comp: nat): set<nat>
  {
    (if comp == 2 then Range(1776, 1781) else {})
    + (if comp != 1 then Range(1781, 1791) else {})
    + (if comp != 0 then Range(1791, 1796) else {})
  }

  lemma ReferencesWrite(h: Content)
    requires Small(h)
    ensures Writes(h, ReferenceSites(h.comp), ReferenceSymbols(h), ReferenceSlots(h.comp))
  {
    hide Writes, Updates, Range, Run;
    WritesNothing(h);
    RunWrites(h, 1776, 1781, false);
    RunWrites(h, 1781, 1791, false);
    RunWrites(h, 1791, 1796, false);
    var c := h.comp;
    WritesFour(h, if c == 2 then Run(1776, 5, false) else [], if c == 2 then Updates(h, 1776, 1781) else [],
               if c == 2 then Range(1776, 1781) else {},
               if c != 1 then Run(1781, 10, false) else [], if c != 1 then Updates(h, 1781, 1791) else [],
               if c != 1 then Range(1781, 1791) else {},
               if c != 0 then Run(1791, 5, false) else [], if c != 0 then Updates(h, 1791, 1796) else [],
               if c != 0 then Range(1791, 1796) else {}, [], [], {});
  }

  function ComponentSlots(i: nat): set<nat>
  {
    Range(1883 + i, 1884 + i) + Range(1885 + 10 * i, 1895 + 10 * i)
    + Range(1905 + i, 1906 + i) + Range(1907 + 10 * i, 1917 + 10 * i)
  }

  lemma ComponentWrites(h: Content, i: nat)
    requires i < 2 && Small(h)
    ensures Writes(h, MvComponent(i), ComponentSymbols(h, i), ComponentSlots(i))
  {
    hide Writes, Updates, Range, Run;
    RunWrites(h, 1883 + i, 1884 + i, true);
    RunWrites(h, 1885 + 10 * i, 1895 + 10 * i, true);
    RunWrites(h, 1905 + i, 1906 + i, true);
    RunWrites(h, 1907 + 10 * i, 1917 + 10 * i, true);
    WritesFour(h, Run(1883 + i, 1, true), Updates(h, 1883 + i, 1884 + i), Range(1883 + i, 1884 + i),
               Run(1885 + 10 * i, 10, true), Updates(h, 1885 + 10 * i, 1895 + 10 * i),
               Range(1885 + 10 * i, 1895 + 10 * i),
               Run(1905 + i, 1, true), Updates(h, 1905 + i, 1906 + i), Range(1905 + i, 1906 + i),
               Run(1907 + 10 * i, 10, true), Updates(h, 1907 + 10 * i, 1917 + 10 * i),
               Range(1907 + 10 * i, 1917 + 10 * i));
  }

  lemma PairWrites(h: Content, one: nat, n: nat, two: nat, m: nat)
    requires 1880 <= one && one + n <= SLOTS && 1880 <= two && two + m <= SLOTS && Small(h)
    ensures Writes(h, Run(one, n, true) + Run(two, m, true), PairSymbols(h, one, n, two, m),
                   Range(one, one + n) + Range(two, two + m))
  {
    hide Writes, Updates, Range, Run;
    RunWrites(h, one, one + n, true);
    RunWrites(h, two, two + m, true);
    WritesBoth(h, Run(one, n, true), Updates(h, one, one + n), Range(one, one + n),
               Run(two, m, true), Updates(h, two, two + m), Range(two, two + m));
  }

  function FractionSlots(i: nat): set<nat>
  {
    Range(1927 + 6 * i, 1933 + 6 * i) + Range(1939 + 3 * i, 1942 + 3 * i)
  }

  function HighPrecisionSlots(i: nat): set<nat>
  {
    Range(1945 + i, 1946 + i) + Range(1947 + i, 1948 + i)
  }

  function MvSlots(highPrecision: bool): set<nat>
  {
    Range(1880, 1883) + ComponentSlots(0) + ComponentSlots(1) + FractionSlots(0) + FractionSlots(1)
    + if highPrecision then HighPrecisionSlots(0) + HighPrecisionSlots(1) else {}
  }

  lemma MvWrites(h: Content, highPrecision: bool)
    requires Small(h)
    ensures Writes(h, MvSites(highPrecision), MvSymbols(h, highPrecision), MvSlots(highPrecision))
  {
    hide Writes, Updates, Range, Run, MvComponent, ComponentSlots;
    RunWrites(h, 1880, 1883, true);
    ComponentWrites(h, 0);
    ComponentWrites(h, 1);
    PairWrites(h, 1927, 6, 1939, 3);
    PairWrites(h, 1933, 6, 1942, 3);
    var s0, y0, e0 := Run(1880, 3, true), Updates(h, 1880, 1883), Range(1880, 1883);
    WritesFour(h, s0, y0, e0, MvComponent(0), ComponentSymbols(h, 0), ComponentSlots(0),
               MvComponent(1), ComponentSymbols(h, 1), ComponentSlots(1),
               MvFraction(0), PairSymbols(h, 1927, 6, 1939, 3), FractionSlots(0));
    var s1 := s0 + MvComponent(0) + MvComponent(1) + MvFraction(0);
    var y1 := y0 + ComponentSymbols(h, 0) + ComponentSymbols(h, 1) + PairSymbols(h, 1927, 6, 1939, 3);
    var e1 := e0 + ComponentSlots(0) + ComponentSlots(1) + FractionSlots(0);
    HighPrecisionWrites(h, highPrecision);
    WritesNothing(h);
    WritesFour(h, s1, y1, e1, MvFraction(1), PairSymbols(h, 1933, 6, 1942, 3), FractionSlots(1),
               if highPrecision then MvHighPrecision(0) + MvHighPrecision(1) else [],
               if highPrecision then PairSymbols(h, 1945, 1, 1947, 1) + PairSymbols(h, 1946, 1, 1948, 1) else [],
               if highPrecision then HighPrecisionSlots(0) + HighPrecisionSlots(1) else {}, [], [], {});
  }

  lemma HighPrecisionWrites(h: Content, highPrecision: bool)
    requires Small(h)
    ensures Writes(h, if highPrecision then MvHighPrecision(0) + MvHighPrecision(1) else [],
                   if highPrecision then PairSymbols(h, 1945, 1, 1947, 1) + PairSymbols(h, 1946, 1, 1948, 1) else [],
                   if highPrecision then HighPrecisionSlots(0) + HighPrecisionSlots(1) else {})
  {
    hide Writes, Updates, Range, Run;
    WritesNothing(h);
    PairWrites(h, 1945, 1, 1947, 1);
    PairWrites(h, 1946, 1, 1948, 1);
    WritesBoth(h, MvHighPrecision(0), PairSymbols(h, 1945, 1, 1947, 1), HighPrecisionSlots(0),
               MvHighPrecision(1), PairSymbols(h, 1946, 1, 1948, 1), HighPrecisionSlots(1));
  }

  function LastInterSlots(comp: nat, highPrecision: bool): set<nat>
  {
    ReferenceSlots(comp) + (Range(1796, 1832) + Range(1832, 1880)) + MvSlots(highPrecision)
  }

  lemma LastInterWrites(h: Content, highPrecision: bool)
    requires Small(h)
    ensures Writes(h, LastInterSites(h.comp, highPrecision), LastInterSymbols(h, highPrecision),
                   LastInterSlots(h.comp, highPrecision))
  {
    hide Writes, Updates, Range, Run, MvSites, MvSymbols, MvSlots, ReferenceSites, ReferenceSymbols, ReferenceSlots;
    ReferencesWrite(h);
    RunWrites(h, 1796, 1832, false);
    RunWrites(h, 1832, 1880, false);
    MvWrites(h, highPrecision);
    WritesBoth(h, Run(1796, 36, false), Updates(h, 1796, 1832), Range(1796, 1832),
               Run(1832, 48, false), Updates(h, 1832, 1880), Range(1832, 1880));
    WritesNothing(h);
    WritesFour(h, ReferenceSites(h.comp), ReferenceSymbols(h), ReferenceSlots(h.comp),
               Run(1796, 36, false) + Run(1832, 48, false), Updates(h, 1796, 1832) + Updates(h, 1832, 1880),
               Range(1796, 1832) + Range(1832, 1880),
               MvSites(highPrecision), MvSymbols(h, highPrecision), MvSlots(highPrecision), [], [], {});
  }

  lemma InterRead(b: seq<byte>, x: Machine, h: Content, d: set<nat>, p: Params)
    requires Holds(x, h, d) && Small(h) && h.comp <= 2 && (!p.allowCompInter ==> h.comp == 0)
    requires Whole(x) && Yields(b, x.state, InterSymbols(h, p))
    ensures var (m, y) := ReadInter(b, x, p);
      && m == h.comp && y.state == After(b, x.state, InterSymbols(h, p))
      && Holds(y, h, d + FirstInterSlots(p.filterSwitchable) + LastInterSlots(h.comp, p.highPrecision))
  {
    hide Holds, Yields, After, Updates, ReadSites, CoinsOf, FirstInterSites, LastInterSites, FirstInterSlots,
      LastInterSlots, CompMode;
    var ys, us := FirstInterSymbols(h, p.filterSwitchable), LastInterSymbols(h, p.highPrecision);
    var zs := if p.allowCompInter then CoinsOf(CompBits(h.comp)) else [];
    assert InterSymbols(h, p) == ys + zs + us;
    hide FirstInterSymbols, LastInterSymbols, InterSymbols;
    YieldsBoth(b, x.state, ys + zs, us);
    YieldsBoth(b, x.state, ys, zs);
    FirstInterWrites(h, p.filterSwitchable);
    var x1 := ReadSites(b, x, FirstInterSites(p.filterSwitchable));
    var d1 := d + FirstInterSlots(p.filterSwitchable);
    assert Holds(x1, h, d1) && x1.state == After(b, x.state, ys);
    CompModeSeen(b, x1.state, h, p.allowCompInter);
    var t := CompMode(b, x1.state, p.allowCompInter).1;
    HoldsState(x1, h, d1, t);
    LastInterWrites(h, p.highPrecision);
  }

  lemma CompModeSeen(b: seq<byte>, s: State, h: Content, allowed: bool)
    requires s.range >= 2 && h.comp <= 2 && (!allowed ==> h.comp == 0)
    requires allowed ==> Yields(b, s, CoinsOf(CompBits(h.comp)))
    ensures var zs := if allowed then CoinsOf(CompBits(h.comp)) else [];
      CompMode(b, s, allowed) == (h.comp, After(b, s, zs))
  {
    hide ReadBool;
    if allowed {
      CompModeRead(b, s, h.comp);
    }
  }

  // ----- the whole header

  function AllSlots(h: Content, p: Params): set<nat>
    requires |h.sizes| == 4
  {
    (if h.txMode == 4 then TxSlots() else {}) + SizesSlots(h, 0) + Range(1740, 1743)
    + if p.inter then FirstInterSlots(p.filterSwitchable) + LastInterSlots(h.comp, p.highPrecision) else {}
  }

  lemma IntraRead(b: seq<byte>, x: Machine, h: Content, p: Params)
    requires Holds(x, h, {}) && Valid(h, p)
    requires Whole(x)
      && Yields(b, x.state, TxSymbols(h, p.lossless) + SizesFrom(h, 0) + Updates(h, 1740, 1743))
    ensures var (m, y) := ReadIntra(b, x, p.lossless);
      && m == h.txMode
      && y.state == After(b, x.state, TxSymbols(h, p.lossless) + SizesFrom(h, 0) + Updates(h, 1740, 1743))
      && Holds(y, h, (if h.txMode == 4 then TxSlots() else {}) + SizesSlots(h, 0) + Range(1740, 1743))
  {
    hide Holds, Yields, After, Updates, ReadSites, TxSymbols, SizesFrom, TxPhase, CoefPhase, SizesSlots, TxSlots, Range;
    var ys, zs, us := TxSymbols(h, p.lossless), SizesFrom(h, 0), Updates(h, 1740, 1743);
    YieldsBoth(b, x.state, ys + zs, us);
    YieldsBoth(b, x.state, ys, zs);
    var d := if h.txMode == 4 then TxSlots() else {};
    assert {} + TxSlots() == TxSlots();
    TxRead(b, x, h, {}, p.lossless);
    var x1 := TxPhase(b, x, p.lossless).1;
    CoefRead(b, x1, h, d, 0);
    RunWrites(h, 1740, 1743, false);
  }

  lemma SymbolsHold(b: seq<byte>, x: Machine, h: Content, p: Params)
    requires Holds(x, h, {}) && Valid(h, p)
    requires Whole(x) && Yields(b, x.state, HeaderSymbols(h, p))
    ensures var o := ReadHeader(b, x, p);
      && o.txMode == h.txMode && o.comp == h.comp && o.machine.state == After(b, x.state, HeaderSymbols(h, p))
      && Holds(o.machine, h, AllSlots(h, p))
  {
    hide Holds, Yields, After, Updates, TxSymbols, SizesFrom, ReadIntra, ReadInter, TxSlots, SizesSlots, Range,
      FirstInterSlots, LastInterSlots, InterSymbols;
    var ys := TxSymbols(h, p.lossless) + SizesFrom(h, 0) + Updates(h, 1740, 1743);
    var zs := if p.inter then InterSymbols(h, p) else [];
    YieldsBoth(b, x.state, ys, zs);
    IntraRead(b, x, h, p);
    var d := (if h.txMode == 4 then TxSlots() else {}) + SizesSlots(h, 0) + Range(1740, 1743);
    var y := ReadIntra(b, x, p.lossless).1;
    if p.inter {
      InterRead(b, y, h, d, p);
      var f, l := FirstInterSlots(p.filterSwitchable), LastInterSlots(h.comp, p.highPrecision);
      assert d + f + l == d + (f + l);
    } else {
      assert d + {} == d;
      assert After(b, y.state, []) == y.state by { NothingAfter(b, y.state); }
    }
  }

  lemma NothingAfter(b: seq<byte>, s: State)
    requires s.range >= 2
    ensures After(b, s, []) == s
  {
  }

  // ----- every coded slot is visited

  lemma SizeCovers(i: nat, k: nat)
    requires i < 4 && 12 + 432 * i <= k < 12 + 432 * i + 432 && !(9 <= (k - 12) % 108 < 18)
    ensures k in SizeSlots(12 + 432 * i)
  {
    hide Range, PlaneSlots;
    var q, r := (k - 12) / 108, (k - 12) % 108;
    assert k == 12 + 108 * q + r;
    PlaneCovers(12 + 108 * q, k);
  }

  lemma PlaneCovers(base: nat, k: nat)
    requires base <= k < base + 108 && !(9 <= k - base < 18)
    ensures k in PlaneSlots(base)
  {
    hide Range;
  }

  lemma {:induction false} SizesCover(h: Content, i: nat, j: nat, k: nat)
    requires |h.sizes| == 4 && i <= j < 4 && j <= h.txMode && h.sizes[j] && k in SizeSlots(12 + 432 * j)
    ensures k in SizesSlots(h, i)
    decreases j - i
  {
    hide SizeSlots;
    if i < j {
      SizesCover(h, i + 1, j, k);
    }
  }

  lemma InterCovers(h: Content, p: Params, k: nat)
    requires |h.sizes| == 4 && 1743 <= k && Present(h.txMode, h.sizes, h.comp, p, k)
    ensures k in FirstInterSlots(p.filterSwitchable) + LastInterSlots(h.comp, p.highPrecision)
  {
    hide Range;
    if k < 1880 {
      hide MvSlots;
    } else {
      assert k in MvSlots(p.highPrecision);
    }
  }

  lemma Covered(h: Content, p: Params, k: nat)
    requires Valid(h, p) && k in h.coded
    ensures k in AllSlots(h, p)
  {
    hide SizesSlots, SizeSlots, FirstInterSlots, LastInterSlots;
    assert Present(h.txMode, h.sizes, h.comp, p, k);
    if 12 <= k < 1740 {
      var i := (k - 12) / 432;
      SizeCovers(i, k);
      SizesCover(h, 0, i, k);
    } else if k >= 1743 {
      InterCovers(h, p, k);
    }
  }

  /**
  The main result about the layout: where the decoder yields the symbols of a header, the reader returns the header's
  modes and its every value in its place, takes those symbols and no more, and leaves 0 everywhere else.
  */
  lemma SymbolsReadBack(b: seq<byte>, s: State, h: Content, p: Params)
    requires s.range >= 2 && Valid(h, p) && Yields(b, s, HeaderSymbols(h, p))
    ensures ReadHeader(b, Machine(s, seq(1949, _ => 0), {}), p)
      == Outcome(h.txMode, h.comp,
                 Machine(After(b, s, HeaderSymbols(h, p)), seq(1949, k requires 0 <= k < 1949 => Value(h, k)),
                         h.coded.Keys))
  {
    hide Value, HeaderSymbols, Yields, After, ReadHeader, AllSlots, Present;
    var x := Machine(s, seq(1949, _ => 0), {});
    SymbolsHold(b, x, h, p);
    var y := ReadHeader(b, x, p).machine;
    forall k | k in h.coded
      ensures k in AllSlots(h, p)
    {
      Covered(h, p, k);
    }
    forall k | 0 <= k < 1949
      ensures y.slots[k] == Value(h, k)
    {
      if k !in h.coded {
        NoValue(h, k);
      }
    }
    assert y.slots == seq(1949, k requires 0 <= k < 1949 => Value(h, k));
    assert y.coded == h.coded.Keys;
  }

  lemma NoValue(h: Content, k: nat)
    requires Small(h) && k !in h.coded
    ensures Value(h, k) == 0
  {
  }

  /** Every header can be written: the arithmetic encoder's buffer for the marker and its symbols is read back. */
  lemma WrittenHeaderReadsBack(h: Content, p: Params)
    requires Valid(h, p)
    ensures var b := A.Buffer(A.Encode(A.WHOLE, [A.Symbol(128, false)] + HeaderSymbols(h, p)));
      var marker := ReadBool(b, BoolDecoder.Init(b), 128);
      && |b| >= 3 && !marker.bit
      && var o := ReadHeader(b, Machine(marker.state, seq(1949, _ => 0), {}), p);
      && o.txMode == h.txMode && o.comp == h.comp && o.machine.coded == h.coded.Keys
      && forall k | 0 <= k < 1949 :: o.machine.slots[k] == Value(h, k)
  {
    assert Small(h);
    hide Value, HeaderSymbols, ReadHeader, ReadBool, Small, Present, A.Encode, A.Buffer, ReadAll, A.Bits, A.Probs;
    var ys := [A.Symbol(128, false)] + HeaderSymbols(h, p);
    var b := A.Buffer(A.Encode(A.WHOLE, ys));
    A.DecodeUndoesEncode(ys);
    var s := BoolDecoder.Init(b);
    YieldsIsReadAll(b, s, ys);
    assert ys[1..] == HeaderSymbols(h, p);
    SymbolsReadBack(b, ReadBool(b, s, 128).state, h, p);
  }

  // ----- every buffer

  /** There is room for these slots in a header of these modes. */
  ghost predicate Roomy(sites: seq<Site>, txMode: nat, comp: nat, p: Params)
  {
    forall i | 0 <= i < |sites| :: Present(txMode, ALL_SIZES, comp, p, sites[i].slot)
  }

  const ALL_SIZES: seq<bool> := [true, true, true, true]

  ghost predicate CodesOnly(x: Machine, txMode: nat, comp: nat, p: Params)
  {
    forall k | k in x.coded :: Present(txMode, ALL_SIZES, comp, p, k)
  }

  lemma {:induction false} SitesCode(b: seq<byte>, x: Machine, sites: seq<Site>, txMode: nat, comp: nat, p: Params)
    requires Whole(x) && Inside(sites) && Roomy(sites, txMode, comp, p) && CodesOnly(x, txMode, comp, p)
    ensures CodesOnly(ReadSites(b, x, sites), txMode, comp, p)
    decreases |sites|
  {
    hide Present, ReadBool, ReadUpdate;
    if sites != [] {
      SitesCode(b, x, sites[..|sites| - 1], txMode, comp, p);
    }
  }

  lemma {:induction false} BandsHole(base: nat, bands: nat)
    requires bands <= 6
    ensures forall i | 0 <= i < |Bands(base, bands)| ::
      base <= Bands(base, bands)[i].slot < base + 18 * bands && !(9 <= Bands(base, bands)[i].slot - base < 18)
  {
    if bands > 0 {
      BandsHole(base, bands - 1);
      ContextsIncrease(base + 18 * (bands - 1), if bands == 1 then 3 else 6);
    }
  }

  lemma {:induction false} PlanesRoomy(size: nat, planes: nat, txMode: nat, comp: nat, p: Params)
    requires size < 4 && size <= txMode && planes <= 4
    ensures Roomy(Planes(12 + 432 * size, planes), txMode, comp, p)
  {
    hide Bands;
    if planes > 0 {
      PlanesRoomy(size, planes - 1, txMode, comp, p);
      var base := 12 + 432 * size + 108 * (planes - 1);
      BandsHole(base, 6);
      forall i | 0 <= i < |Bands(base, 6)|
        ensures Present(txMode, ALL_SIZES, comp, p, Bands(base, 6)[i].slot)
      {
        PlaneHasRoom(size, planes - 1, Bands(base, 6)[i].slot - base, txMode, comp, p);
      }
    }
  }

  lemma PlaneHasRoom(size: nat, plane: nat, o: nat, txMode: nat, comp: nat, p: Params)
    requires size < 4 && size <= txMode && plane < 4 && o < 108 && !(9 <= o < 18)
    ensures Present(txMode, ALL_SIZES, comp, p, 12 + 432 * size + 108 * plane + o)
  {
    var k := 108 * (4 * size + plane) + o;
    assert k % 108 == o && k / 432 == size;
  }

  lemma {:induction false} CoefCodes(b: seq<byte>, x: Machine, i: nat, txMode: nat, comp: nat, p: Params)
    requires Whole(x) && i <= 4 && i <= txMode && CodesOnly(x, txMode, comp, p)
    ensures CodesOnly(CoefPhase(b, x, txMode, i), txMode, comp, p)
    decreases 4 - i
  {
    hide Present, ReadBool, ReadSites, Planes, Roomy;
    if i < 4 {
      PlanesInside(12 + 432 * i, 4);
      PlanesRoomy(i, 4, txMode, comp, p);
      var d := ReadBool(b, x.state, EVEN);
      var x1 := x.(state := d.state);
      SitesCode(b, x1, CoefSites(i), txMode, comp, p);
      var x2 := if d.bit then ReadSites(b, x1, CoefSites(i)) else x1;
      if txMode != i {
        CoefCodes(b, x2, i + 1, txMode, comp, p);
      }
    }
  }

  lemma IntraCodes(b: seq<byte>, s: State, comp: nat, p: Params)
    requires s.range >= 2
    ensures var (m, y) := ReadIntra(b, Machine(s, seq(SLOTS, _ => 0), {}), p.lossless);
      m <= 4 && (p.lossless ==> m == 0) && CodesOnly(y, m, comp, p)
  {
    hide ReadBool, ReadSites, CoefPhase, TxMode;
    var x := Machine(s, seq(SLOTS, _ => 0), {});
    var (m, t) := TxMode(b, s, p.lossless);
    TxModeSmall(b, s, p.lossless);
    var x1 := x.(state := t);
    if m == 4 {
      SitesCode(b, x1, TxSites(), m, comp, p);
    }
    var x2 := TxPhase(b, x, p.lossless).1;
    CoefCodes(b, x2, 0, m, comp, p);
    SitesCode(b, CoefPhase(b, x2, m, 0), Run(SKIP, 3, false), m, comp, p);
  }

  lemma TxModeSmall(b: seq<byte>, s: State, lossless: bool)
    requires s.range >= 2
    ensures TxMode(b, s, lossless).0 <= 4 && (lossless ==> TxMode(b, s, lossless).0 == 0)
  {
    hide ReadBool;
    assert ReadLiteral(b, s, 0) == (0, s);
    assert ReadLiteral(b, s, 1).0 < 2;
  }

  lemma FirstInterRoomy(txMode: nat, comp: nat, p: Params)
    requires p.inter
    ensures Roomy(FirstInterSites(p.filterSwitchable), txMode, comp, p)
  {
  }

  lemma MvParts()
    ensures forall i, k | 0 <= i < 2 && 0 <= k < |MvComponent(i)| :: 1880 <= MvComponent(i)[k].slot < 1945
    ensures forall i, k | 0 <= i < 2 && 0 <= k < |MvFraction(i)| :: 1880 <= MvFraction(i)[k].slot < 1945
    ensures forall i, k | 0 <= i < 2 && 0 <= k < |MvHighPrecision(i)| :: 1945 <= MvHighPrecision(i)[k].slot < 1949
  {
  }

  lemma MvRoomy(txMode: nat, comp: nat, p: Params)
    requires p.inter
    ensures Roomy(MvSites(p.highPrecision), txMode, comp, p)
  {
    hide MvComponent, MvFraction, MvHighPrecision;
    var sites := MvSites(p.highPrecision);
    MvParts();
    assert forall i | 0 <= i < |sites| ::
        1880 <= sites[i].slot < 1949 && (1945 <= sites[i].slot ==> p.highPrecision) by {
      hide Present;
    }
    hide MvSites;
  }

  lemma LastInterRoomy(txMode: nat, comp: nat, p: Params)
    requires p.inter
    ensures Roomy(LastInterSites(comp, p.highPrecision), txMode, comp, p)
  {
    hide MvSites;
    MvRoomy(txMode, comp, p);
  }

  /** Whatever a buffer says, an update is only ever coded for a slot that its modes have room for. */
  lemma OnlyPresentSlotsCoded(b: seq<byte>, s: State, p: Params)
    requires s.range >= 2
    ensures var o := ReadHeader(b, Machine(s, seq(1949, _ => 0), {}), p);
      && o.txMode <= 4 && (p.lossless ==> o.txMode == 0)
      && o.comp <= 2 && (!p.inter || !p.allowCompInter ==> o.comp == 0)
      && forall k | k in o.machine.coded :: Present(o.txMode, [true, true, true, true], o.comp, p, k)
  {
    hide ReadBool, ReadSites, ReadIntra, FirstInterSites, LastInterSites, Present, Roomy;
    var x := Machine(s, seq(SLOTS, _ => 0), {});
    var (m, y) := ReadIntra(b, x, p.lossless);
    IntraCodes(b, s, 0, p);
    if p.inter {
      var y1 := ReadSites(b, y, FirstInterSites(p.filterSwitchable));
      var (comp, t) := CompMode(b, y1.state, p.allowCompInter);
      IntraCodes(b, s, comp, p);
      FirstInterRoomy(m, comp, p);
      SitesCode(b, y, FirstInterSites(p.filterSwitchable), m, comp, p);
      LastInterRoomy(m, comp, p);
      SitesCode(b, y1.(state := t), LastInterSites(comp, p.highPrecision), m, comp, p);
    }
  }
}
