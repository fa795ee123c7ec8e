/**
vp9_fill_compressed_hdr as the driver runs it: loops over the control struct's arrays, an update flag at each slot,
and the range coder underneath. It does to the struct what the specification's decoder would.
*/
module CompressedReader {
  import opened Arithmetic
  import opened BoolDecoder
  import opened RangeCoder
  import opened CompressedHeader
  import A = ArithmeticEncoder
  import W = CompressedWriter

  /** struct v4l2_ctrl_vp9_compressed_hdr, its arrays one after the other. */
  class Control {
    const slots: array<nat>
    var txMode: nat
    ghost var coded: set<nat>

    /** As memset leaves it. */
    constructor ()
      ensures slots.Length == SLOTS && fresh(slots) && coded == {} && txMode == 0
      ensures slots[..] == seq(SLOTS, _ => 0)
    {
      slots := new nat[SLOTS](_ => 0);
      txMode := 0;
      coded := {};
    }

    ghost function Now(c: VpxRac): Machine
      requires c.due.range >= 1
      reads this`coded, slots, c
    {
      Machine(c.Spec(), slots[..], coded)
    }

    /** From x on, these sites have been read. */
    ghost predicate Done(c: VpxRac, b: seq<byte>, x: Machine, sites: seq<Site>)
      reads this`coded, slots, c
    {
      && slots.Length == SLOTS && c.Ready() && c.buffer == b && Whole(x) && Inside(sites)
      && Now(c) == ReadSites(b, x, sites)
    }

    method UpdateSlot(c: VpxRac, slot: nat, vector: bool)
      requires slots.Length == SLOTS && slot < SLOTS && c.Ready()
      modifies c`high, c`bits, c`next, c`codeWord, c`due, this`coded, slots
      ensures c.Ready() && Now(c) == ReadSite(c.buffer, old(Now(c)), Site(slot, vector))
    {
      hide ReadBool, Normalize, ReadDelta, ReadLiteral, Pow2;
      var flag := c.GetProbBranchy(UPDATE_PROB);
      if flag {
        var v: nat;
        if vector {
          v := c.GetUint(7);
          v := 2 * v + 1;
        } else {
          v := ReadProbDelta(c);
        }
        slots[slot] := v;
        coded := coded + {slot};
      }
    }

    method UpdateRun(c: VpxRac, base: nat, count: nat, vector: bool,
                     ghost b: seq<byte>, ghost x: Machine, ghost done: seq<Site>)
      requires base + count <= SLOTS && Done(c, b, x, done)
      modifies c`high, c`bits, c`next, c`codeWord, c`due, this`coded, slots
      ensures Done(c, b, x, done + Run(base, count, vector))
    {
      hide ReadSite, Now;
      var i := 0;
      assert done + Run(base, 0, vector) == done;
      while i < count
        invariant 0 <= i <= count && Done(c, b, x, done + Run(base, i, vector))
      {
        ghost var sites, more := done + Run(base, i, vector), done + Run(base, i + 1, vector);
        assert more[..|more| - 1] == sites && more[|more| - 1] == Site(base + i, vector);
        UpdateSlot(c, base + i, vector);
        i := i + 1;
      }
    }

    method UpdateContexts(
      c: VpxRac, base: nat, contexts: nat, ghost b: seq<byte>, ghost x: Machine, ghost done: seq<Site>)
      requires base + 3 * contexts <= SLOTS && Done(c, b, x, done)
      modifies c`high, c`bits, c`next, c`codeWord, c`due, this`coded, slots
      ensures Done(c, b, x, done + Contexts(base, contexts))
    {
      hide Done, ReadSites;
      var m := 0;
      assert done + Contexts(base, 0) == done;
      while m < contexts
        invariant 0 <= m <= contexts && Done(c, b, x, done + Contexts(base, m))
      {
        UpdateRun(c, base + 3 * m, 3, false, b, x, done + Contexts(base, m));
        assert done + Contexts(base, m) + Run(base + 3 * m, 3, false) == done + Contexts(base, m + 1);
        m := m + 1;
      }
    }

    method UpdateBands(c: VpxRac, base: nat, ghost b: seq<byte>, ghost x: Machine, ghost done: seq<Site>)
      requires base + 108 <= SLOTS && Done(c, b, x, done)
      modifies c`high, c`bits, c`next, c`codeWord, c`due, this`coded, slots
      ensures Done(c, b, x, done + Bands(base, 6))
    {
      hide Done, ReadSites, Contexts;
      var l := 0;
      assert done + Bands(base, 0) == done;
      while l < 6
        invariant 0 <= l <= 6 && Done(c, b, x, done + Bands(base, l))
      {
        var contexts := if l == 0 then 3 else 6;
        UpdateContexts(c, base + 18 * l, contexts, b, x, done + Bands(base, l));
        assert done + Bands(base, l) + Contexts(base + 18 * l, contexts) == done + Bands(base, l + 1);
        l := l + 1;
      }
    }

    method UpdateCoefficients(c: VpxRac, size: nat, ghost b: seq<byte>, ghost x: Machine)
      requires size < 4 && Done(c, b, x, [])
      modifies c`high, c`bits, c`next, c`codeWord, c`due, this`coded, slots
      ensures Done(c, b, x, CoefSites(size))
    {
      hide Done, ReadSites, Bands;
      var base := COEF + 432 * size;
      ghost var n := 4;
      assert [] + Planes(base, 0) == [];
      var plane := 0;
      while plane < 4
        invariant 0 <= plane <= 4 && Done(c, b, x, Planes(base, plane))
      {
        UpdateBands(c, base + 108 * plane, b, x, Planes(base, plane));
        plane := plane + 1;
      }
    }

    /** Starting over from where the decoder is. */
    lemma DoneNothing(c: VpxRac)
      requires slots.Length == SLOTS && c.Ready()
      ensures Whole(Now(c)) && Done(c, c.buffer, Now(c), [])
    {
    }

    lemma DoneSites(c: VpxRac, b: seq<byte>, x: Machine, sites: seq<Site>)
      requires Done(c, b, x, sites)
      ensures slots.Length == SLOTS && c.Ready() && c.buffer == b && Whole(x) && Inside(sites)
      ensures Whole(Now(c)) && Now(c) == ReadSites(b, x, sites)
    {
    }

    /** tx_mode. */
    method ReadTxMode(c: VpxRac, lossless: bool)
      requires slots.Length == SLOTS && c.Ready()
      modifies c`high, c`bits, c`next, c`codeWord, c`due, this`txMode
      ensures c.Ready() && (txMode, c.Spec()) == TxMode(c.buffer, old(c.Spec()), lossless)
    {
      hide ReadBool, Normalize, ReadLiteral, Pow2;
      if lossless {
        txMode := 0;
      } else {
        txMode := c.GetUint(2);
        if txMode == 3 {
          var more := c.Get();
          txMode := txMode + if more then 1 else 0;
        }
      }
    }

    method ReadTxPhase(c: VpxRac, lossless: bool)
      requires slots.Length == SLOTS && c.Ready()
      modifies c`high, c`bits, c`next, c`codeWord, c`due, this`coded, this`txMode, slots
      ensures c.Ready() && (txMode, Now(c)) == TxPhase(c.buffer, old(Now(c)), lossless)
    {
      hide Done, ReadSites, TxMode;
      ghost var b := c.buffer;
      ReadTxMode(c, lossless);
      ghost var x := Now(c);
      if txMode == TX_SELECT {
        DoneNothing(c);
        UpdateRun(c, TX8, 2, false, b, x, []);
        assert [] + Run(TX8, 2, false) == Run(TX8, 2, false);
        UpdateRun(c, TX16, 4, false, b, x, Run(TX8, 2, false));
        UpdateRun(c, TX32, 6, false, b, x, Run(TX8, 2, false) + Run(TX16, 4, false));
        DoneSites(c, b, x, TxSites());
      }
    }

    /** The coefficient loop, which ends at the frame's transform mode. */
    method ReadCoefPhase(c: VpxRac)
      requires slots.Length == SLOTS && c.Ready()
      modifies c`high, c`bits, c`next, c`codeWord, c`due, this`coded, slots
      ensures c.Ready() && Now(c) == CoefPhase(c.buffer, old(Now(c)), txMode, 0)
    {
      hide Done, ReadSites, ReadBool, Normalize, CoefSites;
      ghost var b, x := c.buffer, Now(c);
      var i := 0;
      while i < 4
        invariant 0 <= i <= 4 && c.Ready() && c.buffer == b
        invariant CoefPhase(b, x, txMode, 0) == CoefPhase(b, Now(c), txMode, i)
      {
        PlanesInside(COEF + 432 * i, 4);
        var update := c.Get();
        if update {
          ghost var x1 := Now(c);
          DoneNothing(c);
          UpdateCoefficients(c, i, b, x1);
          DoneSites(c, b, x1, CoefSites(i));
        }
        if txMode == i {
          break;
        }
        i := i + 1;
      }
    }

    method ReadIntraPart(c: VpxRac, lossless: bool)
      requires slots.Length == SLOTS && c.Ready()
      modifies c`high, c`bits, c`next, c`codeWord, c`due, this`coded, this`txMode, slots
      ensures c.Ready() && (txMode, Now(c)) == ReadIntra(c.buffer, old(Now(c)), lossless)
    {
      hide Done, ReadSites, CoefPhase, TxPhase;
      ReadTxPhase(c, lossless);
      ReadCoefPhase(c);
      ghost var x := Now(c);
      DoneNothing(c);
      UpdateRun(c, SKIP, 3, false, c.buffer, x, []);
      assert [] + Run(SKIP, 3, false) == Run(SKIP, 3, false);
      DoneSites(c, c.buffer, x, Run(SKIP, 3, false));
    }

    method ReadFirstInter(c: VpxRac, filterSwitchable: bool)
      requires slots.Length == SLOTS && c.Ready()
      modifies c`high, c`bits, c`next, c`codeWord, c`due, this`coded, slots
      ensures c.Ready() && Now(c) == ReadSites(c.buffer, old(Now(c)), FirstInterSites(filterSwitchable))
    {
      hide Done, ReadSites;
      ghost var b, x := c.buffer, Now(c);
      DoneNothing(c);
      ghost var modes := Run(INTER_MODE, 21, false);
      ghost var filters := if filterSwitchable then Run(INTERP_FILTER, 8, false) else [];
      UpdateRun(c, INTER_MODE, 21, false, b, x, []);
      assert [] + modes == modes && modes + [] == modes;
      if filterSwitchable {
        UpdateRun(c, INTERP_FILTER, 8, false, b, x, modes);
      }
      UpdateRun(c, IS_INTER, 4, false, b, x, modes + filters);
      DoneSites(c, b, x, FirstInterSites(filterSwitchable));
    }

    /** comppredmode. */
    method ReadCompMode(c: VpxRac, allowed: bool) returns (comp: nat)
      requires c.Ready()
      modifies c`high, c`bits, c`next, c`codeWord, c`due
      ensures c.Ready() && (comp, c.Spec()) == CompMode(c.buffer, old(c.Spec()), allowed)
    {
      hide ReadBool, Normalize;
      comp := 0;
      if allowed {
        var compound := c.Get();
        comp := if compound then 1 else 0;
        if comp != 0 {
          var switchable := c.Get();
          comp := comp + if switchable then 1 else 0;
        }
      }
    }

    method UpdateReferences(c: VpxRac, comp: nat, ghost b: seq<byte>, ghost x: Machine)
      requires Done(c, b, x, [])
      modifies c`high, c`bits, c`next, c`codeWord, c`due, this`coded, slots
      ensures Done(c, b, x, ReferenceSites(comp))
    {
      hide Done, ReadSites;
      ghost var one := if comp == 2 then Run(COMP_MODE, 5, false) else [];
      ghost var two := if comp != 1 then Run(SINGLE_REF, 10, false) else [];
      ghost var three := if comp != 0 then Run(COMP_REF, 5, false) else [];
      assert [] + one == one && one + [] == one && one + two + [] == one + two;
      if comp == 2 {
        UpdateRun(c, COMP_MODE, 5, false, b, x, []);
      }
      if comp != 1 {
        UpdateRun(c, SINGLE_REF, 10, false, b, x, one);
      }
      if comp != 0 {
        UpdateRun(c, COMP_REF, 5, false, b, x, one + two);
      }
      assert ReferenceSites(comp) == one + two + three;
    }

    method UpdateMvComponent(c: VpxRac, i: nat, ghost b: seq<byte>, ghost x: Machine, ghost done: seq<Site>)
      requires i < 2 && Done(c, b, x, done)
      modifies c`high, c`bits, c`next, c`codeWord, c`due, this`coded, slots
      ensures Done(c, b, x, done + MvComponent(i))
    {
      hide Done, ReadSites;
      ghost var sign, classes := Run(MV_SIGN + i, 1, true), Run(MV_CLASSES + 10 * i, 10, true);
      ghost var class0, bits := Run(MV_CLASS0_BIT + i, 1, true), Run(MV_BITS + 10 * i, 10, true);
      UpdateRun(c, MV_SIGN + i, 1, true, b, x, done);
      UpdateRun(c, MV_CLASSES + 10 * i, 10, true, b, x, done + sign);
      UpdateRun(c, MV_CLASS0_BIT + i, 1, true, b, x, done + sign + classes);
      UpdateRun(c, MV_BITS + 10 * i, 10, true, b, x, done + sign + classes + class0);
      Regroup4(done, sign, classes, class0, bits);
    }

    method UpdateMvPair(c: VpxRac, one: nat, n: nat, two: nat, m: nat,
                        ghost b: seq<byte>, ghost x: Machine, ghost done: seq<Site>)
      requires one + n <= SLOTS && two + m <= SLOTS && Done(c, b, x, done)
      modifies c`high, c`bits, c`next, c`codeWord, c`due, this`coded, slots
      ensures Done(c, b, x, done + (Run(one, n, true) + Run(two, m, true)))
    {
      hide Done, ReadSites;
      UpdateRun(c, one, n, true, b, x, done);
      UpdateRun(c, two, m, true, b, x, done + Run(one, n, true));
      assert done + Run(one, n, true) + Run(two, m, true) == done + (Run(one, n, true) + Run(two, m, true));
    }

    /** The motion-vector probabilities. */
    method UpdateMv(c: VpxRac, highPrecision: bool, ghost b: seq<byte>, ghost x: Machine, ghost done: seq<Site>)
      requires Done(c, b, x, done)
      modifies c`high, c`bits, c`next, c`codeWord, c`due, this`coded, slots
      ensures Done(c, b, x, done + MvSites(highPrecision))
    {
      hide Done, ReadSites, MvComponent, Run;
      ghost var joint, high := Run(MV_JOINT, 3, true), MvHighPrecision(0) + MvHighPrecision(1);
      UpdateRun(c, MV_JOINT, 3, true, b, x, done);
      ghost var d1 := done + joint;
      UpdateMvComponent(c, 0, b, x, d1);
      UpdateMvComponent(c, 1, b, x, d1 + MvComponent(0));
      ghost var d2 := d1 + MvComponent(0) + MvComponent(1);
      UpdateMvPair(c, MV_CLASS0_FR, 6, MV_FR, 3, b, x, d2);
      UpdateMvPair(c, MV_CLASS0_FR + 6, 6, MV_FR + 3, 3, b, x, d2 + MvFraction(0));
      ghost var d3 := d2 + MvFraction(0) + MvFraction(1);
      if highPrecision {
        UpdateMvPair(c, MV_CLASS0_HP, 1, MV_HP, 1, b, x, d3);
        UpdateMvPair(c, MV_CLASS0_HP + 1, 1, MV_HP + 1, 1, b, x, d3 + MvHighPrecision(0));
      }
      MvRegroup(done, joint, MvComponent(0), MvComponent(1), MvFraction(0), MvFraction(1),
                MvHighPrecision(0), MvHighPrecision(1));
    }

    method ReadLastInter(c: VpxRac, comp: nat, highPrecision: bool)
      requires slots.Length == SLOTS && c.Ready()
      modifies c`high, c`bits, c`next, c`codeWord, c`due, this`coded, slots
      ensures c.Ready() && Now(c) == ReadSites(c.buffer, old(Now(c)), LastInterSites(comp, highPrecision))
    {
      hide Done, ReadSites, ReferenceSites, MvSites, Run;
      ghost var b, x := c.buffer, Now(c);
      DoneNothing(c);
      UpdateReferences(c, comp, b, x);
      ghost var refs, modes, parts := ReferenceSites(comp), Run(Y_MODE, 36, false), Run(PARTITION, 48, false);
      UpdateRun(c, Y_MODE, 36, false, b, x, refs);
      UpdateRun(c, PARTITION, 48, false, b, x, refs + modes);
      assert refs + modes + parts == refs + (modes + parts);
      UpdateMv(c, highPrecision, b, x, refs + (modes + parts));
      DoneSites(c, b, x, LastInterSites(comp, highPrecision));
    }

    method ReadInterPart(c: VpxRac, p: Params) returns (comp: nat)
      requires slots.Length == SLOTS && c.Ready()
      modifies c`high, c`bits, c`next, c`codeWord, c`due, this`coded, slots
      ensures c.Ready() && (comp, Now(c)) == ReadInter(c.buffer, old(Now(c)), p)
    {
      hide ReadSites, CompMode, FirstInterSites, LastInterSites;
      ReadFirstInter(c, p.filterSwitchable);
      comp := ReadCompMode(c, p.allowCompInter);
      ReadLastInter(c, comp, p.highPrecision);
    }

    /** The frame's compressed header, marker first, is the header h written out. */
    static ghost predicate FillsWith(frame: seq<byte>, uncompressedSize: nat, compressedSize: nat, h: W.Content,
                                     p: Params)
    {
      && uncompressedSize + compressedSize <= |frame| && compressedSize >= 3 && W.Valid(h, p)
      && var b := frame[uncompressedSize..uncompressedSize + compressedSize];
      W.Yields(b, BoolDecoder.Init(b), [A.Symbol(128, false)] + W.HeaderSymbols(h, p))
    }

    static lemma FillsExactly(frame: seq<byte>, uncompressedSize: nat, compressedSize: nat, h: W.Content, p: Params)
      requires FillsWith(frame, uncompressedSize, compressedSize, h, p)
      ensures var b := frame[uncompressedSize..uncompressedSize + compressedSize];
        var marker := ReadBool(b, BoolDecoder.Init(b), 128);
        && !marker.bit
        && var o := ReadHeader(b, Machine(marker.state, seq(SLOTS, _ => 0), {}), p);
        && o.comp == h.comp && o.txMode == h.txMode && o.machine.coded == h.coded.Keys
        && forall i | 0 <= i < SLOTS :: o.machine.slots[i] == W.Value(h, i)
    {
      hide ReadBool, ReadHeader, W.HeaderSymbols, W.Value;
      var b := frame[uncompressedSize..uncompressedSize + compressedSize];
      assert ([A.Symbol(128, false)] + W.HeaderSymbols(h, p))[1..] == W.HeaderSymbols(h, p);
      W.SymbolsReadBack(b, ReadBool(b, BoolDecoder.Init(b), 128).state, h, p);
    }

    /** vp9_fill_compressed_hdr on a struct just cleared. */
    method Fill(frame: seq<byte>, uncompressedSize: nat, compressedSize: nat, p: Params) returns (rc: int)
      requires slots.Length == SLOTS && slots[..] == seq(SLOTS, _ => 0) && coded == {}
      modifies this`coded, this`txMode, slots
      ensures var fits := uncompressedSize + compressedSize <= |frame| && compressedSize >= 3;
        var b := if fits then frame[uncompressedSize..uncompressedSize + compressedSize] else [0];
        var marker := ReadBool(b, BoolDecoder.Init(b), 128);
        if !fits || marker.bit then rc == -1 && slots[..] == old(slots[..]) && txMode == old(txMode)
        else
          var o := ReadHeader(b, Machine(marker.state, old(slots[..]), {}), p);
          rc == o.comp && txMode == o.txMode && slots[..] == o.machine.slots && coded == o.machine.coded
      ensures forall i | 0 <= i < SLOTS :: slots[i] == 0 <==> i !in coded
      ensures forall h: W.Content :: FillsWith(frame, uncompressedSize, compressedSize, h, p) ==>
        rc == h.comp && txMode == h.txMode && coded == h.coded.Keys
        && forall i | 0 <= i < SLOTS :: slots[i] == W.Value(h, i)
    {
      hide ReadBool, Normalize, ReadIntra, ReadInter, W.Present, W.Small, W.Yields, W.HeaderSymbols, W.Value;
      if uncompressedSize + compressedSize > |frame| {
        return -1;
      }
      var c := new VpxRac();
      rc := c.Init(frame[uncompressedSize..uncompressedSize + compressedSize]);
      if rc < 0 {
        return -1;
      }
      var marker := c.GetProbBranchy(EVEN);
      if marker {
        forall h: W.Content | FillsWith(frame, uncompressedSize, compressedSize, h, p)
          ensures false
        {
          FillsExactly(frame, uncompressedSize, compressedSize, h, p);
        }
        return -1;
      }
      ghost var x := Now(c);
      HeaderKeepsZeroMeaning(c.buffer, x, p);
      ReadIntraPart(c, p.lossless);
      var comp := 0;
      if p.inter {
        comp := ReadInterPart(c, p);
      }
      rc := comp;
      assert ZeroMeansNone(Now(c));
      forall h: W.Content | FillsWith(frame, uncompressedSize, compressedSize, h, p)
        ensures rc == h.comp && txMode == h.txMode && coded == h.coded.Keys
        ensures forall i | 0 <= i < SLOTS :: slots[i] == W.Value(h, i)
      {
        FillsExactly(frame, uncompressedSize, compressedSize, h, p);
      }
    }
  }

  lemma Regroup4<T>(d: seq<T>, x: seq<T>, y: seq<T>, z: seq<T>, w: seq<T>)
    ensures d + x + y + z + w == d + (x + y + z + w)
  {
  }

  lemma MvRegroup<T>(d: seq<T>, j: seq<T>, c0: seq<T>, c1: seq<T>, f0: seq<T>, f1: seq<T>, h0: seq<T>, h1: seq<T>)
    ensures d + j + c0 + c1 + f0 + f1 == d + (j + c0 + c1 + f0 + f1 + [])
    ensures d + j + c0 + c1 + f0 + f1 + h0 + h1 == d + (j + c0 + c1 + f0 + f1 + (h0 + h1))
  {
  }
}
