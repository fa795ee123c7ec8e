/**
The VP9 compressed-header reader (vp9.c) on top of the range coder: which probabilities are read, in which order, and
what is stored for them. The control struct is one array of slots; a slot keeps 0 when no update is coded for it.
*/
module CompressedHeader {
  import opened Arithmetic
  import opened BoolDecoder
  import opened Options
  import opened RangeCoder
  import opened BitSyntax
  import opened ProbDelta

  const UPDATE_PROB: byte := 252
  const EVEN: byte := 128

  // ----- reads at even odds

  /** The specification's decoder after n reads at even odds, and the bits they returned. */
  function CoinState(b: seq<byte>, s: State, n: nat): (t: State)
    requires s.range >= 2
    ensures t.range >= 2
  {
    if n == 0 then s else ReadBool(b, CoinState(b, s, n - 1), EVEN).state
  }

  function Coins(b: seq<byte>, s: State, n: nat): (r: seq<bool>)
    requires s.range >= 2
    ensures |r| == n
  {
    if n == 0 then [] else Coins(b, s, n - 1) + [ReadBool(b, CoinState(b, s, n - 1), EVEN).bit]
  }

  lemma {:induction false} FewerCoins(b: seq<byte>, s: State, m: nat, n: nat)
    requires s.range >= 2 && m <= n
    ensures Coins(b, s, n)[..m] == Coins(b, s, m)
  {
    if m < n {
      FewerCoins(b, s, m, n - 1);
      assert Coins(b, s, n)[..m] == Coins(b, s, n - 1)[..m];
    }
  }

  /** A literal is the number its bits make. */
  lemma {:induction false} LiteralIsCoins(b: seq<byte>, s: State, k: nat, n: nat)
    requires s.range >= 2
    ensures ReadLiteral(b, CoinState(b, s, k), n) == (Number(Coins(b, s, k + n)[k..]), CoinState(b, s, k + n))
  {
    hide ReadBool;
    var all := Coins(b, s, k + n)[k..];
    if n > 0 {
      LiteralIsCoins(b, s, k, n - 1);
      assert all[..n - 1] == Coins(b, s, k + n - 1)[k..];
    }
  }

  /** Read the code's bit string off the decoder, no bit more: its index. */
  function ReadIndex(b: seq<byte>, s: State): (r: (nat, State))
    requires s.range >= 2
    ensures r.0 < INDICES && r.1.range >= 2
  {
    ElevenBitsDecode(Coins(b, s, 11));
    var c := Decode(Coins(b, s, 11)).value;
    (c.index, CoinState(b, s, |Encode(c.index)|))
  }

  /** Differential update: the probability behind the index. */
  function ReadDelta(b: seq<byte>, s: State): (r: (nat, State))
    requires s.range >= 2
    ensures 1 <= r.0 <= 254 && r.1.range >= 2
  {
    var (index, t) := ReadIndex(b, s);
    NeverZero(index);
    (InvMap(index), t)
  }

  /** Reading an index's bit string is reading the index. */
  lemma IndexFrom(b: seq<byte>, s: State, n: nat, index: nat)
    requires s.range >= 2 && n <= 11 && index < INDICES && Coins(b, s, n) == Encode(index)
    ensures ReadIndex(b, s) == (index, CoinState(b, s, n))
  {
    hide Coins, CoinState, Decode, Encode;
    var all := Coins(b, s, 11);
    FewerCoins(b, s, n, 11);
    DecodeEncode(index, all[n..]);
    assert all == Encode(index) + all[n..];
  }

  /** A literal adds its digits to the bits read so far. */
  lemma LiteralSeen(b: seq<byte>, s: State, k: nat, n: nat)
    requires s.range >= 2
    ensures var (v, t) := ReadLiteral(b, CoinState(b, s, k), n);
      t == CoinState(b, s, k + n) && Coins(b, s, k + n) == Coins(b, s, k) + Digits(v, n)
  {
    hide ReadBool, Number, Digits;
    LiteralIsCoins(b, s, k, n);
    FewerCoins(b, s, k, k + n);
    var all := Coins(b, s, k + n);
    DigitsOfNumber(all[k..]);
    assert all == all[..k] + all[k..];
  }

  lemma CoinSeen(b: seq<byte>, s: State, k: nat)
    requires s.range >= 2
    ensures var d := ReadBool(b, CoinState(b, s, k), EVEN);
      CoinState(b, s, k + 1) == d.state && Coins(b, s, k + 1) == Coins(b, s, k) + [d.bit]
  {
  }

  lemma NoCoins(b: seq<byte>, s: State)
    requires s.range >= 2
    ensures Coins(b, s, 0) == [] && CoinState(b, s, 0) == s
  {
  }

  lemma SmallPowers()
    ensures Pow2(4) == 16 && Pow2(5) == 32 && Pow2(7) == 128
  {
  }

  /** vp9_read_prob_delta. */
  method ReadProbDelta(c: VpxRac) returns (v: nat)
    requires c.Ready()
    modifies c`high, c`bits, c`next, c`codeWord, c`due
    ensures c.Ready()
    ensures (v, c.Spec()) == ReadDelta(c.buffer, old(c.Spec()))
  {
    hide ReadBool, ReadLiteral, Normalize, Number, Digits, ReadIndex, Row, Pow2, Coins, CoinState;
    ghost var b, s := c.buffer, c.Spec();
    NoCoins(b, s);
    SmallPowers();
    var d: nat;
    ghost var n := 0;
    var b0 := c.Get();
    CoinSeen(b, s, 0);
    if !b0 {
      LiteralSeen(b, s, 1, 4);
      d := c.GetUint(4);
      n := 5;
    } else {
      var b1 := c.Get();
      CoinSeen(b, s, 1);
      if !b1 {
        LiteralSeen(b, s, 2, 4);
        d := c.GetUint(4);
        d := d + 16;
        n := 6;
      } else {
        d, n := ReadLong(c, b, s);
        if d >= INDICES {
          assert false;  // the driver's bounds check never applies
        }
      }
    }
    assert Coins(b, s, n) == Encode(d);
    IndexFrom(b, s, n, d);
    v := InvMap(d);
  }

  /** The last two forms of the code, behind two ones. */
  method ReadLong(c: VpxRac, ghost b: seq<byte>, ghost s: State) returns (d: nat, ghost n: nat)
    requires c.Ready() && c.buffer == b && s.range >= 2
    requires c.Spec() == CoinState(b, s, 2) && Coins(b, s, 2) == [true, true]
    modifies c`high, c`bits, c`next, c`codeWord, c`due
    ensures c.Ready() && n <= 11 && c.Spec() == CoinState(b, s, n)
    ensures d < INDICES && Coins(b, s, n) == Encode(d)
  {
    hide ReadBool, ReadLiteral, Normalize, Number, Digits, Pow2, Coins, CoinState;
    SmallPowers();
    var b2 := c.Get();
    CoinSeen(b, s, 2);
    if !b2 {
      LiteralSeen(b, s, 3, 5);
      d := c.GetUint(5);
      d := d + 32;
      n := 8;
      assert [true, true, false] + Digits(d - 32, 5) == [true, true] + [false] + Digits(d - 32, 5);
    } else {
      LiteralSeen(b, s, 3, 7);
      d := c.GetUint(7);
      n := 10;
      assert [true, true, true] + Digits(d, 7) == [true, true] + [true] + Digits(d, 7);
      if d >= 65 {
        ghost var x := d;
        var b3 := c.Get();
        CoinSeen(b, s, 10);
        d := 2 * d - 65 + if b3 then 1 else 0;
        n := 11;
        assert (d + 65) / 2 == x && ((d + 65) % 2 == 1) == b3;
      }
      d := d + 64;
    }
  }

  // ----- updates, and what they store

  /** A slot with an update flag; motion-vector probabilities are coded as seven bits and made odd. */
  datatype Site = Site(slot: nat, vector: bool)

  /** The decoder, the control struct's slots, and which slots an update was coded for. */
  datatype Machine = Machine(state: State, slots: seq<nat>, coded: set<nat>)

  predicate Fits(x: Machine, sites: seq<Site>)
  {
    x.state.range >= 2 && forall i | 0 <= i < |sites| :: sites[i].slot < |x.slots|
  }

  /** The value an update stores. */
  function ReadUpdate(b: seq<byte>, s: State, vector: bool): (r: (nat, State))
    requires s.range >= 2
    ensures 1 <= r.0 && r.1.range >= 2
  {
    if vector then
      var (v, t) := ReadLiteral(b, s, 7);
      (2 * v + 1, t)
    else ReadDelta(b, s)
  }

  function ReadSite(b: seq<byte>, x: Machine, site: Site): (y: Machine)
    requires x.state.range >= 2 && site.slot < |x.slots|
    ensures y.state.range >= 2 && |y.slots| == |x.slots|
  {
    var d := ReadBool(b, x.state, UPDATE_PROB);
    if !d.bit then x.(state := d.state)
    else
      var (v, t) := ReadUpdate(b, d.state, site.vector);
      Machine(t, x.slots[site.slot := v], x.coded + {site.slot})
  }

  function ReadSites(b: seq<byte>, x: Machine, sites: seq<Site>): (y: Machine)
    requires Fits(x, sites)
    ensures y.state.range >= 2 && |y.slots| == |x.slots|
    decreases |sites|
  {
    if sites == [] then x
    else
      var n := |sites| - 1;
      ReadSite(b, ReadSites(b, x, sites[..n]), sites[n])
  }

  /** A slot is 0 exactly when no update was coded for it. */
  ghost predicate ZeroMeansNone(x: Machine)
  {
    forall i | 0 <= i < |x.slots| :: x.slots[i] == 0 <==> i !in x.coded
  }

  lemma {:induction false} SitesKeepZeroMeaning(b: seq<byte>, x: Machine, sites: seq<Site>)
    requires Fits(x, sites) && ZeroMeansNone(x)
    ensures ZeroMeansNone(ReadSites(b, x, sites))
    decreases |sites|
  {
    if sites != [] {
      SitesKeepZeroMeaning(b, x, sites[..|sites| - 1]);
    }
  }

  // ----- the layout of the control struct

  const TX8 := 0
  const TX16 := 2
  const TX32 := 6
  const COEF := 12
  const SKIP := 1740
  const INTER_MODE := 1743
  const INTERP_FILTER := 1764
  const IS_INTER := 1772
  const COMP_MODE := 1776
  const SINGLE_REF := 1781
  const COMP_REF := 1791
  const Y_MODE := 1796
  const PARTITION := 1832
  const MV_JOINT := 1880
  const MV_SIGN := 1883
  const MV_CLASSES := 1885
  const MV_CLASS0_BIT := 1905
  const MV_BITS := 1907
  const MV_CLASS0_FR := 1927
  const MV_FR := 1939
  const MV_CLASS0_HP := 1945
  const MV_HP := 1947
  const SLOTS := 1949

  /** A run of slots one after the other, as a nest of loops over a whole array visits them. */
  function Run(base: nat, count: nat, vector: bool): (r: seq<Site>)
    ensures |r| == count && forall i | 0 <= i < count :: r[i] == Site(base + i, vector)
  {
    seq(count, i requires 0 <= i < count => Site(base + i, vector))
  }

  /** coef[i][j][k][l][m][n]: the first band has three contexts, the others six. */
  function Contexts(base: nat, contexts: nat): seq<Site>
  {
    if contexts == 0 then [] else Contexts(base, contexts - 1) + Run(base + 3 * (contexts - 1), 3, false)
  }

  function Bands(base: nat, bands: nat): seq<Site>
  {
    if bands == 0 then [] else Bands(base, bands - 1) + Contexts(base + 18 * (bands - 1), if bands == 1 then 3 else 6)
  }

  function Planes(base: nat, planes: nat): seq<Site>
  {
    if planes == 0 then [] else Planes(base, planes - 1) + Bands(base + 108 * (planes - 1), 6)
  }

  /** The four combinations of plane type and reference of one transform size. */
  function CoefSites(i: nat): seq<Site>
  {
    Planes(COEF + 432 * i, 4)
  }

  predicate Inside(sites: seq<Site>)
  {
    forall i | 0 <= i < |sites| :: sites[i].slot < SLOTS
  }

  /** Sign, classes and integer bits of one component. */
  function MvComponent(i: nat): (r: seq<Site>)
    requires i < 2
    ensures Inside(r)
  {
    Run(MV_SIGN + i, 1, true) + Run(MV_CLASSES + 10 * i, 10, true)
    + Run(MV_CLASS0_BIT + i, 1, true) + Run(MV_BITS + 10 * i, 10, true)
  }

  function MvFraction(i: nat): (r: seq<Site>)
    requires i < 2
    ensures Inside(r)
  {
    Run(MV_CLASS0_FR + 6 * i, 6, true) + Run(MV_FR + 3 * i, 3, true)
  }

  function MvHighPrecision(i: nat): (r: seq<Site>)
    requires i < 2
    ensures Inside(r)
  {
    Run(MV_CLASS0_HP + i, 1, true) + Run(MV_HP + i, 1, true)
  }

  lemma {:induction false} ContextsInside(base: nat, contexts: nat)
    requires base + 3 * contexts <= SLOTS
    ensures Inside(Contexts(base, contexts))
  {
    if contexts > 0 {
      ContextsInside(base, contexts - 1);
    }
  }

  lemma {:induction false} BandsInside(base: nat, bands: nat)
    requires base + 18 * bands <= SLOTS
    ensures Inside(Bands(base, bands))
  {
    if bands > 0 {
      BandsInside(base, bands - 1);
      ContextsInside(base + 18 * (bands - 1), if bands == 1 then 3 else 6);
    }
  }

  lemma {:induction false} PlanesInside(base: nat, planes: nat)
    requires base + 108 * planes <= SLOTS
    ensures Inside(Planes(base, planes))
  {
    if planes > 0 {
      PlanesInside(base, planes - 1);
      BandsInside(base + 108 * (planes - 1), 6);
    }
  }

  /** Strictly increasing slots from `low` on, below `high`. */
  ghost predicate Increasing(sites: seq<Site>, low: nat, high: nat)
  {
    && (forall i | 0 <= i < |sites| :: low <= sites[i].slot < high)
    && (forall i, j | 0 <= i < j < |sites| :: sites[i].slot < sites[j].slot)
  }

  lemma {:induction false} ContextsIncrease(base: nat, contexts: nat)
    ensures Increasing(Contexts(base, contexts), base, base + 3 * contexts)
  {
    if contexts > 0 {
      ContextsIncrease(base, contexts - 1);
    }
  }

  lemma {:induction false} BandsIncrease(base: nat, bands: nat)
    ensures Increasing(Bands(base, bands), base, base + 18 * bands)
  {
    if bands > 0 {
      BandsIncrease(base, bands - 1);
      ContextsIncrease(base + 18 * (bands - 1), if bands == 1 then 3 else 6);
    }
  }

  /** Coefficient updates visit no slot twice, and each transform size stays within its own 432. */
  lemma {:induction false} PlanesIncrease(base: nat, planes: nat)
    ensures Increasing(Planes(base, planes), base, base + 108 * planes)
  {
    if planes > 0 {
      PlanesIncrease(base, planes - 1);
      BandsIncrease(base + 108 * (planes - 1), 6);
    }
  }

  // ----- the whole header, on the specification's decoder

  const TX_SELECT := 4

  datatype Params = Params(lossless: bool, inter: bool, filterSwitchable: bool,
                           allowCompInter: bool, highPrecision: bool)

  function TxMode(b: seq<byte>, s: State, lossless: bool): (r: (nat, State))
    requires s.range >= 2
    ensures r.1.range >= 2
  {
    if lossless then (0, s)
    else
      var (v, t) := ReadLiteral(b, s, 2);
      if v == 3 then
        var d := ReadBool(b, t, EVEN);
        (if d.bit then 4 else 3, d.state)
      else (v, t)
  }

  lemma ThreeReads(b: seq<byte>, s: State)
    requires s.range >= 2
    ensures var d := ReadBool(b, s, 128);
      var e := ReadBool(b, d.state, 128);
      var f := ReadBool(b, e.state, 128);
      && ReadAll(b, s, [128])[0] == d.bit && StateAfter(b, s, [128]) == d.state
      && ReadAll(b, s, [128, 128])[0] == d.bit && ReadAll(b, s, [128, 128])[1] == e.bit
      && StateAfter(b, s, [128, 128]) == e.state
      && ReadAll(b, s, [128, 128, 128])[0] == d.bit && ReadAll(b, s, [128, 128, 128])[1] == e.bit
      && ReadAll(b, s, [128, 128, 128])[2] == f.bit && StateAfter(b, s, [128, 128, 128]) == f.state
  {
    hide ReadBool;
    assert [EVEN, EVEN, EVEN][1..] == [EVEN, EVEN] && [EVEN, EVEN][1..] == [EVEN] && [EVEN][1..] == [];
  }

  /** The transform mode in bits: two of them, and a third after two ones. */
  lemma TxModeExact(b: seq<byte>, s: State)
    requires s.range >= 2
    ensures TxMode(b, s, true) == (0, s)
    ensures var two, m := ReadAll(b, s, [128, 128]), TxMode(b, s, false).0;
      && (two == [false, false] ==> m == 0) && (two == [false, true] ==> m == 1) && (two == [true, false] ==> m == 2)
      && (two != [true, true] ==> TxMode(b, s, false).1 == StateAfter(b, s, [128, 128]))
    ensures var three := ReadAll(b, s, [128, 128, 128]);
      && (three == [true, true, false] ==> TxMode(b, s, false) == (3, StateAfter(b, s, [128, 128, 128])))
      && (three == [true, true, true] ==> TxMode(b, s, false) == (4, StateAfter(b, s, [128, 128, 128])))
  {
    hide ReadBool, ReadAll, StateAfter;
    ThreeReads(b, s);
    assert ReadLiteral(b, s, 0) == (0, s);
    assert ReadLiteral(b, s, 1) == ((if ReadBool(b, s, EVEN).bit then 1 else 0), ReadBool(b, s, EVEN).state);
  }

  function TxSites(): (r: seq<Site>)
    ensures Inside(r)
  {
    Run(TX8, 2, false) + Run(TX16, 4, false) + Run(TX32, 6, false)
  }

  predicate Whole(x: Machine)
  {
    x.state.range >= 2 && |x.slots| == SLOTS
  }

  /** Coefficient updates, one transform size after the other, up to the largest the frame uses. */
  function CoefPhase(b: seq<byte>, x: Machine, txMode: nat, i: nat): (y: Machine)
    requires Whole(x) && i <= 4
    ensures Whole(y)
    decreases 4 - i
  {
    if i == 4 then x
    else
      PlanesInside(COEF + 432 * i, 4);
      var d := ReadBool(b, x.state, EVEN);
      var x1 := x.(state := d.state);
      var x2 := if d.bit then ReadSites(b, x1, CoefSites(i)) else x1;
      if txMode == i then x2 else CoefPhase(b, x2, txMode, i + 1)
  }

  function FirstInterSites(filterSwitchable: bool): (r: seq<Site>)
    ensures Inside(r)
  {
    Run(INTER_MODE, 21, false)
    + (if filterSwitchable then Run(INTERP_FILTER, 8, false) else [])
    + Run(IS_INTER, 4, false)
  }

  /** Single, compound or switchable reference. */
  function CompMode(b: seq<byte>, s: State, allowed: bool): (r: (nat, State))
    requires s.range >= 2
    ensures r.0 <= 2 && r.1.range >= 2
  {
    if !allowed then (0, s)
    else
      var d := ReadBool(b, s, EVEN);
      if !d.bit then (0, d.state)
      else
        var e := ReadBool(b, d.state, EVEN);
        (if e.bit then 2 else 1, e.state)
  }

  /** The reference mode in bits: none, one, or two of them, and 1 is the mode with compound references only. */
  lemma CompModeExact(b: seq<byte>, s: State)
    requires s.range >= 2
    ensures CompMode(b, s, false) == (0, s)
    ensures ReadAll(b, s, [128]) == [false] ==> CompMode(b, s, true) == (0, StateAfter(b, s, [128]))
    ensures var two, t := ReadAll(b, s, [128, 128]), StateAfter(b, s, [128, 128]);
      && (two == [true, false] ==> CompMode(b, s, true) == (1, t))
      && (two == [true, true] ==> CompMode(b, s, true) == (2, t))
  {
    hide ReadBool, ReadAll, StateAfter;
    ThreeReads(b, s);
  }

  function ReferenceSites(comp: nat): (r: seq<Site>)
    ensures Inside(r)
  {
    (if comp == 2 then Run(COMP_MODE, 5, false) else [])
    + (if comp != 1 then Run(SINGLE_REF, 10, false) else [])
    + (if comp != 0 then Run(COMP_REF, 5, false) else [])
  }

  function MvSites(highPrecision: bool): (r: seq<Site>)
    ensures Inside(r)
  {
    Run(MV_JOINT, 3, true) + MvComponent(0) + MvComponent(1) + MvFraction(0) + MvFraction(1)
    + (if highPrecision then MvHighPrecision(0) + MvHighPrecision(1) else [])
  }

  function LastInterSites(comp: nat, highPrecision: bool): (r: seq<Site>)
    ensures Inside(r)
  {
    ReferenceSites(comp) + (Run(Y_MODE, 36, false) + Run(PARTITION, 48, false)) + MvSites(highPrecision)
  }

  datatype Outcome = Outcome(txMode: nat, comp: nat, machine: Machine)

  function TxPhase(b: seq<byte>, x: Machine, lossless: bool): (r: (nat, Machine))
    requires Whole(x)
    ensures Whole(r.1)
  {
    var (txMode, t) := TxMode(b, x.state, lossless);
    var x1 := x.(state := t);
    (txMode, if txMode == TX_SELECT then ReadSites(b, x1, TxSites()) else x1)
  }

  /** Everything before the part only inter frames have. */
  function ReadIntra(b: seq<byte>, x: Machine, lossless: bool): (r: (nat, Machine))
    requires Whole(x)
    ensures Whole(r.1)
  {
    var (txMode, y) := TxPhase(b, x, lossless);
    (txMode, ReadSites(b, CoefPhase(b, y, txMode, 0), Run(SKIP, 3, false)))
  }

  function ReadInter(b: seq<byte>, x: Machine, p: Params): (r: (nat, Machine))
    requires Whole(x)
    ensures Whole(r.1) && r.0 <= 2
  {
    var x1 := ReadSites(b, x, FirstInterSites(p.filterSwitchable));
    var (comp, t) := CompMode(b, x1.state, p.allowCompInter);
    (comp, ReadSites(b, x1.(state := t), LastInterSites(comp, p.highPrecision)))
  }

  function ReadHeader(b: seq<byte>, x: Machine, p: Params): (o: Outcome)
    requires Whole(x)
    ensures Whole(o.machine) && o.comp <= 2
  {
    var (txMode, y) := ReadIntra(b, x, p.lossless);
    if !p.inter then Outcome(txMode, 0, y)
    else
      var (comp, z) := ReadInter(b, y, p);
      Outcome(txMode, comp, z)
  }

  lemma {:induction false} CoefKeepsZeroMeaning(b: seq<byte>, x: Machine, txMode: nat, i: nat)
    requires Whole(x) && i <= 4 && ZeroMeansNone(x)
    ensures ZeroMeansNone(CoefPhase(b, x, txMode, i))
    decreases 4 - i
  {
    hide ReadBool, ReadSites;
    if i < 4 {
      PlanesInside(COEF + 432 * i, 4);
      var d := ReadBool(b, x.state, EVEN);
      var x1 := x.(state := d.state);
      SitesKeepZeroMeaning(b, x1, CoefSites(i));
      var x2 := if d.bit then ReadSites(b, x1, CoefSites(i)) else x1;
      if txMode != i {
        CoefKeepsZeroMeaning(b, x2, txMode, i + 1);
      }
    }
  }

  lemma IntraKeepsZeroMeaning(b: seq<byte>, x: Machine, lossless: bool)
    requires Whole(x) && ZeroMeansNone(x)
    ensures ZeroMeansNone(ReadIntra(b, x, lossless).1)
  {
    hide ReadBool, ReadSites, CoefPhase, TxMode, ZeroMeansNone, TxSites;
    var (txMode, t) := TxMode(b, x.state, lossless);
    var x1 := x.(state := t);
    StateChangeKeeps(x, t);
    SitesKeepZeroMeaning(b, x1, TxSites());
    var x2 := if txMode == TX_SELECT then ReadSites(b, x1, TxSites()) else x1;
    CoefKeepsZeroMeaning(b, x2, txMode, 0);
    SitesKeepZeroMeaning(b, CoefPhase(b, x2, txMode, 0), Run(SKIP, 3, false));
  }

  lemma InterKeepsZeroMeaning(b: seq<byte>, x: Machine, p: Params)
    requires Whole(x) && ZeroMeansNone(x)
    ensures ZeroMeansNone(ReadInter(b, x, p).1)
  {
    hide ReadBool, ReadSites, CompMode, ZeroMeansNone, FirstInterSites, LastInterSites;
    SitesKeepZeroMeaning(b, x, FirstInterSites(p.filterSwitchable));
    var x1 := ReadSites(b, x, FirstInterSites(p.filterSwitchable));
    var (comp, t) := CompMode(b, x1.state, p.allowCompInter);
    StateChangeKeeps(x1, t);
    SitesKeepZeroMeaning(b, x1.(state := t), LastInterSites(comp, p.highPrecision));
  }

  /** The main result about what is stored: whatever the header says, a 0 left in the struct means no update. */
  lemma HeaderKeepsZeroMeaning(b: seq<byte>, x: Machine, p: Params)
    requires Whole(x) && ZeroMeansNone(x)
    ensures ZeroMeansNone(ReadHeader(b, x, p).machine)
  {
    hide ReadIntra, ReadInter, ZeroMeansNone;
    IntraKeepsZeroMeaning(b, x, p.lossless);
    if p.inter {
      InterKeepsZeroMeaning(b, ReadIntra(b, x, p.lossless).1, p);
    }
  }

  lemma StateChangeKeeps(x: Machine, t: State)
    ensures ZeroMeansNone(x) ==> ZeroMeansNone(x.(state := t))
  {
  }
}
