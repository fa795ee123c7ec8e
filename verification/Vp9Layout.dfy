/**
The VP9 uncompressed header written out bit by bit, section 6.2 of the VP9 bitstream specification: the literal order
and width of every field, the skipped ones included, and the record that means the header. The grammar reads exactly
this.
*/
module Vp9Layout {
  import opened Arithmetic
  import opened Options
  import opened BitSyntax
  import opened Vp9Header

  // ----- the content of a header, field by field

  /** su(n): a magnitude and a sign, which a zero may have too. */
  datatype Code = Code(magnitude: nat, negative: bool)

  datatype Colors = Colors(deep: bool, space: nat, range: bool, subsamplingX: bool, subsamplingY: bool, reserved: bool)

  /** Width and height, less one each. */
  datatype Area = Area(width: nat, height: nat)

  datatype Reference = Reference(index: nat, bias: bool)

  /** `found` is the first reference with the frame's size; without one the size is coded. */
  datatype Frame =
    | Key(colors: Colors, area: Area, render: Option<Area>)
    | Intra(reset: nat, colors: Colors, refresh: nat, area: Area, render: Option<Area>)
    | Predicted(reset: nat, refresh: nat, references: seq<Reference>, found: Option<nat>, area: Area,
                render: Option<Area>, highPrecision: bool, filter: Option<nat>)

  datatype Deltas = Off | Kept | Updated(refs: seq<Option<Code>>, modes: seq<Option<Code>>)

  datatype FeatureCode = FeatureCode(q: Option<Code>, lf: Option<Code>, ref: Option<nat>, skip: bool)

  datatype SegmentCode = SegmentCode(absolute: bool, features: seq<FeatureCode>)

  datatype MapCode = MapCode(probs: seq<Option<nat>>, temporal: Option<seq<Option<nat>>>)

  datatype Segments = Disabled | Enabled(mapUpdate: Option<MapCode>, data: Option<SegmentCode>)

  datatype Layout = Layout(
    profile: nat, reserved: bool, show: bool, resilient: bool, frame: Frame,
    refreshContext: bool, parallel: bool, contextIndex: nat,
    level: nat, sharpness: nat, deltas: Deltas,
    baseIdx: nat, yDc: Option<Code>, uvDc: Option<Code>, uvAc: Option<Code>,
    segments: Segments, tileOnes: nat, tileRows: nat, firstPartitionSize: nat)

  /** The driver reads no map, and no update_data bit, on these frames. */
  predicate Alone(h: Layout)
  {
    h.frame.Key? || h.frame.Intra? || h.resilient
  }

  // ----- ranges

  predicate CodeFits(o: Option<Code>, bound: nat)
  {
    o.Some? ==> o.value.magnitude < bound
  }

  predicate AreaFits(a: Area)
  {
    a.width < 65536 && a.height < 65536
  }

  predicate FrameFits(f: Frame)
  {
    && AreaFits(f.area) && (f.render.Some? ==> AreaFits(f.render.value))
    && (!f.Predicted? ==> f.colors.space < 8)
    && (!f.Key? ==> f.reset < 4 && f.refresh < 256)
    && (f.Predicted? ==>
          && |f.references| == 3 && (forall i | 0 <= i < 3 :: f.references[i].index < 8)
          && (f.found.Some? ==> f.found.value < 3) && (f.filter.Some? ==> f.filter.value < 4))
  }

  predicate DeltasFit(d: Deltas)
  {
    d.Updated? ==>
      && |d.refs| == 4 && (forall i | 0 <= i < 4 :: CodeFits(d.refs[i], 64))
      && |d.modes| == 2 && (forall i | 0 <= i < 2 :: CodeFits(d.modes[i], 64))
  }

  predicate FeatureFits(f: FeatureCode)
  {
    CodeFits(f.q, 256) && CodeFits(f.lf, 64) && (f.ref.Some? ==> f.ref.value < 4)
  }

  predicate DataFits(d: SegmentCode)
  {
    |d.features| == 8 && forall i | 0 <= i < 8 :: FeatureFits(d.features[i])
  }

  predicate ProbsFit(ps: seq<Option<nat>>, n: nat)
  {
    |ps| == n && forall i | 0 <= i < n :: ps[i].Some? ==> ps[i].value < 256
  }

  predicate MapFits(m: MapCode)
  {
    ProbsFit(m.probs, 7) && (m.temporal.Some? ==> ProbsFit(m.temporal.value, 3))
  }

  predicate SegmentsFit(s: Segments, alone: bool)
  {
    s.Enabled? ==>
      && (s.data.Some? ==> DataFits(s.data.value)) && (s.mapUpdate.Some? ==> MapFits(s.mapUpdate.value))
      && (alone ==> s.mapUpdate == None && s.data.Some?)
  }

  predicate LastFits(h: Layout, r: Range)
  {
    && h.contextIndex < 4 && h.level < 64 && h.sharpness < 8 && DeltasFit(h.deltas)
    && h.baseIdx < 256 && CodeFits(h.yDc, 16) && CodeFits(h.uvDc, 16) && CodeFits(h.uvAc, 16)
    && SegmentsFit(h.segments, Alone(h))
    && r.least + h.tileOnes <= r.most && h.tileRows <= 2 && h.firstPartitionSize < 65536
  }

  /** Every number in its field, and no frame to be shown is intra-only. */
  predicate Valid(h: Layout, r: Range)
  {
    h.profile < 4 && (h.frame.Intra? ==> !h.show) && FrameFits(h.frame) && LastFits(h, r)
  }

  // ----- the bits

  function CodeBits(o: Option<Code>, n: nat): seq<bool>
  {
    if o == None then [false] else [true] + (Digits(o.value.magnitude, n) + [o.value.negative])
  }

  function CodesBits(xs: seq<Option<Code>>, n: nat): seq<bool>
  {
    if xs == [] then [] else CodesBits(xs[..|xs| - 1], n) + CodeBits(xs[|xs| - 1], n)
  }

  function StartBits(h: Layout): seq<bool>
  {
    [true, false]
    + (([h.profile % 2 == 1, h.profile >= 2] + if h.profile == 3 then [h.reserved] else [])
       + ([false] + ([!h.frame.Key?] + ([h.show] + [h.resilient]))))
  }

  /** 49, 83, 42. */
  const SYNC: seq<bool> := [false, true, false, false, true, false, false, true,
                            true, false, false, false, false, false, true, true,
                            false, true, false, false, false, false, true, false]

  function ColorBits(profile: nat, c: Colors): seq<bool>
  {
    var odd := profile == 1 || profile == 3;
    (if profile >= 2 then [c.deep] else [])
    + (Digits(c.space, 3)
       + if c.space == 7 then if odd then [c.reserved] else []
         else [c.range] + if odd then [c.subsamplingX] + ([c.subsamplingY] + [c.reserved]) else [])
  }

  function AreaBits(a: Area): seq<bool>
  {
    Digits(a.width, 16) + Digits(a.height, 16)
  }

  function RenderBits(o: Option<Area>): seq<bool>
  {
    if o == None then [false] else [true] + AreaBits(o.value)
  }

  function FoundBits(found: Option<nat>, a: Area): seq<bool>
  {
    if found == None then [false, false, false] + AreaBits(a)
    else if found.value == 0 then [true]
    else if found.value == 1 then [false, true]
    else [false, false, true]
  }

  function ReferencesBits(rs: seq<Reference>): seq<bool>
  {
    if rs == [] then []
    else ReferencesBits(rs[..|rs| - 1]) + (Digits(rs[|rs| - 1].index, 3) + [rs[|rs| - 1].bias])
  }

  function ResetBits(resilient: bool, reset: nat): seq<bool>
  {
    if resilient then [] else Digits(reset, 2)
  }

  function IntraBits(profile: nat, f: Frame): seq<bool>
    requires f.Intra?
  {
    SYNC + ((if profile > 0 then ColorBits(profile, f.colors) else [])
            + (Digits(f.refresh, 8) + (AreaBits(f.area) + RenderBits(f.render))))
  }

  function FilterBits(filter: Option<nat>): seq<bool>
  {
    if filter == None then [true] else [false] + Digits(filter.value, 2)
  }

  function PredictedBits(f: Frame): seq<bool>
    requires f.Predicted?
  {
    Digits(f.refresh, 8)
    + (ReferencesBits(f.references)
       + ((FoundBits(f.found, f.area) + RenderBits(f.render)) + ([f.highPrecision] + FilterBits(f.filter))))
  }

  function FrameBits(h: Layout): seq<bool>
  {
    match h.frame
    case Key(colors, area, render) => SYNC + (ColorBits(h.profile, colors) + (AreaBits(area) + RenderBits(render)))
    case Intra(reset, _, _, _, _) => [true] + (ResetBits(h.resilient, reset) + IntraBits(h.profile, h.frame))
    case Predicted(reset, _, _, _, _, _, _, _) =>
      (if h.show then [] else [false]) + (ResetBits(h.resilient, reset) + PredictedBits(h.frame))
  }

  function ContextBits(h: Layout): seq<bool>
  {
    (if h.resilient then [] else [h.refreshContext] + [h.parallel]) + Digits(h.contextIndex, 2)
  }

  function LoopFilterBits(h: Layout): seq<bool>
  {
    (Digits(h.level, 6) + Digits(h.sharpness, 3))
    + if h.deltas.Off? then [false]
      else if h.deltas.Kept? then [true, false]
      else [true, true] + (CodesBits(h.deltas.refs, 6) + CodesBits(h.deltas.modes, 6))
  }

  function QuantizationBits(h: Layout): seq<bool>
  {
    Digits(h.baseIdx, 8) + (CodeBits(h.yDc, 4) + (CodeBits(h.uvDc, 4) + CodeBits(h.uvAc, 4)))
  }

  function FeatureBits(f: FeatureCode): seq<bool>
  {
    CodeBits(f.q, 8) + (CodeBits(f.lf, 6) + ((if f.ref == None then [false] else [true] + Digits(f.ref.value, 2))
                                             + [f.skip]))
  }

  function FeaturesBits(fs: seq<FeatureCode>): seq<bool>
  {
    if fs == [] then [] else FeaturesBits(fs[..|fs| - 1]) + FeatureBits(fs[|fs| - 1])
  }

  function DataBits(d: SegmentCode): seq<bool>
  {
    [d.absolute] + FeaturesBits(d.features)
  }

  function ProbsBits(ps: seq<Option<nat>>): seq<bool>
  {
    if ps == [] then []
    else
      var p := ps[|ps| - 1];
      ProbsBits(ps[..|ps| - 1]) + if p == None then [false] else [true] + Digits(p.value, 8)
  }

  function MapBits(o: Option<MapCode>): seq<bool>
  {
    if o == None then [false]
    else
      [true] + (ProbsBits(o.value.probs)
                + if o.value.temporal == None then [false] else [true] + ProbsBits(o.value.temporal.value))
  }

  function SegmentsBits(s: Segments, alone: bool): seq<bool>
  {
    if s.Disabled? then [false]
    else if alone then [true] + if s.data.Some? then DataBits(s.data.value) else []
    else [true] + (MapBits(s.mapUpdate) + if s.data.Some? then [true] + DataBits(s.data.value) else [false])
  }

  /** Ones, and a zero unless they are as many as there may be. */
  function OnesBits(ones: nat, most: nat): seq<bool>
    requires ones <= most
  {
    if most == 0 then [] else if ones == 0 then [false] else [true] + OnesBits(ones - 1, most - 1)
  }

  function RowsBits(rows: nat): seq<bool>
  {
    if rows == 0 then [false] else if rows == 1 then [true, false] else [true, true]
  }

  function LastBits(h: Layout, r: Range): seq<bool>
    requires r.least + h.tileOnes <= r.most
  {
    ContextBits(h)
    + (LoopFilterBits(h)
       + (QuantizationBits(h)
          + (SegmentsBits(h.segments, Alone(h))
             + (OnesBits(h.tileOnes, r.most - r.least) + (RowsBits(h.tileRows) + Digits(h.firstPartitionSize, 16))))))
  }

  function LayoutBits(h: Layout, r: Range): seq<bool>
    requires Valid(h, r)
  {
    StartBits(h) + (FrameBits(h) + LastBits(h, r))
  }

  // ----- what they mean

  function Meaning(c: Code): int
  {
    var m: int := c.magnitude;
    if c.negative then -m else m
  }

  function OptMeaning(o: Option<Code>): Option<int>
  {
    if o == None then None else Some(Meaning(o.value))
  }

  function ZeroOr(o: Option<Code>): int
  {
    if o == None then 0 else Meaning(o.value)
  }

  function LoopFilterRecord(d: Deltas): LoopFilter
    requires DeltasFit(d)
  {
    if d.Updated? then
      LoopFilter(true, true,
                 [OptMeaning(d.refs[0]), OptMeaning(d.refs[1]), OptMeaning(d.refs[2]), OptMeaning(d.refs[3])],
                 [OptMeaning(d.modes[0]), OptMeaning(d.modes[1])])
    else LoopFilter(d.Kept?, false, [None, None, None, None], [None, None])
  }

  function FeatureRecord(f: FeatureCode): Feature
  {
    Feature(OptMeaning(f.q), OptMeaning(f.lf), if f.ref == None then None else Some(f.ref.value), f.skip)
  }

  function SegmentationRecord(s: Segments): Option<SegmentData>
  {
    if s.Disabled? || s.data == None then None
    else
      var fs := s.data.value.features;
      Some(SegmentData(s.data.value.absolute, seq(|fs|, i requires 0 <= i < |fs| => FeatureRecord(fs[i]))))
  }

  function Record(h: Layout, r: Range): HeaderFields
    requires Valid(h, r)
  {
    HeaderFields(LoopFilterRecord(h.deltas), Quantization(h.baseIdx, ZeroOr(h.yDc), ZeroOr(h.uvDc), ZeroOr(h.uvAc)),
                 h.baseIdx == 0 && ZeroOr(h.yDc) == 0 && ZeroOr(h.uvDc) == 0 && ZeroOr(h.uvAc) == 0,
                 SegmentationRecord(h.segments),
                 r.least + h.tileOnes, h.tileRows, h.firstPartitionSize)
  }

  // ----- trees that print them

  predicate Shows(g: Syntax, t: Tree, b: seq<bool>)
  {
    Fits(g, t) && Print(g, t) == b
  }

  lemma ShowsThen(g1: Syntax, t1: Tree, b1: seq<bool>, g2: Syntax, t2: Tree, b2: seq<bool>)
    requires Shows(g1, t1, b1) && Shows(g2, t2, b2)
    ensures Shows(Then(g1, g2), Both(t1, t2), b1 + b2)
  {
  }

  lemma ShowsNothing()
    ensures Shows(Empty, Nothing, [])
  {
  }

  lemma ShowsField(n: nat, x: nat)
    requires x < Pow2(n)
    ensures Shows(Field(n), Num(x), Digits(x, n))
  {
  }

  function Bit(b: bool): nat
  {
    if b then 1 else 0
  }

  lemma OneDigit(b: bool)
    ensures Digits(Bit(b), 1) == [b] && Pow2(1) == 2
  {
    assert Digits(Bit(b) / 2, 0) == [];
  }

  lemma ShowsFlag(b: bool)
    ensures Shows(Flag(), Num(Bit(b)), [b])
  {
    OneDigit(b);
  }

  lemma ShowsSwitch(b: bool, key: nat, same: Syntax, other: Syntax, t: Tree, bits: seq<bool>)
    requires Shows(if Bit(b) == key then same else other, t, bits)
    ensures Shows(Switch(1, key, same, other), Case(Bit(b), t), [b] + bits)
  {
    OneDigit(b);
  }

  lemma ShowsSet(g: Syntax, t: Tree, b: seq<bool>)
    requires Shows(g, t, b)
    ensures Shows(Opt(g), Case(1, t), [true] + b)
  {
    ShowsSwitch(true, 1, g, Empty, t, b);
  }

  lemma ShowsUnset(g: Syntax)
    ensures Shows(Opt(g), Case(0, Nothing), [false])
  {
    ShowsNothing();
    ShowsSwitch(false, 1, g, Empty, Nothing, []);
    assert [false] + [] == [false];
  }

  lemma Widths()
    ensures Pow2(1) == 2 && Pow2(2) == 4 && Pow2(3) == 8 && Pow2(4) == 16 && Pow2(6) == 64 && Pow2(8) == 256
    ensures Pow2(16) == 65536
  {
    Pow2Width(16);
  }

  lemma ShowsConst(n: nat, x: nat, b: seq<bool>)
    requires x < Pow2(n) && Digits(x, n) == b
    ensures Shows(Const(n, x), Case(x, Nothing), b)
  {
    assert b + [] == b;
  }

  // ----- codes

  function CodeTree(o: Option<Code>): Tree
  {
    if o == None then Case(0, Nothing) else Case(1, Both(Num(o.value.magnitude), Num(Bit(o.value.negative))))
  }

  lemma CodeShows(o: Option<Code>, n: nat)
    requires CodeFits(o, Pow2(n))
    ensures Shows(Opt(Su(n)), CodeTree(o), CodeBits(o, n)) && OptSigned(CodeTree(o)) == OptMeaning(o)
    ensures DeltaOf(OptSigned(CodeTree(o))) == ZeroOr(o)
  {
    hide Shows, Opt, Pow2, Digits;
    if o == None {
      ShowsUnset(Su(n));
    } else {
      var c := o.value;
      ShowsField(n, c.magnitude);
      ShowsFlag(c.negative);
      ShowsThen(Field(n), Num(c.magnitude), Digits(c.magnitude, n), Flag(), Num(Bit(c.negative)), [c.negative]);
      ShowsSet(Su(n), Both(Num(c.magnitude), Num(Bit(c.negative))), Digits(c.magnitude, n) + [c.negative]);
    }
  }

  function CodesTree(xs: seq<Option<Code>>): Tree
  {
    if xs == [] then Nothing else Both(CodesTree(xs[..|xs| - 1]), CodeTree(xs[|xs| - 1]))
  }

  lemma {:induction false} CodesShow(xs: seq<Option<Code>>, n: nat)
    requires forall i | 0 <= i < |xs| :: CodeFits(xs[i], Pow2(n))
    ensures Shows(Rep(Opt(Su(n)), |xs|), CodesTree(xs), CodesBits(xs, n))
    ensures forall i | 0 <= i < |xs| :: SignedItems(CodesTree(xs), |xs|)[i] == OptMeaning(xs[i])
    decreases |xs|
  {
    hide Shows, Opt, Su, CodeTree, CodeBits, OptMeaning, OptSigned, CodeFits;
    if xs == [] {
      ShowsNothing();
    } else {
      var m := |xs| - 1;
      CodesShow(xs[..m], n);
      CodeShows(xs[m], n);
      ShowsThen(Rep(Opt(Su(n)), m), CodesTree(xs[..m]), CodesBits(xs[..m], n),
                Opt(Su(n)), CodeTree(xs[m]), CodeBits(xs[m], n));
    }
  }

  // ----- up to the frame's kind

  function ProfileTree(h: Layout): Tree
  {
    if h.profile % 2 == 0 then Case(0, Num(Bit(h.profile >= 2)))
    else if h.profile == 1 then Case(1, Case(0, Nothing))
    else Case(1, Case(1, Num(Bit(h.reserved))))
  }

  lemma ProfileShows(h: Layout)
    requires h.profile < 4
    ensures Shows(ProfileSyntax(), ProfileTree(h),
                  [h.profile % 2 == 1, h.profile >= 2] + if h.profile == 3 then [h.reserved] else [])
    ensures ProfileOf(ProfileTree(h)) == h.profile
  {
    hide Shows;
    var high, tail := h.profile >= 2, if h.profile == 3 then [h.reserved] else [];
    var inner := Switch(1, 1, Field(1), Empty);
    assert [h.profile % 2 == 1, high] + tail == [h.profile % 2 == 1] + ([high] + tail);
    if h.profile % 2 == 0 {
      ShowsFlag(high);
      assert [high] + [] == [high];
      ShowsSwitch(false, 1, inner, Field(1), Num(Bit(high)), [high]);
    } else {
      ShowsFlag(h.reserved);
      ShowsNothing();
      var t := if high then Num(Bit(h.reserved)) else Nothing;
      ShowsSwitch(high, 1, Field(1), Empty, t, tail);
      ShowsSwitch(true, 1, inner, Field(1), Case(Bit(high), t), [high] + tail);
    }
  }

  function StartTree(h: Layout): Tree
  {
    Both(Case(2, Nothing), Both(ProfileTree(h), Both(Case(0, Nothing),
         Both(Num(Bit(!h.frame.Key?)), Both(Num(Bit(h.show)), Num(Bit(h.resilient)))))))
  }

  function PrefixFor(h: Layout): Prefix
  {
    Prefix(h.profile, h.frame.Key?, h.show, h.resilient)
  }

  lemma StartShows(h: Layout)
    requires h.profile < 4
    ensures Shows(FirstSyntax(), StartTree(h), StartBits(h)) && PrefixOf(StartTree(h)) == PrefixFor(h)
  {
    Marker();
    OneDigit(false);
    ProfileShows(h);
    hide Shows, Opt, Pow2, Digits, ProfileSyntax, ProfileOf, ProfileTree;
    ShowsConst(2, 2, [true, false]);
    ShowsConst(1, 0, [false]);
    ShowsFlag(!h.frame.Key?);
    ShowsFlag(h.show);
    ShowsFlag(h.resilient);
    var k, s, r := Num(Bit(!h.frame.Key?)), Num(Bit(h.show)), Num(Bit(h.resilient));
    ShowsThen(Flag(), s, [h.show], Flag(), r, [h.resilient]);
    ShowsThen(Flag(), k, [!h.frame.Key?], Then(Flag(), Flag()), Both(s, r), [h.show] + [h.resilient]);
    var g3, t3, b3 := Then(Flag(), Then(Flag(), Flag())), Both(k, Both(s, r)),
                      [!h.frame.Key?] + ([h.show] + [h.resilient]);
    ShowsThen(Const(1, 0), Case(0, Nothing), [false], g3, t3, b3);
    var b1 := [h.profile % 2 == 1, h.profile >= 2] + if h.profile == 3 then [h.reserved] else [];
    ShowsThen(ProfileSyntax(), ProfileTree(h), b1, Then(Const(1, 0), g3), Both(Case(0, Nothing), t3), [false] + b3);
    ShowsThen(Const(2, 2), Case(2, Nothing), [true, false], Then(ProfileSyntax(), Then(Const(1, 0), g3)),
              Both(ProfileTree(h), Both(Case(0, Nothing), t3)), b1 + ([false] + b3));
  }

  lemma Marker()
    ensures Digits(2, 2) == [true, false] && Pow2(2) == 4 && Pow2(1) == 2
  {
  }

  // ----- the frame

  lemma SyncShows()
    ensures Shows(Const(24, SYNC_CODE), Case(SYNC_CODE, Nothing), SYNC)
  {
    SyncDigits(8);
    ShowsConst(24, SYNC_CODE, SYNC);
  }

  lemma {:induction false} DigitsOfSum(x: nat, y: nat, n: nat, k: nat)
    requires y < Pow2(k)
    ensures Digits(Shl(x, k) + y, n + k) == Digits(x, n) + Digits(y, k)
  {
    if k == 0 {
      assert Digits(x, n) + [] == Digits(x, n);
    } else {
      var z := Shl(x, k) + y;
      assert z / 2 == Shl(x, k - 1) + y / 2 && z % 2 == y % 2;
      DigitsOfSum(x, y / 2, n, k - 1);
    }
  }

  lemma ByteDigits()
    ensures Digits(0x49, 8) == [false, true, false, false, true, false, false, true]
    ensures Digits(0x83, 8) == [true, false, false, false, false, false, true, true]
    ensures Digits(0x42, 8) == [false, true, false, false, false, false, true, false]
  {
    hide Digits;
    ByteOfNibbles(4, 9);
    ByteOfNibbles(8, 3);
    ByteOfNibbles(4, 2);
  }

  function Nibble(x: nat): seq<bool>
  {
    [x / 8 % 2 == 1, x / 4 % 2 == 1, x / 2 % 2 == 1, x % 2 == 1]
  }

  lemma ByteOfNibbles(x: nat, y: nat)
    requires x < 16 && y < 16
    ensures Digits(16 * x + y, 8) == Nibble(x) + Nibble(y)
  {
    var n := 4;
    NibbleDigits(x);
    NibbleDigits(y);
    FourBits(x, n);
    hide Digits, Shl, Pow2;
    DigitsOfSum(x, y, n, n);
  }

  lemma FourBits(x: nat, n: nat)
    requires n + n == 8
    ensures Shl(x, n) == 16 * x && Pow2(n) == 16
  {
    assert Shl(x, n - 4) == x && Pow2(n - 4) == 1;
    assert Shl(x, n - 3) == 2 * x && Pow2(n - 3) == 2;
    assert Shl(x, n - 2) == 4 * x && Pow2(n - 2) == 4;
    assert Shl(x, n - 1) == 8 * x && Pow2(n - 1) == 8;
  }

  lemma NibbleDigits(x: nat)
    ensures Digits(x, 4) == Nibble(x)
  {
    hide Digits;
    DigitsStep(x, 3);
    DigitsStep(x / 2, 2);
    DigitsStep(x / 4, 1);
    DigitsStep(x / 8, 0);
  }

  lemma DigitsStep(x: nat, n: nat)
    ensures Digits(x, n + 1) == Digits(x / 2, n) + [x % 2 == 1]
  {
  }

  lemma SyncDigits(n: nat)
    requires n + n == 16
    ensures Digits(SYNC_CODE, n + n + n) == SYNC && SYNC_CODE < Pow2(n + n + n)
  {
    hide Digits, Shl, Pow2;
    Pow2Eight(0);
    Pow2Eight(n);
    Pow2Eight(n + n);
    assert Pow2(0) == 1 by { NoPower(); }
    ByteDigits();
    ShlEight(0x49, 0);
    ShlEight(0x4983, 0);
    assert Shl(0x49, 0) == 0x49 && Shl(0x4983, 0) == 0x4983 by { NoShift(0x49); NoShift(0x4983); }
    DigitsOfSum(0x49, 0x83, n, n);
    DigitsOfSum(0x4983, 0x42, n + n, n);
    assert n == 8;
  }

  lemma NoShift(x: nat)
    ensures Shl(x, 0) == x
  {
  }

  lemma NoPower()
    ensures Pow2(0) == 1
  {
  }

  function ColorTree(profile: nat, c: Colors): Tree
  {
    var odd := profile == 1 || profile == 3;
    Both(if profile >= 2 then Num(Bit(c.deep)) else Nothing,
         Case(c.space,
              if c.space == 7 then if odd then Num(Bit(c.reserved)) else Nothing
              else Both(Num(Bit(c.range)),
                        if odd then Both(Num(Bit(c.subsamplingX)), Both(Num(Bit(c.subsamplingY)), Num(Bit(c.reserved))))
                        else Nothing)))
  }

  lemma ColorShows(profile: nat, c: Colors)
    requires c.space < 8
    ensures Shows(Vp9Header.Color(profile), ColorTree(profile, c), ColorBits(profile, c))
  {
    hide Shows, Opt, Pow2, Digits;
    var odd := profile == 1 || profile == 3;
    ShowsNothing();
    ShowsFlag(c.deep);
    ShowsFlag(c.reserved);
    ShowsFlag(c.range);
    ShowsFlag(c.subsamplingX);
    ShowsFlag(c.subsamplingY);
    var x, y, z := Num(Bit(c.subsamplingX)), Num(Bit(c.subsamplingY)), Num(Bit(c.reserved));
    ShowsThen(Flag(), y, [c.subsamplingY], Flag(), z, [c.reserved]);
    ShowsThen(Flag(), x, [c.subsamplingX], Then(Flag(), Flag()), Both(y, z), [c.subsamplingY] + [c.reserved]);
    var gs := if odd then Then(Flag(), Then(Flag(), Flag())) else Empty;
    var ts := if odd then Both(x, Both(y, z)) else Nothing;
    var bs := if odd then [c.subsamplingX] + ([c.subsamplingY] + [c.reserved]) else [];
    ShowsThen(Flag(), Num(Bit(c.range)), [c.range], gs, ts, bs);
    var same, other := if odd then Flag() else Empty, Then(Flag(), gs);
    var t := if c.space == 7 then if odd then z else Nothing else Both(Num(Bit(c.range)), ts);
    var b := if c.space == 7 then if odd then [c.reserved] else [] else [c.range] + bs;
    SpaceShows(c.space, same, other, t, b);
    ShowsThen(if profile >= 2 then Flag() else Empty, if profile >= 2 then Num(Bit(c.deep)) else Nothing,
              if profile >= 2 then [c.deep] else [],
              Switch(3, 7, same, other), Case(c.space, t), Digits(c.space, 3) + b);
  }

  lemma SpaceShows(space: nat, same: Syntax, other: Syntax, t: Tree, b: seq<bool>)
    requires space < 8 && Shows(if space == 7 then same else other, t, b)
    ensures Shows(Switch(3, 7, same, other), Case(space, t), Digits(space, 3) + b)
  {
    assert Pow2(3) == 8;
  }

  function AreaTree(a: Area): Tree
  {
    Both(Num(a.width), Num(a.height))
  }

  lemma AreaShows(a: Area)
    requires AreaFits(a)
    ensures Shows(Vp9Header.Size(), AreaTree(a), AreaBits(a))
  {
    hide Shows, Pow2, Digits;
    Widths();
    ShowsField(16, a.width);
    ShowsField(16, a.height);
    ShowsThen(Field(16), Num(a.width), Digits(a.width, 16), Field(16), Num(a.height), Digits(a.height, 16));
  }

  function RenderTree(o: Option<Area>): Tree
  {
    if o == None then Case(0, Nothing) else Case(1, AreaTree(o.value))
  }

  lemma RenderShows(o: Option<Area>)
    requires o.Some? ==> AreaFits(o.value)
    ensures Shows(Opt(Vp9Header.Size()), RenderTree(o), RenderBits(o))
  {
    hide Shows, AreaTree, AreaBits, Opt;
    if o == None {
      ShowsUnset(Vp9Header.Size());
    } else {
      AreaShows(o.value);
      ShowsSet(Vp9Header.Size(), AreaTree(o.value), AreaBits(o.value));
    }
  }

  function FoundTree(found: Option<nat>, a: Area): Tree
  {
    if found == None then Case(0, Case(0, Case(0, AreaTree(a))))
    else if found.value == 0 then Case(1, Nothing)
    else if found.value == 1 then Case(0, Case(1, Nothing))
    else Case(0, Case(0, Case(1, Nothing)))
  }

  lemma FoundShows(found: Option<nat>, a: Area)
    requires AreaFits(a) && (found.Some? ==> found.value < 3)
    ensures Shows(FoundRef(3), FoundTree(found, a), FoundBits(found, a))
  {
    hide Shows, AreaTree, AreaBits;
    AreaShows(a);
    ShowsNothing();
    var one, two, three := found == Some(0), found == Some(1), found == Some(2);
    var t := if found == None then AreaTree(a) else Nothing;
    var b := if found == None then AreaBits(a) else [];
    assert FoundRef(0) == Vp9Header.Size();
    assert FoundRef(1) == Switch(1, 1, Empty, FoundRef(0));
    assert FoundRef(2) == Switch(1, 1, Empty, FoundRef(1));
    assert FoundRef(3) == Switch(1, 1, Empty, FoundRef(2));
    if found == None || three {
      ShowsSwitch(three, 1, Empty, FoundRef(0), t, b);
      ShowsSwitch(false, 1, Empty, FoundRef(1), Case(Bit(three), t), [three] + b);
      ShowsSwitch(false, 1, Empty, FoundRef(2), Case(0, Case(Bit(three), t)), [false] + ([three] + b));
      assert [false] + ([false] + ([three] + b)) == [false, false, three] + b;
      assert three ==> [false, false, true] + [] == [false, false, true];
    } else if two {
      ShowsSwitch(true, 1, Empty, FoundRef(1), Nothing, []);
      ShowsSwitch(false, 1, Empty, FoundRef(2), Case(1, Nothing), [true] + []);
      assert [false] + ([true] + []) == [false, true];
    } else {
      ShowsSwitch(true, 1, Empty, FoundRef(2), Nothing, []);
      assert [true] + [] == [true];
    }
  }

  function ReferencesTree(rs: seq<Reference>): Tree
  {
    if rs == [] then Nothing
    else Both(ReferencesTree(rs[..|rs| - 1]), Both(Num(rs[|rs| - 1].index), Num(Bit(rs[|rs| - 1].bias))))
  }

  lemma {:induction false} ReferencesShow(rs: seq<Reference>)
    requires forall i | 0 <= i < |rs| :: rs[i].index < 8
    ensures Shows(Rep(Then(Field(3), Flag()), |rs|), ReferencesTree(rs), ReferencesBits(rs))
    decreases |rs|
  {
    hide Shows, Pow2, Digits;
    if rs == [] {
      ShowsNothing();
    } else {
      var n := |rs| - 1;
      var x := rs[n];
      ReferencesShow(rs[..n]);
      Widths();
      ShowsField(3, x.index);
      ShowsFlag(x.bias);
      ShowsThen(Field(3), Num(x.index), Digits(x.index, 3), Flag(), Num(Bit(x.bias)), [x.bias]);
      ShowsThen(Rep(Then(Field(3), Flag()), n), ReferencesTree(rs[..n]), ReferencesBits(rs[..n]),
                Then(Field(3), Flag()), Both(Num(x.index), Num(Bit(x.bias))), Digits(x.index, 3) + [x.bias]);
    }
  }

  function ResetTree(resilient: bool, reset: nat): Tree
  {
    if resilient then Nothing else Num(reset)
  }

  lemma ResetShows(resilient: bool, reset: nat)
    requires reset < 4
    ensures Shows(ResetContext(resilient), ResetTree(resilient, reset), ResetBits(resilient, reset))
  {
    hide Shows, Pow2, Digits;
    Widths();
    ShowsNothing();
    ShowsField(2, reset);
  }

  function KeyTree(profile: nat, f: Frame): Tree
    requires f.Key?
  {
    Both(Case(SYNC_CODE, Nothing), Both(ColorTree(profile, f.colors), Both(AreaTree(f.area), RenderTree(f.render))))
  }

  lemma KeyShows(h: Layout)
    requires h.frame.Key? && FrameFits(h.frame)
    ensures Shows(KeyFrame(h.profile), KeyTree(h.profile, h.frame), FrameBits(h))
  {
    hide Shows, Vp9Header.Color, ColorTree, ColorBits, Vp9Header.Size, AreaTree, AreaBits, RenderTree, RenderBits;
    hide Const, Opt;
    var f := h.frame;
    SyncShows();
    ColorShows(h.profile, f.colors);
    AreaShows(f.area);
    RenderShows(f.render);
    ShowsThen(Vp9Header.Size(), AreaTree(f.area), AreaBits(f.area),
              Opt(Vp9Header.Size()), RenderTree(f.render), RenderBits(f.render));
    ShowsThen(Vp9Header.Color(h.profile), ColorTree(h.profile, f.colors), ColorBits(h.profile, f.colors),
              FrameSize(), Both(AreaTree(f.area), RenderTree(f.render)), AreaBits(f.area) + RenderBits(f.render));
    ShowsThen(Const(24, SYNC_CODE), Case(SYNC_CODE, Nothing), SYNC,
              Then(Vp9Header.Color(h.profile), FrameSize()),
              Both(ColorTree(h.profile, f.colors), Both(AreaTree(f.area), RenderTree(f.render))),
              ColorBits(h.profile, f.colors) + (AreaBits(f.area) + RenderBits(f.render)));
  }

  function IntraTree(profile: nat, f: Frame): Tree
    requires f.Intra?
  {
    Both(Case(SYNC_CODE, Nothing),
         Both(if profile > 0 then ColorTree(profile, f.colors) else Nothing,
              Both(Num(f.refresh), Both(AreaTree(f.area), RenderTree(f.render)))))
  }

  lemma IntraShows(profile: nat, f: Frame)
    requires f.Intra? && FrameFits(f)
    ensures Shows(IntraOnly(profile), IntraTree(profile, f), IntraBits(profile, f))
  {
    hide Shows, Vp9Header.Color, ColorTree, ColorBits, Vp9Header.Size, AreaTree, AreaBits, RenderTree, RenderBits;
    hide Const, Opt, Pow2, Digits;
    SyncShows();
    ColorShows(profile, f.colors);
    ShowsNothing();
    AreaShows(f.area);
    RenderShows(f.render);
    Widths();
    ShowsField(8, f.refresh);
    ShowsThen(Vp9Header.Size(), AreaTree(f.area), AreaBits(f.area),
              Opt(Vp9Header.Size()), RenderTree(f.render), RenderBits(f.render));
    var t, b := Both(AreaTree(f.area), RenderTree(f.render)), AreaBits(f.area) + RenderBits(f.render);
    ShowsThen(Field(8), Num(f.refresh), Digits(f.refresh, 8), FrameSize(), t, b);
    var g, u, d := if profile > 0 then Vp9Header.Color(profile) else Empty,
                   if profile > 0 then ColorTree(profile, f.colors) else Nothing,
                   if profile > 0 then ColorBits(profile, f.colors) else [];
    ShowsThen(g, u, d, Then(Field(8), FrameSize()), Both(Num(f.refresh), t), Digits(f.refresh, 8) + b);
    ShowsThen(Const(24, SYNC_CODE), Case(SYNC_CODE, Nothing), SYNC,
              Then(g, Then(Field(8), FrameSize())), Both(u, Both(Num(f.refresh), t)), d + (Digits(f.refresh, 8) + b));
  }

  function FilterTree(filter: Option<nat>): Tree
  {
    if filter == None then Case(1, Nothing) else Case(0, Num(filter.value))
  }

  lemma FilterShows(filter: Option<nat>)
    requires filter.Some? ==> filter.value < 4
    ensures Shows(Switch(1, 0, Field(2), Empty), FilterTree(filter), FilterBits(filter))
  {
    hide Shows, Pow2, Digits;
    if filter == None {
      ShowsNothing();
      ShowsSwitch(true, 0, Field(2), Empty, Nothing, []);
      assert [true] + [] == [true];
    } else {
      Widths();
      ShowsField(2, filter.value);
      ShowsSwitch(false, 0, Field(2), Empty, Num(filter.value), Digits(filter.value, 2));
    }
  }

  function PredictedTree(f: Frame): Tree
    requires f.Predicted?
  {
    Both(Num(f.refresh), Both(ReferencesTree(f.references),
         Both(Both(FoundTree(f.found, f.area), RenderTree(f.render)),
              Both(Num(Bit(f.highPrecision)), FilterTree(f.filter)))))
  }

  lemma PredictedShows(f: Frame)
    requires f.Predicted? && FrameFits(f)
    ensures Shows(Inter(), PredictedTree(f), PredictedBits(f))
  {
    hide Shows, Vp9Header.Size, RenderTree, RenderBits, FoundRef, FoundTree, FoundBits, Opt, Pow2, Digits;
    hide ReferencesTree, ReferencesBits, Rep, FilterTree, FilterBits;
    Widths();
    ShowsField(8, f.refresh);
    ReferencesShow(f.references);
    FoundShows(f.found, f.area);
    RenderShows(f.render);
    ShowsFlag(f.highPrecision);
    FilterShows(f.filter);
    var gs := Switch(1, 0, Field(2), Empty);
    ShowsThen(Flag(), Num(Bit(f.highPrecision)), [f.highPrecision], gs, FilterTree(f.filter), FilterBits(f.filter));
    var g4, t4, b4 := Then(Flag(), gs), Both(Num(Bit(f.highPrecision)), FilterTree(f.filter)),
                      [f.highPrecision] + FilterBits(f.filter);
    ShowsThen(FoundRef(3), FoundTree(f.found, f.area), FoundBits(f.found, f.area),
              Opt(Vp9Header.Size()), RenderTree(f.render), RenderBits(f.render));
    var t3, b3 := Both(FoundTree(f.found, f.area), RenderTree(f.render)),
                  FoundBits(f.found, f.area) + RenderBits(f.render);
    ShowsThen(FrameSizeWithRefs(), t3, b3, g4, t4, b4);
    var g2 := Rep(Then(Field(3), Flag()), 3);
    ShowsThen(g2, ReferencesTree(f.references), ReferencesBits(f.references),
              Then(FrameSizeWithRefs(), g4), Both(t3, t4), b3 + b4);
    ShowsThen(Field(8), Num(f.refresh), Digits(f.refresh, 8), Then(g2, Then(FrameSizeWithRefs(), g4)),
              Both(ReferencesTree(f.references), Both(t3, t4)), ReferencesBits(f.references) + (b3 + b4));
  }

  function MiddleTree(h: Layout): Tree
  {
    match h.frame
    case Key(_, _, _) => KeyTree(h.profile, h.frame)
    case Intra(reset, _, _, _, _) =>
      Case(1, Both(ResetTree(h.resilient, reset), IntraTree(h.profile, h.frame)))
    case Predicted(reset, _, _, _, _, _, _, _) =>
      var t := Both(ResetTree(h.resilient, reset), PredictedTree(h.frame));
      if h.show then t else Case(0, t)
  }

  lemma MiddleShows(h: Layout)
    requires FrameFits(h.frame) && (h.frame.Intra? ==> !h.show)
    ensures Shows(MiddleSyntax(PrefixFor(h)), MiddleTree(h), FrameBits(h))
    ensures IntraOnlyOf(PrefixFor(h), MiddleTree(h)) <==> h.frame.Intra?
  {
    hide Shows, KeyFrame, IntraOnly, Inter, KeyTree, IntraTree, PredictedTree, ResetTree, ResetBits, ResetContext;
    hide RenderBits, AreaBits, ColorBits, FoundBits, ReferencesBits, Digits;
    var f, resilient := h.frame, h.resilient;
    var gi, gp := Then(ResetContext(resilient), IntraOnly(h.profile)), Then(ResetContext(resilient), Inter());
    match f
    case Key(_, _, _) => KeyShows(h);
    case Intra(reset, _, _, _, _) =>
      ResetShows(resilient, reset);
      IntraShows(h.profile, f);
      ShowsThen(ResetContext(resilient), ResetTree(resilient, reset), ResetBits(resilient, reset),
                IntraOnly(h.profile), IntraTree(h.profile, f), IntraBits(h.profile, f));
      ShowsSwitch(true, 1, gi, gp, Both(ResetTree(resilient, reset), IntraTree(h.profile, f)),
                  ResetBits(resilient, reset) + IntraBits(h.profile, f));
    case Predicted(reset, _, _, _, _, _, _, _) =>
      ResetShows(resilient, reset);
      PredictedShows(f);
      var t, b := Both(ResetTree(resilient, reset), PredictedTree(f)), ResetBits(resilient, reset) + PredictedBits(f);
      ShowsThen(ResetContext(resilient), ResetTree(resilient, reset), ResetBits(resilient, reset),
                Inter(), PredictedTree(f), PredictedBits(f));
      ShowsSwitch(false, 1, gi, gp, t, b);
      assert [] + b == b;
  }

  // ----- the rest

  lemma ContextShows(h: Layout)
    requires h.contextIndex < 4
    ensures Shows(Context(h.resilient), ContextTree(h), ContextBits(h))
  {
    hide Shows, Pow2, Digits;
    Widths();
    ShowsNothing();
    ShowsFlag(h.refreshContext);
    ShowsFlag(h.parallel);
    ShowsField(2, h.contextIndex);
    var x, y := Num(Bit(h.refreshContext)), Num(Bit(h.parallel));
    ShowsThen(Flag(), x, [h.refreshContext], Flag(), y, [h.parallel]);
    ShowsThen(if h.resilient then Empty else Then(Flag(), Flag()), if h.resilient then Nothing else Both(x, y),
              if h.resilient then [] else [h.refreshContext] + [h.parallel],
              Field(2), Num(h.contextIndex), Digits(h.contextIndex, 2));
  }

  function ContextTree(h: Layout): Tree
  {
    Both(if h.resilient then Nothing else Both(Num(Bit(h.refreshContext)), Num(Bit(h.parallel))), Num(h.contextIndex))
  }

  function DeltasTree(d: Deltas): Tree
  {
    if d.Off? then Case(0, Nothing)
    else if d.Kept? then Case(1, Case(0, Nothing))
    else Case(1, Case(1, Both(CodesTree(d.refs), CodesTree(d.modes))))
  }

  lemma DeltasShow(d: Deltas)
    requires DeltasFit(d)
    ensures var g := Then(Rep(Opt(Su(6)), 4), Rep(Opt(Su(6)), 2));
      Shows(Opt(Opt(g)), DeltasTree(d),
            if d.Off? then [false] else if d.Kept? then [true, false]
            else [true, true] + (CodesBits(d.refs, 6) + CodesBits(d.modes, 6)))
    ensures forall x :: LoopFilterOf(Both(x, DeltasTree(d))) == LoopFilterRecord(d)
  {
    hide Shows, Opt, Su, Rep, Pow2, Digits, CodesTree, CodesBits, SignedItems, OptMeaning;
    var g := Then(Rep(Opt(Su(6)), 4), Rep(Opt(Su(6)), 2));
    if d.Off? {
      ShowsUnset(Opt(g));
    } else if d.Kept? {
      ShowsUnset(g);
      ShowsSet(Opt(g), Case(0, Nothing), [false]);
      assert [true] + [false] == [true, false];
    } else {
      Widths();
      CodesShow(d.refs, 6);
      CodesShow(d.modes, 6);
      var t, b := Both(CodesTree(d.refs), CodesTree(d.modes)), CodesBits(d.refs, 6) + CodesBits(d.modes, 6);
      ShowsThen(Rep(Opt(Su(6)), 4), CodesTree(d.refs), CodesBits(d.refs, 6),
                Rep(Opt(Su(6)), 2), CodesTree(d.modes), CodesBits(d.modes, 6));
      ShowsSet(g, t, b);
      ShowsSet(Opt(g), Case(1, t), [true] + b);
      assert [true] + ([true] + b) == [true, true] + b;
    }
  }

  function LoopFilterTree(h: Layout): Tree
  {
    Both(Both(Num(h.level), Num(h.sharpness)), DeltasTree(h.deltas))
  }

  lemma LoopFilterShows(h: Layout)
    requires h.level < 64 && h.sharpness < 8 && DeltasFit(h.deltas)
    ensures Shows(LoopFilterSyntax(), LoopFilterTree(h), LoopFilterBits(h))
    ensures LoopFilterOf(LoopFilterTree(h)) == LoopFilterRecord(h.deltas)
  {
    hide Shows, Opt, Su, Rep, Pow2, Digits, DeltasTree, CodesBits, LoopFilterRecord, LoopFilterOf;
    Widths();
    ShowsField(6, h.level);
    ShowsField(3, h.sharpness);
    DeltasShow(h.deltas);
    ShowsThen(Field(6), Num(h.level), Digits(h.level, 6), Field(3), Num(h.sharpness), Digits(h.sharpness, 3));
    var d := h.deltas;
    ShowsThen(Then(Field(6), Field(3)), Both(Num(h.level), Num(h.sharpness)),
              Digits(h.level, 6) + Digits(h.sharpness, 3),
              Opt(Opt(Then(Rep(Opt(Su(6)), 4), Rep(Opt(Su(6)), 2)))), DeltasTree(d),
              if d.Off? then [false] else if d.Kept? then [true, false]
              else [true, true] + (CodesBits(d.refs, 6) + CodesBits(d.modes, 6)));
  }

  function QuantizationTree(h: Layout): Tree
  {
    Both(Num(h.baseIdx), Both(CodeTree(h.yDc), Both(CodeTree(h.uvDc), CodeTree(h.uvAc))))
  }

  lemma QuantizationShows(h: Layout)
    requires h.baseIdx < 256 && CodeFits(h.yDc, 16) && CodeFits(h.uvDc, 16) && CodeFits(h.uvAc, 16)
    ensures Shows(QuantizationSyntax(), QuantizationTree(h), QuantizationBits(h))
    ensures QuantizationOf(QuantizationTree(h))
      == Quantization(h.baseIdx, ZeroOr(h.yDc), ZeroOr(h.uvDc), ZeroOr(h.uvAc))
  {
    hide Shows, Opt, Su, Pow2, Digits, CodeTree, CodeBits, OptSigned, DeltaOf, ZeroOr;
    Widths();
    ShowsField(8, h.baseIdx);
    CodeShows(h.yDc, 4);
    CodeShows(h.uvDc, 4);
    CodeShows(h.uvAc, 4);
    var d := Opt(Su(4));
    ShowsThen(d, CodeTree(h.uvDc), CodeBits(h.uvDc, 4), d, CodeTree(h.uvAc), CodeBits(h.uvAc, 4));
    ShowsThen(d, CodeTree(h.yDc), CodeBits(h.yDc, 4), Then(d, d), Both(CodeTree(h.uvDc), CodeTree(h.uvAc)),
              CodeBits(h.uvDc, 4) + CodeBits(h.uvAc, 4));
    ShowsThen(Field(8), Num(h.baseIdx), Digits(h.baseIdx, 8), Then(d, Then(d, d)),
              Both(CodeTree(h.yDc), Both(CodeTree(h.uvDc), CodeTree(h.uvAc))),
              CodeBits(h.yDc, 4) + (CodeBits(h.uvDc, 4) + CodeBits(h.uvAc, 4)));
  }

  function FeatureTree(f: FeatureCode): Tree
  {
    Both(CodeTree(f.q), Both(CodeTree(f.lf),
         Both(if f.ref == None then Case(0, Nothing) else Case(1, Num(f.ref.value)), Num(Bit(f.skip)))))
  }

  lemma FeatureShows(f: FeatureCode)
    requires FeatureFits(f)
    ensures Shows(FeatureSyntax(), FeatureTree(f), FeatureBits(f)) && FeatureOf(FeatureTree(f)) == FeatureRecord(f)
  {
    hide Shows, Opt, Su, Pow2, Digits, CodeTree, CodeBits, OptSigned, OptMeaning;
    Widths();
    CodeShows(f.q, 8);
    CodeShows(f.lf, 6);
    ShowsFlag(f.skip);
    var t := if f.ref == None then Case(0, Nothing) else Case(1, Num(f.ref.value));
    var b := if f.ref == None then [false] else [true] + Digits(f.ref.value, 2);
    if f.ref == None {
      ShowsUnset(Field(2));
    } else {
      ShowsField(2, f.ref.value);
      ShowsSet(Field(2), Num(f.ref.value), Digits(f.ref.value, 2));
    }
    ShowsThen(Opt(Field(2)), t, b, Flag(), Num(Bit(f.skip)), [f.skip]);
    var g3, t3, b3 := Then(Opt(Field(2)), Flag()), Both(t, Num(Bit(f.skip))), b + [f.skip];
    ShowsThen(Opt(Su(6)), CodeTree(f.lf), CodeBits(f.lf, 6), g3, t3, b3);
    ShowsThen(Opt(Su(8)), CodeTree(f.q), CodeBits(f.q, 8), Then(Opt(Su(6)), g3), Both(CodeTree(f.lf), t3),
              CodeBits(f.lf, 6) + b3);
  }

  function FeaturesTree(fs: seq<FeatureCode>): Tree
  {
    if fs == [] then Nothing else Both(FeaturesTree(fs[..|fs| - 1]), FeatureTree(fs[|fs| - 1]))
  }

  lemma {:induction false} FeaturesShow(fs: seq<FeatureCode>)
    requires forall i | 0 <= i < |fs| :: FeatureFits(fs[i])
    ensures Shows(Rep(FeatureSyntax(), |fs|), FeaturesTree(fs), FeaturesBits(fs))
    ensures forall i | 0 <= i < |fs| :: FeatureItems(FeaturesTree(fs), |fs|)[i] == FeatureRecord(fs[i])
    decreases |fs|
  {
    hide Shows, FeatureSyntax, FeatureTree, FeatureBits, FeatureOf, FeatureRecord, FeatureFits;
    if fs == [] {
      ShowsNothing();
    } else {
      var n := |fs| - 1;
      FeaturesShow(fs[..n]);
      FeatureShows(fs[n]);
      ShowsThen(Rep(FeatureSyntax(), n), FeaturesTree(fs[..n]), FeaturesBits(fs[..n]),
                FeatureSyntax(), FeatureTree(fs[n]), FeatureBits(fs[n]));
    }
  }

  function DataTree(d: SegmentCode): Tree
  {
    Both(Num(Bit(d.absolute)), FeaturesTree(d.features))
  }

  lemma DataShows(d: SegmentCode)
    requires DataFits(d)
    ensures Shows(SegmentDataSyntax(), DataTree(d), DataBits(d))
    ensures SegmentDataOf(DataTree(d))
      == SegmentData(d.absolute, seq(8, i requires 0 <= i < 8 => FeatureRecord(d.features[i])))
  {
    hide Shows, FeatureSyntax, FeaturesTree, FeaturesBits, FeatureFits, FeatureRecord, FeatureItems, Rep;
    ShowsFlag(d.absolute);
    FeaturesShow(d.features);
    ShowsThen(Flag(), Num(Bit(d.absolute)), [d.absolute],
              Rep(FeatureSyntax(), 8), FeaturesTree(d.features), FeaturesBits(d.features));
    assert FeatureItems(FeaturesTree(d.features), 8)
        == seq(8, i requires 0 <= i < 8 => FeatureRecord(d.features[i]));
  }

  function ProbsTree(ps: seq<Option<nat>>): Tree
  {
    if ps == [] then Nothing
    else
      var p := ps[|ps| - 1];
      Both(ProbsTree(ps[..|ps| - 1]), if p == None then Case(0, Nothing) else Case(1, Num(p.value)))
  }

  lemma {:induction false} ProbsShow(ps: seq<Option<nat>>)
    requires ProbsFit(ps, |ps|)
    ensures Shows(Rep(Opt(Field(8)), |ps|), ProbsTree(ps), ProbsBits(ps))
    decreases |ps|
  {
    hide Shows, Opt, Pow2, Digits;
    if ps == [] {
      ShowsNothing();
    } else {
      var n := |ps| - 1;
      ProbsShow(ps[..n]);
      var t := if ps[n] == None then Case(0, Nothing) else Case(1, Num(ps[n].value));
      var b := if ps[n] == None then [false] else [true] + Digits(ps[n].value, 8);
      if ps[n] == None {
        ShowsUnset(Field(8));
      } else {
        Widths();
        ShowsField(8, ps[n].value);
        ShowsSet(Field(8), Num(ps[n].value), Digits(ps[n].value, 8));
      }
      ShowsThen(Rep(Opt(Field(8)), n), ProbsTree(ps[..n]), ProbsBits(ps[..n]), Opt(Field(8)), t, b);
    }
  }

  function MapTree(o: Option<MapCode>): Tree
  {
    if o == None then Case(0, Nothing)
    else
      var x := o.value.temporal;
      Case(1, Both(ProbsTree(o.value.probs), if x == None then Case(0, Nothing) else Case(1, ProbsTree(x.value))))
  }

  lemma MapShows(o: Option<MapCode>)
    requires o.Some? ==> MapFits(o.value)
    ensures Shows(SegmentMapSyntax(), MapTree(o), MapBits(o))
  {
    hide Shows, Opt, Rep, ProbsTree, ProbsBits;
    var g2 := Rep(Opt(Field(8)), 3);
    var g := Then(Rep(Opt(Field(8)), 7), Opt(g2));
    if o == None {
      ShowsUnset(g);
    } else {
      ProbsShow(o.value.probs);
      var x := o.value.temporal;
      var t := if x == None then Case(0, Nothing) else Case(1, ProbsTree(x.value));
      var b := if x == None then [false] else [true] + ProbsBits(x.value);
      if x == None {
        ShowsUnset(g2);
      } else {
        ProbsShow(x.value);
        ShowsSet(g2, ProbsTree(x.value), ProbsBits(x.value));
      }
      ShowsThen(Rep(Opt(Field(8)), 7), ProbsTree(o.value.probs), ProbsBits(o.value.probs), Opt(g2), t, b);
      ShowsSet(g, Both(ProbsTree(o.value.probs), t), ProbsBits(o.value.probs) + b);
    }
  }

  function SegmentsTree(s: Segments, alone: bool): Tree
  {
    if s.Disabled? then Case(0, Nothing)
    else
      var t := if s.data == None then Nothing else DataTree(s.data.value);
      if alone then Case(1, t)
      else Case(1, Both(MapTree(s.mapUpdate), if s.data == None then Case(0, Nothing) else Case(1, t)))
  }

  lemma SegmentsShow(s: Segments, alone: bool)
    requires SegmentsFit(s, alone)
    ensures Shows(SegmentationSyntax(alone), SegmentsTree(s, alone), SegmentsBits(s, alone))
    ensures SegmentationOf(alone, SegmentsTree(s, alone)) == SegmentationRecord(s)
  {
    hide Shows, Opt, SegmentDataSyntax, DataTree, DataBits, SegmentMapSyntax, MapTree, MapBits, SegmentDataOf;
    hide FeatureRecord, FeatureFits, MapFits;
    var gd := SegmentDataSyntax();
    var g := if alone then gd else Then(SegmentMapSyntax(), Opt(gd));
    if s.Disabled? {
      ShowsUnset(g);
    } else {
      if s.data.Some? {
        DataShows(s.data.value);
        ShowsSet(gd, DataTree(s.data.value), DataBits(s.data.value));
      } else {
        ShowsUnset(gd);
      }
      if alone {
        ShowsSet(g, DataTree(s.data.value), DataBits(s.data.value));
      } else {
        MapShows(s.mapUpdate);
        var t := if s.data == None then Case(0, Nothing) else Case(1, DataTree(s.data.value));
        var b := if s.data == None then [false] else [true] + DataBits(s.data.value);
        ShowsThen(SegmentMapSyntax(), MapTree(s.mapUpdate), MapBits(s.mapUpdate), Opt(gd), t, b);
        ShowsSet(g, Both(MapTree(s.mapUpdate), t), MapBits(s.mapUpdate) + b);
      }
    }
  }

  function OnesTree(ones: nat, most: nat): Tree
    requires ones <= most
  {
    if most == 0 then Nothing else if ones == 0 then Case(0, Nothing) else Case(1, OnesTree(ones - 1, most - 1))
  }

  lemma {:induction false} OnesShow(ones: nat, most: nat)
    requires ones <= most
    ensures Shows(Increments(most), OnesTree(ones, most), OnesBits(ones, most)) && Count(OnesTree(ones, most)) == ones
  {
    hide Shows, Opt;
    if most == 0 {
      ShowsNothing();
    } else if ones == 0 {
      ShowsUnset(Increments(most - 1));
    } else {
      OnesShow(ones - 1, most - 1);
      ShowsSet(Increments(most - 1), OnesTree(ones - 1, most - 1), OnesBits(ones - 1, most - 1));
    }
  }

  function RowsTree(rows: nat): Tree
  {
    if rows == 0 then Case(0, Nothing) else Case(1, Num(Bit(rows == 2)))
  }

  lemma RowsShow(rows: nat)
    requires rows <= 2
    ensures Shows(Opt(Flag()), RowsTree(rows), RowsBits(rows))
    ensures Value(RowsTree(rows)) + Value(Chosen(RowsTree(rows))) == rows
  {
    hide Shows, Opt;
    if rows == 0 {
      ShowsUnset(Flag());
    } else {
      ShowsFlag(rows == 2);
      ShowsSet(Flag(), Num(Bit(rows == 2)), [rows == 2]);
      assert [true] + [rows == 2] == [true, rows == 2];
    }
  }

  function LastTree(h: Layout, r: Range): Tree
    requires r.least + h.tileOnes <= r.most
  {
    Both(ContextTree(h), Both(LoopFilterTree(h), Both(QuantizationTree(h), Both(SegmentsTree(h.segments, Alone(h)),
         Both(OnesTree(h.tileOnes, r.most - r.least), Both(RowsTree(h.tileRows), Num(h.firstPartitionSize)))))))
  }

  lemma LastShows(h: Layout, r: Range)
    requires LastFits(h, r)
    ensures Shows(LastSyntax(Alone(h), h.resilient, r.most - r.least), LastTree(h, r), LastBits(h, r))
  {
    hide Shows, Context, ContextTree, ContextBits, LoopFilterSyntax, LoopFilterTree, LoopFilterBits;
    hide QuantizationSyntax, QuantizationTree, QuantizationBits, SegmentationSyntax, SegmentsTree, SegmentsBits;
    hide Increments, OnesTree, OnesBits, Opt, RowsTree, RowsBits, Digits, Pow2;
    ContextShows(h);
    LoopFilterShows(h);
    QuantizationShows(h);
    SegmentsShow(h.segments, Alone(h));
    var most := r.most - r.least;
    OnesShow(h.tileOnes, most);
    RowsShow(h.tileRows);
    Widths();
    var size := h.firstPartitionSize;
    ShowsField(16, size);
    ShowsThen(Opt(Flag()), RowsTree(h.tileRows), RowsBits(h.tileRows), Field(16), Num(size), Digits(size, 16));
    var g5, t5, b5 := Then(Opt(Flag()), Field(16)), Both(RowsTree(h.tileRows), Num(size)),
                      RowsBits(h.tileRows) + Digits(size, 16);
    ShowsThen(Increments(most), OnesTree(h.tileOnes, most), OnesBits(h.tileOnes, most), g5, t5, b5);
    var g4, t4, b4 := Then(Increments(most), g5), Both(OnesTree(h.tileOnes, most), t5),
                      OnesBits(h.tileOnes, most) + b5;
    var gs, ts, bs := SegmentationSyntax(Alone(h)), SegmentsTree(h.segments, Alone(h)),
                      SegmentsBits(h.segments, Alone(h));
    ShowsThen(gs, ts, bs, g4, t4, b4);
    ShowsThen(QuantizationSyntax(), QuantizationTree(h), QuantizationBits(h), Then(gs, g4), Both(ts, t4), bs + b4);
    var g2, t2, b2 := Then(QuantizationSyntax(), Then(gs, g4)), Both(QuantizationTree(h), Both(ts, t4)),
                      QuantizationBits(h) + (bs + b4);
    ShowsThen(LoopFilterSyntax(), LoopFilterTree(h), LoopFilterBits(h), g2, t2, b2);
    ShowsThen(Context(h.resilient), ContextTree(h), ContextBits(h), Then(LoopFilterSyntax(), g2),
              Both(LoopFilterTree(h), t2), LoopFilterBits(h) + b2);
  }

  lemma LastMeansRecord(h: Layout, r: Range)
    requires Valid(h, r)
    ensures LastFields(Alone(h), r.least, LastTree(h, r)) == Record(h, r)
  {
    hide ContextTree, LoopFilterTree, LoopFilterOf, LoopFilterRecord, QuantizationTree, QuantizationOf, ZeroOr;
    hide SegmentsTree, SegmentationOf, SegmentationRecord, OnesTree, Count, RowsTree;
    LoopFilterShows(h);
    QuantizationShows(h);
    SegmentsShow(h.segments, Alone(h));
    OnesShow(h.tileOnes, r.most - r.least);
    RowsShow(h.tileRows);
  }

  // ----- the whole header

  lemma LayoutShows(h: Layout, r: Range)
    requires Valid(h, r)
    ensures var x := Header(StartTree(h), MiddleTree(h), LastTree(h, r));
      HeaderFits(x, r) && PrintHeader(x, r) == LayoutBits(h, r) && FieldsOf(x, r) == Record(h, r)
  {
    hide FirstSyntax, StartTree, StartBits, MiddleSyntax, MiddleTree, FrameBits, LastSyntax, LastTree, LastBits;
    hide PrefixOf, IntraOnlyOf, Record, LastFields;
    StartShows(h);
    MiddleShows(h);
    LastShows(h, r);
    LastMeansRecord(h, r);
  }

  /**
  The main result: the bits of a header, in the order and widths written above, parse to the record that was meant,
  whatever comes after them.
  */
  lemma LayoutParses(h: Layout, r: Range, tail: seq<bool>)
    requires Valid(h, r)
    ensures var p := ParseHeader(LayoutBits(h, r) + tail, r);
      p.Some? && FieldsOf(p.value.header, r) == Record(h, r) && p.value.rest == tail
  {
    hide LayoutBits, ParseHeader, HeaderFits, PrintHeader, FieldsOf, Record;
    LayoutShows(h, r);
    ParsePrintHeader(Header(StartTree(h), MiddleTree(h), LastTree(h, r)), r, tail);
  }
}
