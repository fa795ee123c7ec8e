/**
Writing VP9 header fields: for every record of fields the format can express there is a header that means it, so the
parser's record loses nothing and invents nothing.
*/
module Vp9Printer {
  import opened Arithmetic
  import opened BoolDecoder
  import opened Options
  import opened BitSyntax
  import opened Vp9Header

  function Abs(x: int): nat
  {
    if x < 0 then -x else x
  }

  predicate Codes(n: nat, o: Option<int>)
  {
    o.Some? ==> Abs(o.value) < Pow2(n)
  }

  function BuildSigned(x: int): Tree
  {
    Both(Num(Abs(x)), Num(if x < 0 then 1 else 0))
  }

  function BuildOpt(o: Option<int>): Tree
  {
    if o.Some? then Case(1, BuildSigned(o.value)) else Case(0, Nothing)
  }

  lemma OptMeans(n: nat, o: Option<int>)
    requires Codes(n, o)
    ensures Fits(Opt(Su(n)), BuildOpt(o)) && OptSigned(BuildOpt(o)) == o
  {
  }

  predicate AllCode(n: nat, xs: seq<Option<int>>)
  {
    forall i | 0 <= i < |xs| :: Codes(n, xs[i])
  }

  function BuildItems(xs: seq<Option<int>>): Tree
  {
    if xs == [] then Nothing else Both(BuildItems(xs[..|xs| - 1]), BuildOpt(xs[|xs| - 1]))
  }

  lemma {:induction false} ItemsMean(n: nat, xs: seq<Option<int>>)
    requires AllCode(n, xs)
    ensures Fits(Rep(Opt(Su(n)), |xs|), BuildItems(xs)) && SignedItems(BuildItems(xs), |xs|) == xs
    decreases |xs|
  {
    hide Opt, Su, BuildOpt;
    if xs != [] {
      ItemsMean(n, xs[..|xs| - 1]);
      OptMeans(n, xs[|xs| - 1]);
      assert xs == xs[..|xs| - 1] + [xs[|xs| - 1]];
    }
  }

  lemma BothFit(g1: Syntax, g2: Syntax, t1: Tree, t2: Tree)
    requires Fits(g1, t1) && Fits(g2, t2)
    ensures Fits(Then(g1, g2), Both(t1, t2))
  {
  }

  // ----- loop filter

  predicate LoopFilterCodes(lf: LoopFilter)
  {
    && |lf.refDeltas| == 4 && |lf.modeDeltas| == 2 && AllCode(6, lf.refDeltas) && AllCode(6, lf.modeDeltas)
    && (lf.deltaUpdated ==> lf.deltaEnabled)
    && (!lf.deltaUpdated ==> lf.refDeltas == NO_DELTAS.refDeltas && lf.modeDeltas == NO_DELTAS.modeDeltas)
  }

  function BuildLoopFilter(lf: LoopFilter): Tree
  {
    Both(Both(Num(0), Num(0)),
         if !lf.deltaEnabled then Case(0, Nothing)
         else if !lf.deltaUpdated then Case(1, Case(0, Nothing))
         else Case(1, Case(1, Both(BuildItems(lf.refDeltas), BuildItems(lf.modeDeltas)))))
  }

  lemma LoopFilterMeans(lf: LoopFilter)
    requires LoopFilterCodes(lf)
    ensures Fits(LoopFilterSyntax(), BuildLoopFilter(lf)) && LoopFilterOf(BuildLoopFilter(lf)) == lf
  {
    hide Rep, BuildItems, SignedItems, AllCode;
    ItemsMean(6, lf.refDeltas);
    ItemsMean(6, lf.modeDeltas);
    assert Pow2(1) == 2;
    var g := Then(Rep(Opt(Su(6)), 4), Rep(Opt(Su(6)), 2));
    if lf.deltaUpdated {
      assert Fits(g, Both(BuildItems(lf.refDeltas), BuildItems(lf.modeDeltas)));
    }
    OptFits(Opt(g), Second(BuildLoopFilter(lf)));
    OptFits(g, Chosen(Second(BuildLoopFilter(lf))));
  }

  lemma OptFits(g: Syntax, t: Tree)
    ensures Fits(Opt(g), t) <==> t == Case(0, Nothing) || (t.Case? && t.x == 1 && Fits(g, t.chosen))
  {
  }

  // ----- quantization

  predicate QuantizationCodes(q: Quantization)
  {
    q.baseIdx < 256 && Abs(q.yDc) < 16 && Abs(q.uvDc) < 16 && Abs(q.uvAc) < 16
  }

  function BuildQuantization(q: Quantization): Tree
  {
    Both(Num(q.baseIdx), Both(BuildOpt(Some(q.yDc)), Both(BuildOpt(Some(q.uvDc)), BuildOpt(Some(q.uvAc)))))
  }

  lemma Powers(n: nat, m: nat)
    requires n == 4 && m == 8
    ensures Pow2(n) == 16 && Pow2(m) == 256
  {
  }

  lemma QuantizationMeans(q: Quantization)
    requires QuantizationCodes(q)
    ensures Fits(QuantizationSyntax(), BuildQuantization(q)) && QuantizationOf(BuildQuantization(q)) == q
  {
    hide Pow2, BuildOpt, Su, Opt;
    Powers(4, 8);
    OptMeans(4, Some(q.yDc));
    OptMeans(4, Some(q.uvDc));
    OptMeans(4, Some(q.uvAc));
    var d, y, u, v := Opt(Su(4)), BuildOpt(Some(q.yDc)), BuildOpt(Some(q.uvDc)), BuildOpt(Some(q.uvAc));
    BothFit(d, d, u, v);
    BothFit(d, Then(d, d), y, Both(u, v));
    BothFit(Field(8), Then(d, Then(d, d)), Num(q.baseIdx), Both(y, Both(u, v)));
  }

  // ----- segmentation

  predicate FeatureCodes(f: Feature)
  {
    Codes(8, f.q) && Codes(6, f.lf) && (f.ref.Some? ==> 0 <= f.ref.value < 4)
  }

  function BuildFeature(f: Feature): Tree
  {
    Both(BuildOpt(f.q), Both(BuildOpt(f.lf),
         Both(if f.ref.Some? then Case(1, Num(Abs(f.ref.value))) else Case(0, Nothing), Num(if f.skip then 1 else 0))))
  }

  lemma FeatureMeans(f: Feature)
    requires FeatureCodes(f)
    ensures Fits(FeatureSyntax(), BuildFeature(f)) && FeatureOf(BuildFeature(f)) == f
  {
    hide BuildOpt, Su, Codes;
    OptMeans(8, f.q);
    OptMeans(6, f.lf);
    assert Pow2(1) == 2 && Pow2(2) == 4;
    var ref := if f.ref.Some? then Case(1, Num(Abs(f.ref.value))) else Case(0, Nothing);
    var skip := Num(if f.skip then 1 else 0);
    OptFits(Field(2), ref);
    BothFit(Opt(Field(2)), Flag(), ref, skip);
    BothFit(Opt(Su(6)), Then(Opt(Field(2)), Flag()), BuildOpt(f.lf), Both(ref, skip));
    BothFit(Opt(Su(8)), Then(Opt(Su(6)), Then(Opt(Field(2)), Flag())),
            BuildOpt(f.q), Both(BuildOpt(f.lf), Both(ref, skip)));
  }

  function BuildFeatures(fs: seq<Feature>): Tree
  {
    if fs == [] then Nothing else Both(BuildFeatures(fs[..|fs| - 1]), BuildFeature(fs[|fs| - 1]))
  }

  lemma {:induction false} FeaturesMean(fs: seq<Feature>)
    requires forall i | 0 <= i < |fs| :: FeatureCodes(fs[i])
    ensures Fits(Rep(FeatureSyntax(), |fs|), BuildFeatures(fs)) && FeatureItems(BuildFeatures(fs), |fs|) == fs
    decreases |fs|
  {
    hide FeatureSyntax, FeatureOf, BuildFeature, FeatureCodes;
    if fs != [] {
      var n := |fs| - 1;
      FeaturesMean(fs[..n]);
      FeatureMeans(fs[n]);
      BothFit(Rep(FeatureSyntax(), n), FeatureSyntax(), BuildFeatures(fs[..n]), BuildFeature(fs[n]));
      assert fs == fs[..|fs| - 1] + [fs[|fs| - 1]];
    }
  }

  predicate SegmentsCode(s: Option<SegmentData>)
  {
    s.Some? ==> |s.value.features| == 8 && forall i | 0 <= i < 8 :: FeatureCodes(s.value.features[i])
  }

  function BuildSegmentation(independent: bool, s: Option<SegmentData>): Tree
  {
    if s == None then Case(0, Nothing)
    else
      var data := Both(Num(if s.value.absolute then 1 else 0), BuildFeatures(s.value.features));
      if independent then Case(1, data) else Case(1, Both(Case(0, Nothing), Case(1, data)))
  }

  lemma SegmentationMeans(independent: bool, s: Option<SegmentData>)
    requires SegmentsCode(s)
    ensures Fits(SegmentationSyntax(independent), BuildSegmentation(independent, s))
    ensures SegmentationOf(independent, BuildSegmentation(independent, s)) == s
  {
    hide Rep, BuildFeatures, FeatureItems, FeatureSyntax;
    var g := SegmentDataSyntax();
    if s.Some? {
      FeaturesMean(s.value.features);
      var data := Both(Num(if s.value.absolute then 1 else 0), BuildFeatures(s.value.features));
      assert Pow2(1) == 2;
      assert Fits(g, data);
      OptFits(g, Case(1, data));
      OptFits(Then(Rep(Opt(Field(8)), 7), Opt(Rep(Opt(Field(8)), 3))), Case(0, Nothing));
    }
    OptFits(if independent then g else Then(SegmentMapSyntax(), Opt(g)), BuildSegmentation(independent, s));
  }

  // ----- tiles

  function BuildIncrements(ones: nat, most: nat): Tree
    requires ones <= most
  {
    if most == 0 then Nothing else if ones == 0 then Case(0, Nothing) else Case(1, BuildIncrements(ones - 1, most - 1))
  }

  lemma {:induction false} IncrementsMean(ones: nat, most: nat)
    requires ones <= most
    ensures Fits(Increments(most), BuildIncrements(ones, most)) && Count(BuildIncrements(ones, most)) == ones
  {
    if most > 0 {
      OptFits(Increments(most - 1), BuildIncrements(ones, most));
      if ones > 0 {
        IncrementsMean(ones - 1, most - 1);
      }
    }
  }

  function BuildRows(rows: nat): Tree
  {
    if rows == 0 then Case(0, Nothing) else Case(1, Num(rows - 1))
  }

  lemma RowsMean(rows: nat)
    requires rows <= 2
    ensures Fits(Opt(Flag()), BuildRows(rows)) && Value(BuildRows(rows)) + Value(Chosen(BuildRows(rows))) == rows
  {
  }

  // ----- all of it

  /** What the format can express: the ranges of the coded fields, and a tile column count the width allows. */
  predicate Expressible(f: HeaderFields, r: Range)
  {
    && LoopFilterCodes(f.loopFilter) && QuantizationCodes(f.quantization) && SegmentsCode(f.segmentation)
    && (f.lossless <==> f.quantization == Quantization(0, 0, 0, 0))
    && r.least <= f.tileColsLog2 <= r.most && f.tileRowsLog2 <= 2 && f.firstPartitionSize < 0x1_0000
  }

  function BuildContext(resilient: bool): Tree
  {
    Both(if resilient then Nothing else Both(Num(0), Num(0)), Num(0))
  }

  function BuildTail(f: HeaderFields, r: Range): Tree
    requires r.least <= f.tileColsLog2 <= r.most
  {
    Both(BuildIncrements(f.tileColsLog2 - r.least, r.most - r.least),
         Both(BuildRows(f.tileRowsLog2), Num(f.firstPartitionSize)))
  }

  function BuildLast(independent: bool, resilient: bool, f: HeaderFields, r: Range): Tree
    requires r.least <= f.tileColsLog2 <= r.most
  {
    Both(BuildContext(resilient), Both(BuildLoopFilter(f.loopFilter), Both(BuildQuantization(f.quantization),
         Both(BuildSegmentation(independent, f.segmentation), BuildTail(f, r)))))
  }

  lemma ContextFits(resilient: bool)
    ensures Fits(Context(resilient), BuildContext(resilient))
  {
  }

  lemma TailMeans(f: HeaderFields, r: Range)
    requires r.least <= f.tileColsLog2 <= r.most && f.tileRowsLog2 <= 2 && f.firstPartitionSize < 0x1_0000
    ensures Fits(Then(Increments(r.most - r.least), Then(Opt(Flag()), Field(16))), BuildTail(f, r))
  {
    hide Pow2;
    IncrementsMean(f.tileColsLog2 - r.least, r.most - r.least);
    RowsMean(f.tileRowsLog2);
    Pow2Width(16);
    var cols := BuildIncrements(f.tileColsLog2 - r.least, r.most - r.least);
    var rows, size := BuildRows(f.tileRowsLog2), Num(f.firstPartitionSize);
    BothFit(Opt(Flag()), Field(16), rows, size);
    BothFit(Increments(r.most - r.least), Then(Opt(Flag()), Field(16)), cols, Both(rows, size));
  }

  lemma LastMeans(independent: bool, resilient: bool, f: HeaderFields, r: Range)
    requires Expressible(f, r)
    ensures Fits(LastSyntax(independent, resilient, r.most - r.least), BuildLast(independent, resilient, f, r))
    ensures LastFields(independent, r.least, BuildLast(independent, resilient, f, r)) == f
  {
    hide Context, LoopFilterSyntax, QuantizationSyntax, SegmentationSyntax, Increments, LoopFilterOf, QuantizationOf;
    hide SegmentationOf, BuildContext, BuildLoopFilter, BuildQuantization, BuildSegmentation, BuildIncrements, Count;
    ContextFits(resilient);
    LoopFilterMeans(f.loopFilter);
    QuantizationMeans(f.quantization);
    SegmentationMeans(independent, f.segmentation);
    IncrementsMean(f.tileColsLog2 - r.least, r.most - r.least);
    RowsMean(f.tileRowsLog2);
    TailMeans(f, r);
    var tail := BuildTail(f, r);
    var g4 := Then(Increments(r.most - r.least), Then(Opt(Flag()), Field(16)));
    var g3, t3 := SegmentationSyntax(independent), BuildSegmentation(independent, f.segmentation);
    var g2, t2 := QuantizationSyntax(), BuildQuantization(f.quantization);
    var g1, t1 := LoopFilterSyntax(), BuildLoopFilter(f.loopFilter);
    BothFit(g3, g4, t3, tail);
    BothFit(g2, Then(g3, g4), t2, Both(t3, tail));
    BothFit(g1, Then(g2, Then(g3, g4)), t1, Both(t2, Both(t3, tail)));
    BothFit(Context(resilient), Then(g1, Then(g2, Then(g3, g4))),
            BuildContext(resilient), Both(t1, Both(t2, Both(t3, tail))));
  }

  /**
  The main result: behind any start of a header, every expressible record of fields has a buffer that parses to it.
  */
  lemma EveryRecordHasBuffer(first: Tree, middle: Tree, f: HeaderFields, r: Range) returns (buf: seq<byte>)
    requires Fits(FirstSyntax(), first) && Fits(PartTwo(first), middle) && Expressible(f, r)
    ensures var p := ParseHeader(BitsOf(buf), r);
      p.Some? && FieldsOf(p.value.header, r) == f && p.value.header.first == first && p.value.header.middle == middle
  {
    hide FirstSyntax, PartTwo, LastSyntax, ParseHeader, PrintHeader, BitsOf, Pack, Expressible, LastFields;
    var independent, resilient := Independent(PrefixOf(first), middle), PrefixOf(first).resilient;
    ExpressibleRange(f, r);
    LastMeans(independent, resilient, f, r);
    var h := Header(first, middle, BuildLast(independent, resilient, f, r));
    EveryHeaderHasBuffer(h, r);
    buf := Pack(PrintHeader(h, r));
  }

  lemma ExpressibleRange(f: HeaderFields, r: Range)
    requires Expressible(f, r)
    ensures r.least <= f.tileColsLog2 <= r.most
  {
  }

  // ----- and nothing else

  lemma OptIsCoded(n: nat, t: Tree)
    requires Fits(Opt(Su(n)), t)
    ensures Codes(n, OptSigned(t))
  {
    OptFits(Su(n), t);
    if t.x == 1 {
      BothFits(Field(n), Flag(), t.chosen);
    }
  }

  lemma {:induction false} ItemsAreCoded(n: nat, t: Tree, count: nat)
    requires Fits(Rep(Opt(Su(n)), count), t)
    ensures AllCode(n, SignedItems(t, count))
  {
    hide Opt, Su, OptSigned, Codes;
    if count > 0 {
      ItemsAreCoded(n, t.left, count - 1);
      OptIsCoded(n, t.right);
    }
  }

  lemma LoopFilterIsCoded(t: Tree)
    requires Fits(LoopFilterSyntax(), t)
    ensures LoopFilterCodes(LoopFilterOf(t))
  {
    hide Rep, SignedItems, AllCode;
    var refs, modes := Rep(Opt(Su(6)), 4), Rep(Opt(Su(6)), 2);
    NoneCoded();
    OptFits(Opt(Then(refs, modes)), t.right);
    if t.right.x == 1 {
      OptFits(Then(refs, modes), t.right.chosen);
      if t.right.chosen.x == 1 {
        ItemsAreCoded(6, t.right.chosen.chosen.left, 4);
        ItemsAreCoded(6, t.right.chosen.chosen.right, 2);
      }
    }
  }

  lemma NoneCoded()
    ensures AllCode(6, NO_DELTAS.refDeltas) && AllCode(6, NO_DELTAS.modeDeltas)
  {
  }

  lemma QuantizationIsCoded(t: Tree)
    requires Fits(QuantizationSyntax(), t)
    ensures QuantizationCodes(QuantizationOf(t))
  {
    hide Pow2, Opt, Su, OptSigned;
    Powers(4, 8);
    var d := Opt(Su(4));
    BothFits(Field(8), Then(d, Then(d, d)), t);
    BothFits(d, Then(d, d), t.right);
    BothFits(d, d, t.right.right);
    OptIsCoded(4, t.right.left);
    OptIsCoded(4, t.right.right.left);
    OptIsCoded(4, t.right.right.right);
  }

  lemma BothFits(g1: Syntax, g2: Syntax, t: Tree)
    requires Fits(Then(g1, g2), t)
    ensures t.Both? && Fits(g1, t.left) && Fits(g2, t.right)
  {
  }

  lemma FeatureIsCoded(t: Tree)
    requires Fits(FeatureSyntax(), t)
    ensures FeatureCodes(FeatureOf(t))
  {
    hide OptSigned, Su;
    assert Pow2(1) == 2 && Pow2(2) == 4;
    var tail := Then(Opt(Field(2)), Flag());
    BothFits(Opt(Su(8)), Then(Opt(Su(6)), tail), t);
    BothFits(Opt(Su(6)), tail, t.right);
    BothFits(Opt(Field(2)), Flag(), t.right.right);
    OptFits(Field(2), t.right.right.left);
    OptIsCoded(8, t.left);
    OptIsCoded(6, t.right.left);
  }

  lemma {:induction false} FeaturesAreCoded(t: Tree, count: nat)
    requires Fits(Rep(FeatureSyntax(), count), t)
    ensures forall i | 0 <= i < count :: FeatureCodes(FeatureItems(t, count)[i])
  {
    hide FeatureSyntax, FeatureOf, FeatureCodes;
    if count > 0 {
      FeaturesAreCoded(t.left, count - 1);
      FeatureIsCoded(t.right);
    }
  }

  lemma SegmentationIsCoded(independent: bool, t: Tree)
    requires Fits(SegmentationSyntax(independent), t)
    ensures SegmentsCode(SegmentationOf(independent, t))
  {
    hide Rep, FeatureItems, FeatureSyntax, FeatureCodes, SegmentMapSyntax;
    var data := SegmentDataSyntax();
    var inside := if independent then data else Then(SegmentMapSyntax(), Opt(data));
    OptFits(inside, t);
    if t.x == 1 {
      if !independent {
        OptFits(data, t.chosen.right);
      }
      var d := if independent then t.chosen else t.chosen.right.chosen;
      if independent || t.chosen.right.x == 1 {
        FeaturesAreCoded(d.right, 8);
      }
    }
  }

  lemma {:induction false} IncrementsBound(most: nat, t: Tree)
    requires Fits(Increments(most), t)
    ensures Count(t) <= most
  {
    if most > 0 {
      OptFits(Increments(most - 1), t);
      if t.x == 1 {
        IncrementsBound(most - 1, t.chosen);
      }
    }
  }

  lemma TailIsCoded(most: nat, t: Tree)
    requires Fits(Then(Increments(most), Then(Opt(Flag()), Field(16))), t)
    ensures t.Both? && t.right.Both? && Count(t.left) <= most && Value(t.right.right) < 0x1_0000
    ensures Value(t.right.left) + Value(Chosen(t.right.left)) <= 2
  {
    BothFits(Increments(most), Then(Opt(Flag()), Field(16)), t);
    BothFits(Opt(Flag()), Field(16), t.right);
    OptFits(Flag(), t.right.left);
    IncrementsBound(most, t.left);
    Pow2Width(16);
    assert Pow2(1) == 2;
  }

  /** With EveryRecordHasBuffer: the records the parser returns are exactly the expressible ones. */
  lemma ParsedIsExpressible(h: Header, r: Range)
    requires HeaderFits(h, r) && r.least <= r.most
    ensures Expressible(FieldsOf(h, r), r)
  {
    hide LoopFilterSyntax, QuantizationSyntax, SegmentationSyntax, Increments, LoopFilterOf, QuantizationOf;
    hide SegmentationOf;
    hide Count, Context, LoopFilterCodes, QuantizationCodes, SegmentsCode, IntraOnlyOf, PrefixOf, FirstSyntax;
    hide MiddleSyntax;
    var independent := Independent(PrefixOf(h.first), h.middle);
    var t := h.last;
    var g4 := Then(Increments(r.most - r.least), Then(Opt(Flag()), Field(16)));
    var g3, g2, g1 := SegmentationSyntax(independent), QuantizationSyntax(), LoopFilterSyntax();
    BothFits(Context(PrefixOf(h.first).resilient), Then(g1, Then(g2, Then(g3, g4))), t);
    BothFits(g1, Then(g2, Then(g3, g4)), t.right);
    BothFits(g2, Then(g3, g4), t.right.right);
    BothFits(g3, g4, t.right.right.right);
    LoopFilterIsCoded(t.right.left);
    QuantizationIsCoded(t.right.right.left);
    SegmentationIsCoded(independent, t.right.right.right.left);
    TailIsCoded(r.most - r.least, t.right.right.right.right);
  }
}
