/**
The other half of the layout: whatever the grammar reads is a header written out, so a buffer parses exactly when it
starts with the bits of some header.
*/
module Vp9LayoutExact {
  import opened Arithmetic
  import opened Options
  import opened BitSyntax
  import opened Vp9Header
  import opened Vp9Layout

  // ----- every tree is that of some content

  lemma FlagBack(t: Tree)
    requires Fits(Flag(), t)
    ensures t == Num(Bit(IsSet(t)))
  {
    OneDigit(true);
  }

  lemma ThenBack(g1: Syntax, g2: Syntax, t: Tree)
    requires Fits(Then(g1, g2), t)
    ensures t.Both? && Fits(g1, t.left) && Fits(g2, t.right)
  {
  }

  lemma SwitchBack(key: nat, same: Syntax, other: Syntax, t: Tree)
    requires Fits(Switch(1, key, same, other), t)
    ensures t.Case? && t.x < 2 && Fits(if t.x == key then same else other, t.chosen)
  {
    OneDigit(true);
  }

  lemma OptBack(g: Syntax, t: Tree)
    requires Fits(Opt(g), t)
    ensures t == Case(0, Nothing) || (t.Case? && t.x == 1 && Fits(g, t.chosen))
  {
    OneDigit(true);
  }

  function CodeOf(t: Tree): Option<Code>
  {
    if IsSet(t) then Some(Code(Value(First(Chosen(t))), IsSet(Second(Chosen(t))))) else None
  }

  lemma CodeBack(t: Tree, n: nat)
    requires Fits(Opt(Su(n)), t)
    ensures CodeTree(CodeOf(t)) == t && CodeFits(CodeOf(t), Pow2(n))
  {
    OptBack(Su(n), t);
    if t.x == 1 {
      ThenBack(Field(n), Flag(), t.chosen);
      FlagBack(t.chosen.right);
    }
  }

  function CodesOf(t: Tree, count: nat): (xs: seq<Option<Code>>)
    ensures |xs| == count
    decreases count
  {
    if count == 0 then [] else CodesOf(First(t), count - 1) + [CodeOf(Second(t))]
  }

  lemma {:induction false} CodesBack(t: Tree, n: nat, count: nat)
    requires Fits(Rep(Opt(Su(n)), count), t)
    ensures CodesTree(CodesOf(t, count)) == t
    ensures forall i | 0 <= i < count :: CodeFits(CodesOf(t, count)[i], Pow2(n))
  {
    hide Opt, Su, CodeTree, CodeOf, CodeFits;
    if count > 0 {
      CodesBack(t.left, n, count - 1);
      CodeBack(t.right, n);
      assert CodesOf(t, count)[..count - 1] == CodesOf(t.left, count - 1);
    }
  }

  function ColorsOf(t: Tree): Colors
  {
    var space := Second(t);
    var x := Chosen(space);
    var s := Second(x);
    Colors(IsSet(First(t)), Value(space), IsSet(First(x)), IsSet(First(s)), IsSet(First(Second(s))),
           if x.Both? then IsSet(Second(Second(s))) else IsSet(x))
  }

  lemma ColorsBack(profile: nat, t: Tree)
    requires Fits(Vp9Header.Color(profile), t)
    ensures ColorTree(profile, ColorsOf(t)) == t && ColorsOf(t).space < 8
  {
    Widths();
    var odd := profile == 1 || profile == 3;
    var gs := if odd then Then(Flag(), Then(Flag(), Flag())) else Empty;
    var same, other := if odd then Flag() else Empty, Then(Flag(), gs);
    ThenBack(if profile >= 2 then Flag() else Empty, Switch(3, 7, same, other), t);
    var x := t.right.chosen;
    if profile >= 2 {
      FlagBack(t.left);
    }
    if t.right.x != 7 {
      ThenBack(Flag(), gs, x);
      FlagBack(x.left);
      if odd {
        ThenBack(Flag(), Then(Flag(), Flag()), x.right);
        FlagBack(x.right.left);
        FlagBack(x.right.right.left);
        FlagBack(x.right.right.right);
      }
    } else if odd {
      FlagBack(x);
    }
  }

  function AreaOf(t: Tree): Area
  {
    Area(Value(First(t)), Value(Second(t)))
  }

  lemma AreaBack(t: Tree)
    requires Fits(Vp9Header.Size(), t)
    ensures AreaTree(AreaOf(t)) == t && AreaFits(AreaOf(t))
  {
    hide Pow2;
    Widths();
  }

  function RenderOf(t: Tree): Option<Area>
  {
    if IsSet(t) then Some(AreaOf(Chosen(t))) else None
  }

  lemma RenderBack(t: Tree)
    requires Fits(Opt(Vp9Header.Size()), t)
    ensures RenderTree(RenderOf(t)) == t && (RenderOf(t).Some? ==> AreaFits(RenderOf(t).value))
  {
    hide AreaTree, AreaOf, Vp9Header.Size, Opt;
    OptBack(Vp9Header.Size(), t);
    if t.x == 1 {
      AreaBack(t.chosen);
    }
  }

  function FoundOf(t: Tree): Option<nat>
  {
    if IsSet(t) then Some(0)
    else if IsSet(Chosen(t)) then Some(1)
    else if IsSet(Chosen(Chosen(t))) then Some(2)
    else None
  }

  function FoundAreaOf(t: Tree): Area
  {
    if FoundOf(t) == None then AreaOf(Chosen(Chosen(Chosen(t)))) else Area(0, 0)
  }

  lemma FoundBack(t: Tree)
    requires Fits(FoundRef(3), t)
    ensures FoundTree(FoundOf(t), FoundAreaOf(t)) == t
    ensures AreaFits(FoundAreaOf(t)) && (FoundOf(t).Some? ==> FoundOf(t).value < 3)
  {
    hide AreaTree, AreaOf;
    OneDigit(true);
    assert FoundRef(0) == Vp9Header.Size();
    assert FoundRef(1) == Switch(1, 1, Empty, FoundRef(0));
    assert FoundRef(2) == Switch(1, 1, Empty, FoundRef(1));
    assert FoundRef(3) == Switch(1, 1, Empty, FoundRef(2));
    SwitchBack(1, Empty, FoundRef(2), t);
    if t.x == 0 {
      SwitchBack(1, Empty, FoundRef(1), t.chosen);
      if t.chosen.x == 0 {
        SwitchBack(1, Empty, FoundRef(0), t.chosen.chosen);
      }
    }
    if FoundOf(t) == None {
      AreaBack(t.chosen.chosen.chosen);
    }
  }

  function ReferencesOf(t: Tree, count: nat): (rs: seq<Reference>)
    ensures |rs| == count
    decreases count
  {
    if count == 0 then []
    else ReferencesOf(First(t), count - 1) + [Reference(Value(First(Second(t))), IsSet(Second(Second(t))))]
  }

  lemma {:induction false} ReferencesBack(t: Tree, count: nat)
    requires Fits(Rep(Then(Field(3), Flag()), count), t)
    ensures ReferencesTree(ReferencesOf(t, count)) == t
    ensures forall i | 0 <= i < count :: ReferencesOf(t, count)[i].index < 8
  {
    hide Pow2;
    if count > 0 {
      Widths();
      ReferencesBack(t.left, count - 1);
      ThenBack(Field(3), Flag(), t.right);
      FlagBack(t.right.right);
      assert ReferencesOf(t, count)[..count - 1] == ReferencesOf(t.left, count - 1);
    }
  }

  function ResetOf(t: Tree): nat
  {
    Value(t)
  }

  lemma ResetBack(resilient: bool, t: Tree)
    requires Fits(ResetContext(resilient), t)
    ensures ResetTree(resilient, ResetOf(t)) == t && ResetOf(t) < 4
  {
    hide Pow2;
    Widths();
  }

  function KeyOf(t: Tree): Frame
  {
    var u := Second(t);
    Key(ColorsOf(First(u)), AreaOf(First(Second(u))), RenderOf(Second(Second(u))))
  }

  lemma KeyBack(profile: nat, t: Tree)
    requires Fits(KeyFrame(profile), t)
    ensures KeyTree(profile, KeyOf(t)) == t && FrameFits(KeyOf(t))
  {
    hide ColorsOf, ColorTree, AreaOf, AreaTree, RenderOf, RenderTree, Vp9Header.Color, Vp9Header.Size, Opt, Pow2;
    ThenBack(Const(24, SYNC_CODE), Then(Vp9Header.Color(profile), FrameSize()), t);
    ThenBack(Vp9Header.Color(profile), FrameSize(), t.right);
    ThenBack(Vp9Header.Size(), Opt(Vp9Header.Size()), t.right.right);
    ColorsBack(profile, t.right.left);
    AreaBack(t.right.right.left);
    RenderBack(t.right.right.right);
  }

  function IntraOf(profile: nat, reset: nat, t: Tree): Frame
  {
    var u := Second(t);
    var v := Second(u);
    Intra(reset, if profile > 0 then ColorsOf(First(u)) else Colors(false, 0, false, false, false, false),
          Value(First(v)), AreaOf(First(Second(v))), RenderOf(Second(Second(v))))
  }

  lemma IntraBack(profile: nat, reset: nat, t: Tree)
    requires Fits(IntraOnly(profile), t) && reset < 4
    ensures IntraTree(profile, IntraOf(profile, reset, t)) == t && FrameFits(IntraOf(profile, reset, t))
  {
    hide ColorsOf, ColorTree, AreaOf, AreaTree, RenderOf, RenderTree, Vp9Header.Color, Vp9Header.Size, Opt, Pow2;
    var g := if profile > 0 then Vp9Header.Color(profile) else Empty;
    Widths();
    ThenBack(Const(24, SYNC_CODE), Then(g, Then(Field(8), FrameSize())), t);
    ThenBack(g, Then(Field(8), FrameSize()), t.right);
    ThenBack(Field(8), FrameSize(), t.right.right);
    ThenBack(Vp9Header.Size(), Opt(Vp9Header.Size()), t.right.right.right);
    if profile > 0 {
      ColorsBack(profile, t.right.left);
    }
    AreaBack(t.right.right.right.left);
    RenderBack(t.right.right.right.right);
  }

  function FilterOf(t: Tree): Option<nat>
  {
    if IsSet(t) then None else Some(Value(Chosen(t)))
  }

  lemma FilterBack(t: Tree)
    requires Fits(Switch(1, 0, Field(2), Empty), t)
    ensures FilterTree(FilterOf(t)) == t && (FilterOf(t).Some? ==> FilterOf(t).value < 4)
  {
    Widths();
  }

  function PredictedOf(reset: nat, t: Tree): Frame
  {
    var u := Second(t);
    var v := Second(u);
    var size, last := First(v), Second(v);
    Predicted(reset, Value(First(t)), ReferencesOf(First(u), 3), FoundOf(First(size)), FoundAreaOf(First(size)),
              RenderOf(Second(size)), IsSet(First(last)), FilterOf(Second(last)))
  }

  lemma PredictedBack(reset: nat, t: Tree)
    requires Fits(Inter(), t) && reset < 4
    ensures PredictedTree(PredictedOf(reset, t)) == t && FrameFits(PredictedOf(reset, t))
  {
    hide RenderOf, RenderTree, Vp9Header.Size, Opt, Pow2, FoundRef, FoundOf, FoundAreaOf, FoundTree;
    hide ReferencesOf, ReferencesTree, Rep, FilterOf, FilterTree;
    Widths();
    var gs := Switch(1, 0, Field(2), Empty);
    var g2 := Rep(Then(Field(3), Flag()), 3);
    ThenBack(Field(8), Then(g2, Then(FrameSizeWithRefs(), Then(Flag(), gs))), t);
    ThenBack(g2, Then(FrameSizeWithRefs(), Then(Flag(), gs)), t.right);
    ThenBack(FrameSizeWithRefs(), Then(Flag(), gs), t.right.right);
    ThenBack(FoundRef(3), Opt(Vp9Header.Size()), t.right.right.left);
    ThenBack(Flag(), gs, t.right.right.right);
    ReferencesBack(t.right.left, 3);
    FoundBack(t.right.right.left.left);
    RenderBack(t.right.right.left.right);
    FlagBack(t.right.right.right.left);
    FilterBack(t.right.right.right.right);
  }

  function FrameOf(p: Prefix, t: Tree): Frame
  {
    if p.key then KeyOf(t)
    else
      var both := if p.show then t else Chosen(t);
      var reset := ResetOf(First(both));
      if !p.show && IsSet(t) then IntraOf(p.profile, reset, Second(both)) else PredictedOf(reset, Second(both))
  }

  lemma MiddleBack(h: Layout, t: Tree)
    requires Fits(MiddleSyntax(PrefixFor(h)), t) && h.frame == FrameOf(PrefixFor(h), t)
    ensures MiddleTree(h) == t && FrameFits(h.frame) && (h.frame.Intra? ==> !h.show)
  {
    hide KeyFrame, IntraOnly, Inter, KeyTree, IntraTree, PredictedTree, ResetTree, ResetContext, FrameFits;
    var resilient := h.resilient;
    if h.frame.Key? {
      KeyBack(h.profile, t);
    } else {
      OneDigit(true);
      var both := if h.show then t else t.chosen;
      var reset := ResetOf(both.left);
      ResetBack(resilient, both.left);
      if h.frame.Intra? {
        IntraBack(h.profile, reset, both.right);
      } else {
        PredictedBack(reset, both.right);
      }
    }
  }

  lemma StartBack(h: Layout, t: Tree)
    requires Fits(FirstSyntax(), t)
    requires PrefixFor(h) == PrefixOf(t) && h.reserved == IsSet(Chosen(Chosen(First(Second(t)))))
    ensures StartTree(h) == t && h.profile < 4
  {
    Widths();
    var g2 := Then(Flag(), Then(Flag(), Flag()));
    var g1 := Then(Const(1, 0), g2);
    ThenBack(Const(2, 2), Then(ProfileSyntax(), g1), t);
    ThenBack(ProfileSyntax(), g1, t.right);
    ThenBack(Const(1, 0), g2, t.right.right);
    SwitchBack(0, Empty, Fail, t.right.right.left);
    var flags := t.right.right.right;
    ThenBack(Flag(), Then(Flag(), Flag()), flags);
    ThenBack(Flag(), Flag(), flags.right);
    FlagBack(flags.left);
    FlagBack(flags.right.left);
    FlagBack(flags.right.right);
    ProfileBack(h, t.right.left);
  }

  lemma ProfileBack(h: Layout, t: Tree)
    requires Fits(ProfileSyntax(), t) && h.profile == ProfileOf(t) && h.reserved == IsSet(Chosen(Chosen(t)))
    ensures ProfileTree(h) == t && h.profile < 4
  {
    SwitchBack(1, Switch(1, 1, Field(1), Empty), Field(1), t);
    if t.x == 1 {
      SwitchBack(1, Field(1), Empty, t.chosen);
      if t.chosen.x == 1 {
        FlagBack(t.chosen.chosen);
      }
    } else {
      FlagBack(t.chosen);
    }
  }

  function DeltasOf(t: Tree): Deltas
  {
    if !IsSet(t) then Off
    else if !IsSet(Chosen(t)) then Kept
    else Updated(CodesOf(First(Chosen(Chosen(t))), 4), CodesOf(Second(Chosen(Chosen(t))), 2))
  }

  lemma DeltasBack(t: Tree)
    requires Fits(Opt(Opt(Then(Rep(Opt(Su(6)), 4), Rep(Opt(Su(6)), 2)))), t)
    ensures DeltasTree(DeltasOf(t)) == t && DeltasFit(DeltasOf(t))
  {
    hide Opt, Su, Rep, Pow2, CodesTree, CodesOf, CodeFits;
    var refs, modes := Rep(Opt(Su(6)), 4), Rep(Opt(Su(6)), 2);
    OptBack(Opt(Then(refs, modes)), t);
    if t.x == 1 {
      OptBack(Then(refs, modes), t.chosen);
      if t.chosen.x == 1 {
        ThenBack(refs, modes, t.chosen.chosen);
        Widths();
        CodesBack(t.chosen.chosen.left, 6, 4);
        CodesBack(t.chosen.chosen.right, 6, 2);
      }
    }
  }

  function FeatureCodeOf(t: Tree): FeatureCode
  {
    var u := Second(t);
    var v := Second(u);
    FeatureCode(CodeOf(First(t)), CodeOf(First(u)), if IsSet(First(v)) then Some(Value(Chosen(First(v)))) else None,
                IsSet(Second(v)))
  }

  lemma FeatureBack(t: Tree)
    requires Fits(FeatureSyntax(), t)
    ensures FeatureTree(FeatureCodeOf(t)) == t && FeatureFits(FeatureCodeOf(t))
  {
    hide Opt, Su, Pow2, CodeTree, CodeOf;
    Widths();
    var g := Then(Opt(Field(2)), Flag());
    ThenBack(Opt(Su(8)), Then(Opt(Su(6)), g), t);
    ThenBack(Opt(Su(6)), g, t.right);
    ThenBack(Opt(Field(2)), Flag(), t.right.right);
    CodeBack(t.left, 8);
    CodeBack(t.right.left, 6);
    OptBack(Field(2), t.right.right.left);
    FlagBack(t.right.right.right);
  }

  function FeatureCodesOf(t: Tree, count: nat): (fs: seq<FeatureCode>)
    ensures |fs| == count
    decreases count
  {
    if count == 0 then [] else FeatureCodesOf(First(t), count - 1) + [FeatureCodeOf(Second(t))]
  }

  lemma {:induction false} FeaturesBack(t: Tree, count: nat)
    requires Fits(Rep(FeatureSyntax(), count), t)
    ensures FeaturesTree(FeatureCodesOf(t, count)) == t
    ensures forall i | 0 <= i < count :: FeatureFits(FeatureCodesOf(t, count)[i])
  {
    hide FeatureSyntax, FeatureTree, FeatureCodeOf, FeatureFits;
    if count > 0 {
      FeaturesBack(t.left, count - 1);
      FeatureBack(t.right);
      assert FeatureCodesOf(t, count)[..count - 1] == FeatureCodesOf(t.left, count - 1);
    }
  }

  function ProbsOf(t: Tree, count: nat): (ps: seq<Option<nat>>)
    ensures |ps| == count
    decreases count
  {
    if count == 0 then []
    else ProbsOf(First(t), count - 1) + [if IsSet(Second(t)) then Some(Value(Chosen(Second(t)))) else None]
  }

  lemma {:induction false} ProbsBack(t: Tree, count: nat)
    requires Fits(Rep(Opt(Field(8)), count), t)
    ensures ProbsTree(ProbsOf(t, count)) == t && ProbsFit(ProbsOf(t, count), count)
  {
    hide Opt, Pow2;
    if count > 0 {
      Widths();
      ProbsBack(t.left, count - 1);
      OptBack(Field(8), t.right);
      assert ProbsOf(t, count)[..count - 1] == ProbsOf(t.left, count - 1);
    }
  }

  function MapOf(t: Tree): Option<MapCode>
  {
    var both := Chosen(t);
    if !IsSet(t) then None
    else Some(MapCode(ProbsOf(First(both), 7),
                      if IsSet(Second(both)) then Some(ProbsOf(Chosen(Second(both)), 3)) else None))
  }

  lemma MapBack(t: Tree)
    requires Fits(SegmentMapSyntax(), t)
    ensures MapTree(MapOf(t)) == t && (MapOf(t).Some? ==> MapFits(MapOf(t).value))
  {
    hide Opt, Rep, ProbsTree, ProbsOf, ProbsFit;
    var g7, g3 := Rep(Opt(Field(8)), 7), Rep(Opt(Field(8)), 3);
    OptBack(Then(g7, Opt(g3)), t);
    if t.x == 1 {
      ThenBack(g7, Opt(g3), t.chosen);
      ProbsBack(t.chosen.left, 7);
      OptBack(g3, t.chosen.right);
      if t.chosen.right.x == 1 {
        ProbsBack(t.chosen.right.chosen, 3);
      }
    }
  }

  function DataOf(t: Tree): SegmentCode
  {
    SegmentCode(IsSet(First(t)), FeatureCodesOf(Second(t), 8))
  }

  lemma DataBack(t: Tree)
    requires Fits(SegmentDataSyntax(), t)
    ensures DataTree(DataOf(t)) == t && DataFits(DataOf(t))
  {
    hide Rep, FeaturesTree, FeatureCodesOf, FeatureFits, FeatureSyntax;
    ThenBack(Flag(), Rep(FeatureSyntax(), 8), t);
    FlagBack(t.left);
    FeaturesBack(t.right, 8);
  }

  function SegmentsOf(alone: bool, t: Tree): Segments
  {
    var x := Chosen(t);
    if !IsSet(t) then Disabled
    else if alone then Enabled(None, Some(DataOf(x)))
    else Enabled(MapOf(First(x)), if IsSet(Second(x)) then Some(DataOf(Chosen(Second(x)))) else None)
  }

  lemma SegmentsBack(alone: bool, t: Tree)
    requires Fits(SegmentationSyntax(alone), t)
    ensures SegmentsTree(SegmentsOf(alone, t), alone) == t && SegmentsFit(SegmentsOf(alone, t), alone)
  {
    hide Opt, SegmentDataSyntax, SegmentMapSyntax, DataTree, DataOf, DataFits, MapTree, MapOf, MapFits;
    var gd := SegmentDataSyntax();
    OptBack(if alone then gd else Then(SegmentMapSyntax(), Opt(gd)), t);
    if t.x == 1 {
      if alone {
        DataBack(t.chosen);
      } else {
        ThenBack(SegmentMapSyntax(), Opt(gd), t.chosen);
        MapBack(t.chosen.left);
        OptBack(gd, t.chosen.right);
        if t.chosen.right.x == 1 {
          DataBack(t.chosen.right.chosen);
        }
      }
    }
  }

  lemma {:induction false} OnesBack(t: Tree, most: nat)
    requires Fits(Increments(most), t)
    ensures Count(t) <= most && OnesTree(Count(t), most) == t
  {
    if most > 0 {
      OptBack(Increments(most - 1), t);
      if t.x == 1 {
        OnesBack(t.chosen, most - 1);
      }
    }
  }

  lemma RowsBack(t: Tree)
    requires Fits(Opt(Flag()), t)
    ensures var rows := Value(t) + Value(Chosen(t)); rows <= 2 && RowsTree(rows) == t
  {
    OptBack(Flag(), t);
    if t.x == 1 {
      FlagBack(t.chosen);
    }
  }

  /** The content of a header, from its trees. */
  function LayoutOf(x: Header): Layout
  {
    var p, t := PrefixOf(x.first), x.last;
    var lf, q := First(Second(t)), First(Second(Second(t)));
    var s, rest := First(Second(Second(Second(t)))), Second(Second(Second(Second(t))));
    var rows := First(Second(rest));
    var flags := First(First(t));
    Layout(p.profile, IsSet(Chosen(Chosen(First(Second(x.first))))), p.show, p.resilient, FrameOf(p, x.middle),
           IsSet(First(flags)), IsSet(Second(flags)), Value(Second(First(t))),
           Value(First(First(lf))), Value(Second(First(lf))), DeltasOf(Second(lf)),
           Value(First(q)), CodeOf(First(Second(q))), CodeOf(First(Second(Second(q)))),
           CodeOf(Second(Second(Second(q)))),
           SegmentsOf(Independent(p, x.middle), s), Count(First(rest)), Value(rows) + Value(Chosen(rows)),
           Value(Second(Second(rest))))
  }

  lemma QuantizationBack(h: Layout, t: Tree)
    requires Fits(QuantizationSyntax(), t)
    requires h.baseIdx == Value(First(t)) && h.yDc == CodeOf(First(Second(t)))
    requires h.uvDc == CodeOf(First(Second(Second(t)))) && h.uvAc == CodeOf(Second(Second(Second(t))))
    ensures QuantizationTree(h) == t
    ensures h.baseIdx < 256 && CodeFits(h.yDc, 16) && CodeFits(h.uvDc, 16) && CodeFits(h.uvAc, 16)
  {
    hide Opt, Su, Pow2, CodeTree, CodeOf, CodeFits;
    Widths();
    var d := Opt(Su(4));
    ThenBack(Field(8), Then(d, Then(d, d)), t);
    ThenBack(d, Then(d, d), t.right);
    ThenBack(d, d, t.right.right);
    CodeBack(t.right.left, 4);
    CodeBack(t.right.right.left, 4);
    CodeBack(t.right.right.right, 4);
  }

  lemma LoopFilterBack(h: Layout, t: Tree)
    requires Fits(LoopFilterSyntax(), t)
    requires h.level == Value(First(First(t))) && h.sharpness == Value(Second(First(t)))
    requires h.deltas == DeltasOf(Second(t))
    ensures LoopFilterTree(h) == t && h.level < 64 && h.sharpness < 8 && DeltasFit(h.deltas)
  {
    hide Opt, Su, Rep, Pow2, DeltasTree, DeltasOf, DeltasFit;
    Widths();
    var g := Opt(Opt(Then(Rep(Opt(Su(6)), 4), Rep(Opt(Su(6)), 2))));
    ThenBack(Then(Field(6), Field(3)), g, t);
    ThenBack(Field(6), Field(3), t.left);
    DeltasBack(t.right);
  }

  lemma ContextBack(h: Layout, t: Tree)
    requires Fits(Context(h.resilient), t)
    requires h.refreshContext == IsSet(First(First(t))) && h.parallel == IsSet(Second(First(t)))
    requires h.contextIndex == Value(Second(t))
    ensures ContextTree(h) == t && h.contextIndex < 4
  {
    Widths();
    ThenBack(if h.resilient then Empty else Then(Flag(), Flag()), Field(2), t);
    if !h.resilient {
      ThenBack(Flag(), Flag(), t.left);
      FlagBack(t.left.left);
      FlagBack(t.left.right);
    }
  }

  /** h says what the tree of a header's last part says. */
  predicate SaysLast(h: Layout, t: Tree)
  {
    var t1, t2, t3 := Second(t), Second(Second(t)), Second(Second(Second(t)));
    var t4 := Second(t3);
    var t5 := Second(t4);
    && h.refreshContext == IsSet(First(First(First(t)))) && h.parallel == IsSet(Second(First(First(t))))
    && h.contextIndex == Value(Second(First(t)))
    && h.level == Value(First(First(First(t1)))) && h.sharpness == Value(Second(First(First(t1))))
    && h.deltas == DeltasOf(Second(First(t1)))
    && h.baseIdx == Value(First(First(t2))) && h.yDc == CodeOf(First(Second(First(t2))))
    && h.uvDc == CodeOf(First(Second(Second(First(t2))))) && h.uvAc == CodeOf(Second(Second(Second(First(t2)))))
    && h.segments == SegmentsOf(Alone(h), First(t3))
    && h.tileOnes == Count(First(t4)) && h.tileRows == Value(First(t5)) + Value(Chosen(First(t5)))
    && h.firstPartitionSize == Value(Second(t5))
  }

  lemma LastBack(h: Layout, t: Tree, r: Range)
    requires r.least <= r.most && Fits(LastSyntax(Alone(h), h.resilient, r.most - r.least), t) && SaysLast(h, t)
    ensures LastFits(h, r) && LastTree(h, r) == t
  {
    var gc, gs, gi := Context(h.resilient), SegmentationSyntax(Alone(h)), Increments(r.most - r.least);
    var gr := Then(Opt(Flag()), Field(16));
    var gt := Then(gi, gr);
    hide Context, SegmentationSyntax, Increments, LoopFilterSyntax, QuantizationSyntax, Opt, Pow2, Alone;
    hide DeltasOf, CodeOf, SegmentsOf, Count, ContextTree, LoopFilterTree, QuantizationTree, SegmentsTree;
    hide OnesTree, RowsTree, DeltasFit, CodeFits, SegmentsFit, First, Second, Value, Chosen, IsSet;
    var t1, t2, t3 := Second(t), Second(Second(t)), Second(Second(Second(t)));
    var t4 := Second(t3);
    PartsBack(gc, Then(LoopFilterSyntax(), Then(QuantizationSyntax(), Then(gs, gt))), t);
    PartsBack(LoopFilterSyntax(), Then(QuantizationSyntax(), Then(gs, gt)), t1);
    PartsBack(QuantizationSyntax(), Then(gs, gt), t2);
    PartsBack(gs, gt, t3);
    hide Fits;
    ContextBack(h, First(t));
    LoopFilterBack(h, First(t1));
    QuantizationBack(h, First(t2));
    SegmentsBack(Alone(h), First(t3));
    TailBack(h, t4, r.most - r.least);
  }

  lemma TailBack(h: Layout, t: Tree, most: nat)
    requires Fits(Then(Increments(most), Then(Opt(Flag()), Field(16))), t)
    requires var u := Second(t);
      && h.tileOnes == Count(First(t)) && h.tileRows == Value(First(u)) + Value(Chosen(First(u)))
      && h.firstPartitionSize == Value(Second(u))
    ensures h.tileOnes <= most && h.tileRows <= 2 && h.firstPartitionSize < 65536
    ensures t == Both(OnesTree(h.tileOnes, most), Both(RowsTree(h.tileRows), Num(h.firstPartitionSize)))
  {
    hide Opt, Pow2, Count, OnesTree, RowsTree, Increments;
    PartsBack(Increments(most), Then(Opt(Flag()), Field(16)), t);
    PartsBack(Opt(Flag()), Field(16), Second(t));
    OnesBack(First(t), most);
    RowsBack(First(Second(t)));
    NumBack(Second(Second(t)));
  }

  lemma PartsBack(g1: Syntax, g2: Syntax, t: Tree)
    requires Fits(Then(g1, g2), t)
    ensures t == Both(First(t), Second(t)) && Fits(g1, First(t)) && Fits(g2, Second(t))
  {
  }

  lemma NumBack(t: Tree)
    requires Fits(Field(16), t)
    ensures t == Num(Value(t)) && Value(t) < 65536
  {
    hide Pow2;
    Widths();
  }

  lemma SaysAll(x: Header)
    ensures Alone(LayoutOf(x)) == Independent(PrefixOf(x.first), x.middle) && SaysLast(LayoutOf(x), x.last)
  {
    hide First, Second, Value, Chosen, PrefixOf, ColorsOf, AreaOf, RenderOf, ReferencesOf;
    hide FoundOf, FoundAreaOf, FilterOf;
    hide DeltasOf, CodeOf, SegmentsOf, Count;
  }

  lemma LayoutBack(x: Header, r: Range)
    requires r.least <= r.most && HeaderFits(x, r)
    ensures var h := LayoutOf(x);
      Valid(h, r) && PrintHeader(x, r) == LayoutBits(h, r) && FieldsOf(x, r) == Record(h, r)
  {
    var h := LayoutOf(x);
    assert PrefixFor(h) == PrefixOf(x.first) by {
      hide PrefixOf, ColorsOf, AreaOf, RenderOf, ReferencesOf, FoundOf, FoundAreaOf, FilterOf;
      hide DeltasOf, CodeOf, SegmentsOf, Count;
    }
    assert h.frame == FrameOf(PrefixOf(x.first), x.middle);
    assert h.reserved == IsSet(Chosen(Chosen(First(Second(x.first)))));
    SaysAll(x);
    hide FirstSyntax, MiddleSyntax, LastSyntax, FrameOf, LayoutOf, PrefixOf, StartTree, MiddleTree, LastTree;
    hide LayoutBits, Record, PrintHeader, FieldsOf, FrameFits, LastFits, PrefixFor;
    StartBack(h, x.first);
    MiddleBack(h, x.middle);
    assert PartThree(x.first, x.middle, r) == LastSyntax(Alone(h), h.resilient, r.most - r.least);
    hide PartThree, SaysLast;
    LastBack(h, x.last, r);
    LayoutShows(h, r);
  }

  /**
  The main result: a buffer parses if and only if it starts with the bits of a header, and the record is then the one
  that was meant.
  */
  lemma ParsesExactly(b: seq<bool>, r: Range)
    requires r.least <= r.most
    ensures ParseHeader(b, r).Some? <==> exists h :: Valid(h, r) && LayoutBits(h, r) <= b
    ensures forall h | Valid(h, r) && LayoutBits(h, r) <= b ::
      && ParseHeader(b, r).Some? && FieldsOf(ParseHeader(b, r).value.header, r) == Record(h, r)
      && b == LayoutBits(h, r) + ParseHeader(b, r).value.rest
  {
    hide ParseHeader, Valid, LayoutBits, PrintHeader, FieldsOf, Record, HeaderFits;
    forall h | Valid(h, r) && LayoutBits(h, r) <= b
      ensures ParseHeader(b, r).Some? && FieldsOf(ParseHeader(b, r).value.header, r) == Record(h, r)
      ensures b == LayoutBits(h, r) + ParseHeader(b, r).value.rest
    {
      var tail := b[|LayoutBits(h, r)|..];
      assert b == LayoutBits(h, r) + tail;
      LayoutParses(h, r, tail);
    }
    if ParseHeader(b, r).Some? {
      PrintParseHeader(b, r);
      var x := ParseHeader(b, r).value.header;
      LayoutBack(x, r);
      assert Valid(LayoutOf(x), r) && LayoutBits(LayoutOf(x), r) <= b;
    }
  }

  /** A header was accepted if and only if it is there, and the record is the one it means. */
  ghost predicate Decided(b: seq<bool>, r: Range, accepted: bool, out: HeaderFields)
  {
    && (accepted <==> exists h :: Valid(h, r) && LayoutBits(h, r) <= b)
    && forall h | Valid(h, r) && LayoutBits(h, r) <= b :: out == Record(h, r)
  }

  lemma Decides(b: seq<bool>, r: Range, accepted: bool, out: HeaderFields)
    requires r.least <= r.most && (accepted <==> ParseHeader(b, r).Some?)
    requires accepted ==> out == FieldsOf(ParseHeader(b, r).value.header, r)
    ensures Decided(b, r, accepted, out)
  {
    hide ParseHeader, Valid, LayoutBits, FieldsOf, Record;
    ParsesExactly(b, r);
  }
}
