/**
The parser of vp9_parser.c, statement by statement: it accepts exactly what the grammar accepts, and returns what the
grammar's tree means.
*/
module Vp9Parser {
  import opened Arithmetic
  import opened BoolDecoder
  import opened Options
  import opened BitSyntax
  import opened BitReader
  import opened Vp9Header
  import opened Vp9LayoutExact

  /** Going from c to c' parses g, and x is the meaning f gives to what was parsed. */
  ghost predicate Reads<T>(g: Syntax, c: Cursor, c': Cursor, x: T, f: Tree -> T)
  {
    Follows(g, c, c') && (!c'.past ==> !c.past && x == f(TreeAt(g, c)))
  }

  /** br_su. */
  method ReadSigned(br: Reader, n: nat) returns (x: int)
    requires br.Valid() && n <= 32
    modifies br
    ensures br.Valid() && Reads(Su(n), old(br.Now()), br.Now(), x, Signed)
  {
    hide Parse, TreeAt;
    var magnitude := br.U(n);
    ghost var c1 := br.Now();
    var negative := br.B();
    ThenFollows(Field(n), Field(1), old(br.Now()), c1, br.Now());
    if !br.oob {
      GotTree(1, c1, br.Now(), if negative then 1 else 0);
      GotTree(n, old(br.Now()), c1, magnitude);
    }
    x := magnitude;
    if negative {
      x := -x;
    }
  }

  /** A flag and a signed number behind it, as the loop-filter deltas and the features have it. */
  method ReadOptSigned(br: Reader, n: nat) returns (x: Option<int>)
    requires br.Valid() && n <= 32
    modifies br
    ensures br.Valid() && Reads(Opt(Su(n)), old(br.Now()), br.Now(), x, OptSigned)
  {
    hide Parse, TreeAt, Su;
    var present := br.B();
    ghost var c1 := br.Now();
    if present {
      var v := ReadSigned(br, n);
      x := Some(v);
    } else {
      x := None;
      NothingFollows(c1);
    }
    SwitchFollows(1, 1, Su(n), Empty, old(br.Now()), c1, if present then 1 else 0, br.Now());
  }

  /** br_delta_q. */
  method ReadDeltaQ(br: Reader) returns (x: int)
    requires br.Valid()
    modifies br
    ensures br.Valid() && Reads(Opt(Su(4)), old(br.Now()), br.Now(), x, t => DeltaOf(OptSigned(t)))
  {
    var o := ReadOptSigned(br, 4);
    x := if o.Some? then o.value else 0;
  }

  /** A loop over optional deltas. */
  method ReadDeltas(br: Reader, count: nat) returns (xs: seq<Option<int>>)
    requires br.Valid()
    modifies br
    ensures br.Valid() && |xs| == count
    ensures Reads(Rep(Opt(Su(6)), count), old(br.Now()), br.Now(), xs, t => SignedItems(t, count))
  {
    hide Parse, TreeAt, Su, Opt;
    xs := [];
    var i := 0;
    NothingFollows(br.Now());
    while i < count
      invariant br.Valid() && 0 <= i <= count && |xs| == i
      invariant Reads(Rep(Opt(Su(6)), i), old(br.Now()), br.Now(), xs, t => SignedItems(t, i))
    {
      ghost var c1 := br.Now();
      var x := ReadOptSigned(br, 6);
      ThenFollows(Rep(Opt(Su(6)), i), Opt(Su(6)), old(br.Now()), c1, br.Now());
      xs := xs + [x];
      i := i + 1;
    }
  }

  /** Fields nobody looks at. */
  method Skip(br: Reader, n: nat)
    requires br.Valid() && n <= 32
    modifies br
    ensures br.Valid() && Follows(Field(n), old(br.Now()), br.Now())
  {
    var _ := br.U(n);
  }

  method SkipTwo(br: Reader, n: nat, m: nat)
    requires br.Valid() && n <= 32 && m <= 32
    modifies br
    ensures br.Valid() && Follows(Then(Field(n), Field(m)), old(br.Now()), br.Now())
  {
    Skip(br, n);
    ghost var c1 := br.Now();
    Skip(br, m);
    ThenFollows(Field(n), Field(m), old(br.Now()), c1, br.Now());
  }

  /** Two 16-bit sizes behind a flag. */
  method SkipOptSize(br: Reader)
    requires br.Valid()
    modifies br
    ensures br.Valid() && Follows(Opt(Size()), old(br.Now()), br.Now())
  {
    hide Parse, TreeAt;
    var present := br.B();
    ghost var c1 := br.Now();
    if present {
      SkipTwo(br, 16, 16);
    } else {
      NothingFollows(c1);
    }
    SwitchFollows(1, 1, Size(), Empty, old(br.Now()), c1, if present then 1 else 0, br.Now());
  }

  /** skip_color_config. */
  method SkipColorConfig(br: Reader, profile: nat)
    requires br.Valid()
    modifies br
    ensures br.Valid() && Follows(Color(profile), old(br.Now()), br.Now())
  {
    hide Parse, TreeAt, Follows;
    ghost var c0 := br.Now();
    var odd := profile == 1 || profile == 3;
    if profile >= 2 {
      Skip(br, 1);
    } else {
      NothingFollows(c0);
    }
    ghost var c1 := br.Now();
    ghost var reserved := if odd then Flag() else Empty;
    ghost var subsampling := if odd then Then(Flag(), Then(Flag(), Flag())) else Empty;
    var colorSpace := br.U(3);
    ghost var c2 := br.Now();
    if colorSpace != 7 {
      Skip(br, 1);
      ghost var c3 := br.Now();
      if odd {
        Skip(br, 1);
        ghost var c4 := br.Now();
        SkipTwo(br, 1, 1);
        ThenFollows(Flag(), Then(Flag(), Flag()), c3, c4, br.Now());
      } else {
        NothingFollows(c3);
      }
      ThenFollows(Flag(), subsampling, c2, c3, br.Now());
    } else if odd {
      Skip(br, 1);
    } else {
      NothingFollows(c2);
    }
    SwitchFollows(3, 7, reserved, Then(Flag(), subsampling), c1, c2, colorSpace, br.Now());
    ThenFollows(if profile >= 2 then Flag() else Empty, Switch(3, 7, reserved, Then(Flag(), subsampling)),
                c0, c1, br.Now());
  }

  /** skip_frame_size. */
  method SkipFrameSize(br: Reader)
    requires br.Valid()
    modifies br
    ensures br.Valid() && Follows(FrameSize(), old(br.Now()), br.Now())
  {
    hide Parse, TreeAt, Follows;
    SkipTwo(br, 16, 16);
    ghost var c1 := br.Now();
    SkipOptSize(br);
    ThenFollows(Size(), Opt(Size()), old(br.Now()), c1, br.Now());
  }

  /** skip_frame_size_with_refs. */
  method SkipFrameSizeWithRefs(br: Reader)
    requires br.Valid()
    modifies br
    ensures br.Valid() && Follows(FrameSizeWithRefs(), old(br.Now()), br.Now())
  {
    hide Parse, TreeAt, Follows;
    SkipFoundRef(br, 3);
    ghost var c1 := br.Now();
    SkipOptSize(br);
    ThenFollows(FoundRef(3), Opt(Size()), old(br.Now()), c1, br.Now());
  }

  /** What the rest of a chain does, the whole chain does from where it started. */
  ghost predicate Continues(g: Syntax, c: Cursor, rest: Syntax, c1: Cursor)
  {
    forall c2 :: Follows(rest, c1, c2) ==> Follows(g, c, c2)
  }

  lemma SwitchContinues(g: Syntax, c: Cursor, same: Syntax, other: Syntax, c1: Cursor, c2: Cursor, x: nat)
    requires Continues(g, c, Switch(1, 1, same, other), c1) && Got(1, c1, c2, x)
    ensures Continues(g, c, if x == 1 then same else other, c2)
  {
  }

  /** The loop over the references, and the size that follows if none was found. */
  method SkipFoundRef(br: Reader, refs: nat)
    requires br.Valid()
    modifies br
    ensures br.Valid() && Follows(FoundRef(refs), old(br.Now()), br.Now())
  {
    hide Parse, TreeAt, Follows;
    var foundRef := false;
    var i := 0;
    while i < refs && !foundRef
      invariant br.Valid() && 0 <= i <= refs
      invariant !foundRef ==> Continues(FoundRef(refs), old(br.Now()), FoundRef(refs - i), br.Now())
      invariant foundRef ==> Follows(FoundRef(refs), old(br.Now()), br.Now())
      decreases refs - i, !foundRef
    {
      ghost var c1 := br.Now();
      foundRef := br.B();
      ghost var c2 := br.Now();
      if foundRef {
        NothingFollows(c2);
        SwitchFollows(1, 1, Empty, FoundRef(refs - i - 1), c1, c2, 1, c2);
      } else {
        SwitchContinues(FoundRef(refs), old(br.Now()), Empty, FoundRef(refs - i - 1), c1, c2, 0);
      }
      i := i + 1;
    }
    if !foundRef {
      SkipTwo(br, 16, 16);
    }
  }

  // ----- the parts of the last third

  /** refresh_frame_context and the rest, up to the loop filter. */
  method SkipContext(br: Reader, resilient: bool)
    requires br.Valid()
    modifies br
    ensures br.Valid() && Follows(Context(resilient), old(br.Now()), br.Now())
  {
    hide Parse, TreeAt, Follows;
    if !resilient {
      SkipTwo(br, 1, 1);
    } else {
      NothingFollows(br.Now());
    }
    ghost var c1 := br.Now();
    Skip(br, 2);
    ThenFollows(if resilient then Empty else Then(Flag(), Flag()), Field(2), old(br.Now()), c1, br.Now());
  }

  /** loop_filter_params. */
  method ReadLoopFilter(br: Reader) returns (lf: LoopFilter)
    requires br.Valid()
    modifies br
    ensures br.Valid() && Reads(LoopFilterSyntax(), old(br.Now()), br.Now(), lf, LoopFilterOf)
  {
    hide Parse, TreeAt, Follows, Rep, SignedItems;
    ghost var refs, modes := Rep(Opt(Su(6)), 4), Rep(Opt(Su(6)), 2);
    SkipTwo(br, 6, 3);
    ghost var c1 := br.Now();
    lf := NO_DELTAS;
    var enabled := br.B();
    ghost var c2 := br.Now();
    if enabled {
      lf := lf.(deltaEnabled := true);
      var updated := br.B();
      ghost var c3 := br.Now();
      if updated {
        var refDeltas := ReadDeltas(br, 4);
        ghost var c4 := br.Now();
        var modeDeltas := ReadDeltas(br, 2);
        ThenFollows(refs, modes, c3, c4, br.Now());
        lf := LoopFilter(true, true, refDeltas, modeDeltas);
      } else {
        NothingFollows(c3);
      }
      SwitchFollows(1, 1, Then(refs, modes), Empty, c2, c3, if updated then 1 else 0, br.Now());
    } else {
      NothingFollows(c2);
    }
    SwitchFollows(1, 1, Opt(Then(refs, modes)), Empty, c1, c2, if enabled then 1 else 0, br.Now());
    ThenFollows(Then(Field(6), Field(3)), Opt(Opt(Then(refs, modes))), old(br.Now()), c1, br.Now());
  }

  /** quantization_params. */
  method ReadQuantization(br: Reader) returns (q: Quantization)
    requires br.Valid()
    modifies br
    ensures br.Valid() && Reads(QuantizationSyntax(), old(br.Now()), br.Now(), q, QuantizationOf)
  {
    hide Parse, TreeAt, Follows;
    ghost var d := Opt(Su(4));
    var baseIdx := br.U(8);
    ghost var c1 := br.Now();
    var yDc := ReadDeltaQ(br);
    ghost var c2 := br.Now();
    var uvDc := ReadDeltaQ(br);
    ghost var c3 := br.Now();
    var uvAc := ReadDeltaQ(br);
    ThenFollows(d, d, c2, c3, br.Now());
    ThenFollows(d, Then(d, d), c1, c2, br.Now());
    ThenFollows(Field(8), Then(d, Then(d, d)), old(br.Now()), c1, br.Now());
    if !br.oob {
      GotTree(8, old(br.Now()), c1, baseIdx);
    }
    q := Quantization(baseIdx, yDc, uvDc, uvAc);
  }

  /** One segment's features. */
  method ReadFeature(br: Reader) returns (f: Feature)
    requires br.Valid()
    modifies br
    ensures br.Valid() && Reads(FeatureSyntax(), old(br.Now()), br.Now(), f, FeatureOf)
  {
    hide Parse, TreeAt, Follows, Su;
    var q := ReadOptSigned(br, 8);
    ghost var c1 := br.Now();
    var lf := ReadOptSigned(br, 6);
    ghost var c2 := br.Now();
    var ref: Option<int> := None;
    var refEnabled := br.B();
    ghost var c3 := br.Now();
    if refEnabled {
      var v := br.U(2);
      ref := Some(v);
      if !br.oob {
        GotTree(2, c3, br.Now(), v);
      }
    } else {
      NothingFollows(c3);
    }
    ghost var c4 := br.Now();
    SwitchFollows(1, 1, Field(2), Empty, c2, c3, if refEnabled then 1 else 0, c4);
    var skip := br.B();
    if !br.oob {
      GotTree(1, c4, br.Now(), if skip then 1 else 0);
    }
    ThenFollows(Opt(Field(2)), Flag(), c2, c4, br.Now());
    ThenFollows(Opt(Su(6)), Then(Opt(Field(2)), Flag()), c1, c2, br.Now());
    ThenFollows(Opt(Su(8)), Then(Opt(Su(6)), Then(Opt(Field(2)), Flag())), old(br.Now()), c1, br.Now());
    f := Feature(q, lf, ref, skip);
  }

  method ReadFeatures(br: Reader, count: nat) returns (fs: seq<Feature>)
    requires br.Valid()
    modifies br
    ensures br.Valid() && |fs| == count
    ensures Reads(Rep(FeatureSyntax(), count), old(br.Now()), br.Now(), fs, t => FeatureItems(t, count))
  {
    hide Parse, TreeAt, FeatureSyntax, FeatureOf;
    fs := [];
    var i := 0;
    NothingFollows(br.Now());
    while i < count
      invariant br.Valid() && 0 <= i <= count && |fs| == i
      invariant Reads(Rep(FeatureSyntax(), i), old(br.Now()), br.Now(), fs, t => FeatureItems(t, i))
    {
      ghost var c1 := br.Now();
      var f := ReadFeature(br);
      ThenFollows(Rep(FeatureSyntax(), i), FeatureSyntax(), old(br.Now()), c1, br.Now());
      fs := fs + [f];
      i := i + 1;
    }
  }

  method ReadSegmentData(br: Reader) returns (d: SegmentData)
    requires br.Valid()
    modifies br
    ensures br.Valid() && Reads(SegmentDataSyntax(), old(br.Now()), br.Now(), d, SegmentDataOf)
  {
    hide Parse, TreeAt, Follows, Rep, FeatureItems;
    var absolute := br.B();
    ghost var c1 := br.Now();
    var features := ReadFeatures(br, 8);
    ThenFollows(Flag(), Rep(FeatureSyntax(), 8), old(br.Now()), c1, br.Now());
    if !br.oob {
      GotTree(1, old(br.Now()), c1, if absolute then 1 else 0);
    }
    d := SegmentData(absolute, features);
  }

  /** Optional bytes, one after the other. */
  method SkipProbs(br: Reader, count: nat)
    requires br.Valid()
    modifies br
    ensures br.Valid() && Follows(Rep(Opt(Field(8)), count), old(br.Now()), br.Now())
  {
    hide Parse, TreeAt, Follows;
    var i := 0;
    NothingFollows(br.Now());
    while i < count
      invariant br.Valid() && 0 <= i <= count
      invariant Follows(Rep(Opt(Field(8)), i), old(br.Now()), br.Now())
    {
      ghost var c1 := br.Now();
      var present := br.B();
      ghost var c2 := br.Now();
      if present {
        Skip(br, 8);
      } else {
        NothingFollows(c2);
      }
      SwitchFollows(1, 1, Field(8), Empty, c1, c2, if present then 1 else 0, br.Now());
      ThenFollows(Rep(Opt(Field(8)), i), Opt(Field(8)), old(br.Now()), c1, br.Now());
      i := i + 1;
    }
  }

  /** segmentation_update_map and what it carries. */
  method SkipSegmentMap(br: Reader)
    requires br.Valid()
    modifies br
    ensures br.Valid() && Follows(SegmentMapSyntax(), old(br.Now()), br.Now())
  {
    hide Parse, TreeAt, Follows, Rep;
    ghost var tree, pred := Rep(Opt(Field(8)), 7), Rep(Opt(Field(8)), 3);
    var updateMap := br.B();
    ghost var c1 := br.Now();
    if updateMap {
      SkipProbs(br, 7);
      ghost var c2 := br.Now();
      var temporal := br.B();
      ghost var c3 := br.Now();
      if temporal {
        SkipProbs(br, 3);
      } else {
        NothingFollows(c3);
      }
      SwitchFollows(1, 1, pred, Empty, c2, c3, if temporal then 1 else 0, br.Now());
      ThenFollows(tree, Opt(pred), c1, c2, br.Now());
    } else {
      NothingFollows(c1);
    }
    SwitchFollows(1, 1, Then(tree, Opt(pred)), Empty, old(br.Now()), c1, if updateMap then 1 else 0, br.Now());
  }

  /** segmentation_params. */
  method ReadSegmentation(br: Reader, independent: bool) returns (s: Option<SegmentData>)
    requires br.Valid()
    modifies br
    ensures br.Valid()
    ensures Reads(SegmentationSyntax(independent), old(br.Now()), br.Now(), s, t => SegmentationOf(independent, t))
  {
    hide Parse, TreeAt, Follows, SegmentDataSyntax, SegmentMapSyntax, SegmentDataOf;
    ghost var data, map_ := SegmentDataSyntax(), SegmentMapSyntax();
    ghost var inside := if independent then data else Then(map_, Opt(data));
    s := None;
    var enabled := br.B();
    ghost var c1 := br.Now();
    if enabled {
      var updateData := true;
      ghost var c2 := c1;
      if !independent {
        SkipSegmentMap(br);
        c2 := br.Now();
        updateData := br.B();
      }
      ghost var c3 := br.Now();
      if updateData {
        var d := ReadSegmentData(br);
        s := Some(d);
      } else {
        NothingFollows(c3);
      }
      if !independent {
        SwitchFollows(1, 1, data, Empty, c2, c3, if updateData then 1 else 0, br.Now());
        ThenFollows(map_, Opt(data), c1, c2, br.Now());
      }
    } else {
      NothingFollows(c1);
    }
    SwitchFollows(1, 1, inside, Empty, old(br.Now()), c1, if enabled then 1 else 0, br.Now());
  }

  // ----- tiles

  lemma {:induction false} ShrBelow(x: nat, k: nat, n: nat)
    requires Shr(x, n) < k
    ensures x < Shl(k, n)
    decreases n
  {
    if n > 0 {
      ShrBelow(x, 2 * k, n - 1);
      ShlFront(k, n);
    }
  }

  /** The driver's guard for a maximum below the minimum never applies. */
  lemma RangeNotEmpty(blocks: nat, least: nat, most: nat)
    requires IsMinLog2(blocks, least) && IsMaxLog2(blocks, most)
    ensures least <= most
  {
    if most < least {
      ShrBelow(blocks, 4, most + 1);
      ShlFront(4, most + 1);
      ShlOrder(8, 64, most);
      ShlGrows(64, most, least - 1);
      assert false;
    }
  }

  /** compute_log2_tile_cols_range. */
  method TileColsRange(frameWidth: nat) returns (r: Range)
    ensures IsTileRange(frameWidth, r)
  {
    var blocks := Sb64Cols(frameWidth);
    var mn, mx := 0, 1;
    while Shl(64, mn) < blocks
      invariant mn > 0 ==> Shl(64, mn - 1) < blocks
      decreases blocks - Shl(64, mn)
    {
      ShlOrder(1, 64, mn);
      ShlPositive(mn);
      mn := mn + 1;
      assert Shl(64, mn) < WORD;
    }
    while Shr(blocks, mx) >= 4
      invariant mx >= 1 && (mx > 1 ==> Shr(blocks, mx - 1) >= 4)
      decreases Shr(blocks, mx)
    {
      mx := mx + 1;
    }
    if mx > 0 {
      mx := mx - 1;
    }
    RangeNotEmpty(blocks, mn, mx);
    if mx < mn {
      mx := mn;
    }
    r := Range(mn, mx);
  }

  lemma {:induction false} ShlPositive(n: nat)
    ensures Shl(1, n) >= 1
  {
    if n > 0 {
      ShlPositive(n - 1);
    }
  }

  lemma {:induction false} ShrShrinks(x: nat, m: nat, n: nat)
    requires m <= n
    ensures Shr(x, n) <= Shr(x, m)
  {
    if m < n {
      ShrShrinks(x, m, n - 1);
    }
  }

  lemma TileRangeOnce(frameWidth: nat, r: Range, r': Range)
    requires IsTileRange(frameWidth, r) && IsTileRange(frameWidth, r')
    ensures r == r'
  {
    var blocks := Sb64Cols(frameWidth);
    if r.least < r'.least {
      ShlGrows(64, r.least, r'.least - 1);
    } else if r'.least < r.least {
      ShlGrows(64, r'.least, r.least - 1);
    }
    if r.most < r'.most {
      ShrShrinks(blocks, r.most + 1, r'.most);
    } else if r'.most < r.most {
      ShrShrinks(blocks, r'.most + 1, r.most);
    }
  }

  /** Like Continues, with the ones read so far. */
  ghost predicate Counts(g: Syntax, c: Cursor, rest: Syntax, c1: Cursor, k: nat)
  {
    forall c2 :: Follows(rest, c1, c2) ==>
      Follows(g, c, c2) && (!c2.past ==> Count(TreeAt(g, c)) == k + Count(TreeAt(rest, c1)))
  }

  lemma CountsOn(g: Syntax, c: Cursor, same: Syntax, c1: Cursor, c2: Cursor, x: nat, k: nat)
    requires Counts(g, c, Opt(same), c1, k) && Got(1, c1, c2, x)
    ensures Counts(g, c, if x == 1 then same else Empty, c2, if x == 1 then k + 1 else k)
  {
  }

  lemma EmptyCount(c: Cursor)
    ensures Count(TreeAt(Empty, c)) == 0
  {
  }

  /** The increments of tile_cols_log2. */
  method ReadTileCols(br: Reader, r: Range) returns (cols: nat)
    requires br.Valid() && r.least <= r.most
    modifies br
    ensures br.Valid()
    ensures var g := Increments(r.most - r.least);
      Follows(g, old(br.Now()), br.Now()) && (!br.oob ==> cols == r.least + Count(TreeAt(g, old(br.Now()))))
  {
    hide Parse, TreeAt, Follows;
    ghost var all := Increments(r.most - r.least);
    cols := r.least;
    var more := true;
    while cols < r.most && more
      invariant br.Valid() && r.least <= cols <= r.most
      invariant Counts(all, old(br.Now()), if more then Increments(r.most - cols) else Empty, br.Now(), cols - r.least)
      decreases r.most - cols, more
    {
      ghost var c1 := br.Now();
      more := br.B();
      CountsOn(all, old(br.Now()), Increments(r.most - cols - 1), c1, br.Now(), if more then 1 else 0, cols - r.least);
      if more {
        cols := cols + 1;
      }
    }
    NothingFollows(br.Now());
    EmptyCount(br.Now());
  }

  lemma FollowsPast(g: Syntax, c: Cursor, c': Cursor)
    ensures Follows(g, c, c') && c.past ==> c'.past
  {
  }

  /** tile_rows_log2. */
  method ReadTileRows(br: Reader) returns (rows: nat)
    requires br.Valid()
    modifies br
    ensures br.Valid()
    ensures Follows(Opt(Flag()), old(br.Now()), br.Now())
    ensures var t := TreeAt(Opt(Flag()), old(br.Now())); !br.oob ==> rows == Value(t) + Value(Chosen(t))
  {
    hide Parse, TreeAt, Follows;
    rows := br.U(1);
    ghost var c1, first := br.Now(), rows;
    OneBit(old(br.Now()), c1, rows);
    if rows != 0 {
      var more := br.U(1);
      if !br.oob {
        GotTree(1, c1, br.Now(), more);
      }
      GotFollows(1, c1, br.Now(), more);
      rows := rows + more;
    } else {
      NothingFollows(c1);
      EmptyTree(c1);
    }
    SwitchFollows(1, 1, Flag(), Empty, old(br.Now()), c1, first, br.Now());
  }

  lemma EmptyTree(c: Cursor)
    ensures TreeAt(Empty, c) == Nothing
  {
  }

  lemma GotFollows(n: nat, c: Cursor, c': Cursor, x: nat)
    requires Got(n, c, c', x)
    ensures Follows(Field(n), c, c')
  {
  }

  function TailSyntax(most: nat): Syntax
  {
    Then(Increments(most), Then(Opt(Flag()), Field(16)))
  }

  datatype Tail = Tail(cols: nat, rows: nat, size: nat)

  function TailOf(least: nat, t: Tree): Tail
  {
    var rows := First(Second(t));
    Tail(least + Count(First(t)), Value(rows) + Value(Chosen(rows)), Value(Second(Second(t))))
  }

  lemma TailOfParts(least: nat, cols: Tree, rows: Tree, size: nat)
    ensures TailOf(least, Both(cols, Both(rows, Num(size))))
      == Tail(least + Count(cols), Value(rows) + Value(Chosen(rows)), size)
  {
  }

  /** tile_info, and the size of the compressed header. */
  method ReadTail(br: Reader, r: Range) returns (x: Tail)
    requires br.Valid() && r.least <= r.most
    modifies br
    ensures br.Valid()
    ensures var g := TailSyntax(r.most - r.least);
      Follows(g, old(br.Now()), br.Now()) && (!br.oob ==> x == TailOf(r.least, TreeAt(g, old(br.Now()))))
  {
    hide Parse, TreeAt, Follows, Increments, Count, TailOf;
    ghost var inc := Increments(r.most - r.least);
    var cols := ReadTileCols(br, r);
    ghost var c1 := br.Now();
    var rows := ReadTileRows(br);
    ghost var c2 := br.Now();
    var size := br.U(16);
    if !br.oob {
      GotTree(16, c2, br.Now(), size);
    }
    ThenFollows(Opt(Flag()), Field(16), c1, c2, br.Now());
    ThenFollows(inc, Then(Opt(Flag()), Field(16)), old(br.Now()), c1, br.Now());
    TailOfParts(r.least, TreeAt(inc, old(br.Now())), TreeAt(Opt(Flag()), c1), size);
    x := Tail(cols, rows, size);
  }

  lemma LastFieldsOfParts(independent: bool, least: nat, context: Tree, lf: Tree, q: Tree, s: Tree, tail: Tree)
    ensures LastFields(independent, least, Both(context, Both(lf, Both(q, Both(s, tail))))) ==
      FieldsOfParts(LoopFilterOf(lf), QuantizationOf(q), SegmentationOf(independent, s), TailOf(least, tail))
  {
  }

  function FieldsOfParts(lf: LoopFilter, q: Quantization, s: Option<SegmentData>, tail: Tail): HeaderFields
  {
    HeaderFields(lf, q, q.baseIdx == 0 && q.yDc == 0 && q.uvDc == 0 && q.uvAc == 0, s, tail.cols, tail.rows, tail.size)
  }

  /** Everything from refresh_frame_context on. */
  method ReadLast(br: Reader, independent: bool, resilient: bool, r: Range) returns (out: HeaderFields)
    requires br.Valid() && r.least <= r.most
    modifies br
    ensures br.Valid()
    ensures Reads(LastSyntax(independent, resilient, r.most - r.least), old(br.Now()), br.Now(), out,
                  t => LastFields(independent, r.least, t))
  {
    hide Parse, TreeAt, Follows, Context, LoopFilterSyntax, QuantizationSyntax, SegmentationSyntax, TailSyntax;
    hide LoopFilterOf, QuantizationOf, SegmentationOf, TailOf, LastFields;
    ghost var lfs, qs, seg, tails :=
      LoopFilterSyntax(), QuantizationSyntax(), SegmentationSyntax(independent), TailSyntax(r.most - r.least);
    SkipContext(br, resilient);
    ghost var c1 := br.Now();
    var lf := ReadLoopFilter(br);
    ghost var c2 := br.Now();
    var q := ReadQuantization(br);
    ghost var c3 := br.Now();
    var s := ReadSegmentation(br, independent);
    ghost var c4 := br.Now();
    var tail := ReadTail(br, r);
    ThenFollows(seg, tails, c3, c4, br.Now());
    ThenFollows(qs, Then(seg, tails), c2, c3, br.Now());
    ThenFollows(lfs, Then(qs, Then(seg, tails)), c1, c2, br.Now());
    ThenFollows(Context(resilient), Then(lfs, Then(qs, Then(seg, tails))), old(br.Now()), c1, br.Now());
    LastFieldsOfParts(independent, r.least, TreeAt(Context(resilient), old(br.Now())), TreeAt(lfs, c1), TreeAt(qs, c2),
                      TreeAt(seg, c3), TreeAt(tails, c4));
    out := FieldsOfParts(lf, q, s, tail);
    TailIsLast(independent, resilient, r.most - r.least);
  }

  lemma TailIsLast(independent: bool, resilient: bool, most: nat)
    ensures LastSyntax(independent, resilient, most) ==
      Then(Context(resilient), Then(LoopFilterSyntax(), Then(QuantizationSyntax(),
           Then(SegmentationSyntax(independent), TailSyntax(most)))))
  {
  }

  // ----- the first two thirds, where the parser may give up

  ghost predicate Rejects(g: Syntax, c: Cursor)
  {
    c.past || Parse(g, c.left) == None
  }

  lemma ThenRejects(g1: Syntax, g2: Syntax, c: Cursor, c1: Cursor)
    ensures Rejects(g1, c) ==> Rejects(Then(g1, g2), c)
    ensures Follows(g1, c, c1) && Rejects(g2, c1) ==> Rejects(Then(g1, g2), c)
  {
  }

  lemma SwitchRejects(n: nat, key: nat, same: Syntax, other: Syntax, c: Cursor, c1: Cursor, x: nat)
    requires Got(n, c, c1, x) && Rejects(if x == key then same else other, c1)
    ensures Rejects(Switch(n, key, same, other), c)
  {
  }

  /** A fixed code: frame marker, sync code. */
  method Expect(br: Reader, n: nat, code: nat) returns (ok: bool)
    requires br.Valid() && n <= 32
    modifies br
    ensures br.Valid()
    ensures if ok then Follows(Const(n, code), old(br.Now()), br.Now()) else Rejects(Const(n, code), old(br.Now()))
  {
    hide Follows;
    var x := br.U(n);
    ok := x == code;
    if ok {
      NothingFollows(br.Now());
      SwitchFollows(n, code, Empty, Fail, old(br.Now()), br.Now(), x, br.Now());
    } else {
      SwitchRejects(n, code, Empty, Fail, old(br.Now()), br.Now(), x);
    }
  }

  lemma ProfileFollows(low: nat, high: nat, profile: nat, c: Cursor, c1: Cursor, c2: Cursor, c3: Cursor)
    requires Got(1, c, c1, low) && Got(1, c1, c2, high) && low < 2 && high < 2 && profile == low + 2 * high
    requires if low == 1 && high == 1 then Follows(Flag(), c2, c3) else c3 == c2
    ensures Reads(ProfileSyntax(), c, c3, profile, ProfileOf)
  {
    hide Parse, TreeAt, Follows;
    ghost var odd := Switch(1, 1, Field(1), Empty);
    NothingFollows(c2);
    EmptyTree(c2);
    if low == 1 {
      SwitchFollows(1, 1, Field(1), Empty, c1, c2, high, c3);
    } else {
      GotFollows(1, c1, c2, high);
      if !c3.past {
        GotTree(1, c1, c2, high);
      }
    }
    SwitchFollows(1, 1, odd, Field(1), c, c1, low, c3);
    FollowsPast(ProfileSyntax(), c, c3);
  }

  method ReadProfile(br: Reader) returns (profile: nat)
    requires br.Valid()
    modifies br
    ensures br.Valid() && Reads(ProfileSyntax(), old(br.Now()), br.Now(), profile, ProfileOf)
  {
    hide Parse, TreeAt, Follows, ProfileSyntax, ProfileOf;
    var low := br.U(1);
    ghost var c1 := br.Now();
    OneBit(old(br.Now()), c1, low);
    var high := br.U(1);
    ghost var c2 := br.Now();
    OneBit(c1, c2, high);
    profile := low + 2 * high;
    if profile == 3 {
      Skip(br, 1);
    }
    ProfileFollows(low, high, profile, old(br.Now()), c1, c2, br.Now());
  }

  method ReadPrefix(br: Reader) returns (ok: bool, p: Prefix)
    requires br.Valid()
    modifies br
    ensures br.Valid()
    ensures if ok then Reads(FirstSyntax(), old(br.Now()), br.Now(), p, PrefixOf)
            else Rejects(FirstSyntax(), old(br.Now()))
  {
    hide Parse, TreeAt, Follows, Rejects, ProfileSyntax, ProfileOf;
    ghost var flags := Then(Flag(), Then(Flag(), Flag()));
    ghost var tail := Then(Const(1, 0), flags);
    p := Prefix(0, false, false, false);
    ghost var c0 := br.Now();
    ok := Expect(br, 2, FRAME_MARKER);
    ghost var c1 := br.Now();
    ThenRejects(Const(2, FRAME_MARKER), Then(ProfileSyntax(), tail), c0, c1);
    if !ok {
      return;
    }
    var profile := ReadProfile(br);
    ghost var c2 := br.Now();
    ThenRejects(ProfileSyntax(), tail, c1, c2);
    ok := Expect(br, 1, 0);
    ghost var c3 := br.Now();
    ThenRejects(Const(1, 0), flags, c2, c3);
    if !ok {
      return;
    }
    var notKey := br.B();
    ghost var c4 := br.Now();
    var show := br.B();
    ghost var c5 := br.Now();
    var resilient := br.B();
    if !br.oob {
      GotTree(1, c5, br.Now(), if resilient then 1 else 0);
      GotTree(1, c4, c5, if show then 1 else 0);
      GotTree(1, c3, c4, if notKey then 1 else 0);
    }
    ThenFollows(Flag(), Flag(), c4, c5, br.Now());
    ThenFollows(Flag(), Then(Flag(), Flag()), c3, c4, br.Now());
    ThenFollows(Const(1, 0), flags, c2, c3, br.Now());
    ThenFollows(ProfileSyntax(), tail, c1, c2, br.Now());
    ThenFollows(Const(2, FRAME_MARKER), Then(ProfileSyntax(), tail), c0, c1, br.Now());
    p := Prefix(profile, !notKey, show, resilient);
  }

  method SkipKeyFrame(br: Reader, profile: nat) returns (ok: bool)
    requires br.Valid()
    modifies br
    ensures br.Valid()
    ensures if ok then Follows(KeyFrame(profile), old(br.Now()), br.Now())
            else Rejects(KeyFrame(profile), old(br.Now()))
  {
    hide Parse, TreeAt, Follows, Rejects, Color, FrameSize;
    ok := Expect(br, 24, SYNC_CODE);
    ghost var c1 := br.Now();
    ThenRejects(Const(24, SYNC_CODE), Then(Color(profile), FrameSize()), old(br.Now()), c1);
    if ok {
      SkipColorConfig(br, profile);
      ghost var c2 := br.Now();
      SkipFrameSize(br);
      ThenFollows(Color(profile), FrameSize(), c1, c2, br.Now());
      ThenFollows(Const(24, SYNC_CODE), Then(Color(profile), FrameSize()), old(br.Now()), c1, br.Now());
    }
  }

  method SkipIntraOnly(br: Reader, profile: nat) returns (ok: bool)
    requires br.Valid()
    modifies br
    ensures br.Valid()
    ensures if ok then Follows(IntraOnly(profile), old(br.Now()), br.Now())
            else Rejects(IntraOnly(profile), old(br.Now()))
  {
    hide Parse, TreeAt, Follows, Rejects, Color, FrameSize;
    ghost var color := if profile > 0 then Color(profile) else Empty;
    ok := Expect(br, 24, SYNC_CODE);
    ghost var c1 := br.Now();
    ThenRejects(Const(24, SYNC_CODE), Then(color, Then(Field(8), FrameSize())), old(br.Now()), c1);
    if ok {
      if profile > 0 {
        SkipColorConfig(br, profile);
      } else {
        NothingFollows(c1);
      }
      ghost var c2 := br.Now();
      Skip(br, 8);
      ghost var c3 := br.Now();
      SkipFrameSize(br);
      ThenFollows(Field(8), FrameSize(), c2, c3, br.Now());
      ThenFollows(color, Then(Field(8), FrameSize()), c1, c2, br.Now());
      ThenFollows(Const(24, SYNC_CODE), Then(color, Then(Field(8), FrameSize())), old(br.Now()), c1, br.Now());
    }
  }

  method SkipRefs(br: Reader, count: nat)
    requires br.Valid()
    modifies br
    ensures br.Valid() && Follows(Rep(Then(Field(3), Flag()), count), old(br.Now()), br.Now())
  {
    hide Parse, TreeAt, Follows;
    var i := 0;
    NothingFollows(br.Now());
    while i < count
      invariant br.Valid() && 0 <= i <= count
      invariant Follows(Rep(Then(Field(3), Flag()), i), old(br.Now()), br.Now())
    {
      ghost var c1 := br.Now();
      SkipTwo(br, 3, 1);
      ThenFollows(Rep(Then(Field(3), Flag()), i), Then(Field(3), Flag()), old(br.Now()), c1, br.Now());
      i := i + 1;
    }
  }

  method SkipInter(br: Reader)
    requires br.Valid()
    modifies br
    ensures br.Valid() && Follows(Inter(), old(br.Now()), br.Now())
  {
    hide Parse, TreeAt, Follows, Rep, FrameSizeWithRefs;
    ghost var refs, filter := Rep(Then(Field(3), Flag()), 3), Switch(1, 0, Field(2), Empty);
    Skip(br, 8);
    ghost var c1 := br.Now();
    SkipRefs(br, 3);
    ghost var c2 := br.Now();
    SkipFrameSizeWithRefs(br);
    ghost var c3 := br.Now();
    Skip(br, 1);
    ghost var c4 := br.Now();
    var switchable := br.B();
    ghost var c5 := br.Now();
    if !switchable {
      Skip(br, 2);
    } else {
      NothingFollows(c5);
    }
    SwitchFollows(1, 0, Field(2), Empty, c4, c5, if switchable then 1 else 0, br.Now());
    ThenFollows(Flag(), filter, c3, c4, br.Now());
    ThenFollows(FrameSizeWithRefs(), Then(Flag(), filter), c2, c3, br.Now());
    ThenFollows(refs, Then(FrameSizeWithRefs(), Then(Flag(), filter)), c1, c2, br.Now());
    ThenFollows(Field(8), Then(refs, Then(FrameSizeWithRefs(), Then(Flag(), filter))), old(br.Now()), c1, br.Now());
  }

  /** From refresh_frame_flags or the sync code up to refresh_frame_context. */
  method ReadMiddle(br: Reader, p: Prefix) returns (ok: bool, intraOnly: bool)
    requires br.Valid()
    modifies br
    ensures br.Valid()
    ensures if ok then Reads(MiddleSyntax(p), old(br.Now()), br.Now(), intraOnly, t => IntraOnlyOf(p, t))
            else Rejects(MiddleSyntax(p), old(br.Now()))
  {
    hide Parse, TreeAt, Follows, Rejects, KeyFrame, IntraOnly, Inter, ResetContext;
    ghost var c0, reset := br.Now(), ResetContext(p.resilient);
    ok, intraOnly := true, false;
    if p.key {
      ok := SkipKeyFrame(br, p.profile);
      FollowsPast(KeyFrame(p.profile), c0, br.Now());
      return;
    }
    ghost var intra, inter := Then(reset, IntraOnly(p.profile)), Then(reset, Inter());
    if !p.show {
      intraOnly := br.B();
    }
    ghost var c1 := br.Now();
    if !p.resilient {
      Skip(br, 2);
    }
    ghost var c2 := br.Now();
    ResetFollows(p.resilient, c1, c2);
    if intraOnly {
      ok := SkipIntraOnly(br, p.profile);
      ThenRejects(reset, IntraOnly(p.profile), c1, c2);
    } else {
      SkipInter(br);
    }
    if ok {
      ThenFollows(reset, if intraOnly then IntraOnly(p.profile) else Inter(), c1, c2, br.Now());
    }
    if !p.show {
      if ok {
        SwitchFollows(1, 1, intra, inter, c0, c1, if intraOnly then 1 else 0, br.Now());
      } else {
        SwitchRejects(1, 1, intra, inter, c0, c1, if intraOnly then 1 else 0);
      }
    }
    FollowsPast(MiddleSyntax(p), c0, br.Now());
  }

  lemma ResetFollows(resilient: bool, c: Cursor, c': Cursor)
    requires if resilient then c' == c else Follows(Field(2), c, c')
    ensures Follows(ResetContext(resilient), c, c')
  {
  }

  lemma FirstRejects(c0: Cursor, r: Range)
    requires !c0.past && Rejects(FirstSyntax(), c0)
    ensures ParseHeader(c0.left, r) == None
  {
  }

  lemma MiddleRejects(c0: Cursor, c1: Cursor, p: Prefix, r: Range)
    requires !c0.past && Reads(FirstSyntax(), c0, c1, p, PrefixOf) && Rejects(MiddleSyntax(p), c1)
    ensures ParseHeader(c0.left, r) == None
  {
  }

  lemma LastReads(
    c0: Cursor, c1: Cursor, c2: Cursor, c3: Cursor, p: Prefix, intraOnly: bool, out: HeaderFields, r: Range)
    requires !c0.past && r.least <= r.most && Reads(FirstSyntax(), c0, c1, p, PrefixOf)
    requires Reads(MiddleSyntax(p), c1, c2, intraOnly, t => IntraOnlyOf(p, t))
    requires var independent := p.key || intraOnly || p.resilient;
      Reads(LastSyntax(independent, p.resilient, r.most - r.least), c2, c3, out,
            t => LastFields(independent, r.least, t))
    ensures ParseHeader(c0.left, r) == None <==> c3.past
    ensures !c3.past ==> out == FieldsOf(ParseHeader(c0.left, r).value.header, r)
  {
    hide Parse, FirstSyntax, MiddleSyntax, LastSyntax, PrefixOf, IntraOnlyOf, LastFields;
  }

  lemma RangeOrdered(frameWidth: nat, r: Range)
    requires IsTileRange(frameWidth, r)
    ensures r.least <= r.most
  {
  }

  /** vp9_parse_uncompressed_header. */
  method ParseUncompressedHeader(buffer: array?<byte>, size: nat, frameWidth: nat) returns (rc: int, out: HeaderFields)
    requires buffer != null ==> size <= buffer.Length
    ensures rc in {0, -1}
    ensures if buffer == null then rc == -1 else exists r :: IsTileRange(frameWidth, r)
    ensures buffer != null ==> forall r | IsTileRange(frameWidth, r) ::
      var p := ParseHeader(BitsOf(buffer[..size]), r);
      (rc == 0 <==> p.Some?) && (rc == 0 ==> out == FieldsOf(p.value.header, r))
    ensures buffer != null ==> forall r | IsTileRange(frameWidth, r) :: Decided(BitsOf(buffer[..size]), r, rc == 0, out)
  {
    hide Parse, TreeAt, Follows, Rejects, FirstSyntax, MiddleSyntax, LastSyntax, LastFields, IntraOnlyOf, PrefixOf;
    hide IsTileRange, Decided;
    out := HeaderFields(NO_DELTAS, Quantization(0, 0, 0, 0), false, None, 0, 0, 0);
    rc := -1;
    if buffer == null {
      return;
    }
    ghost var bits := BitsOf(buffer[..size]);
    var r := TileColsRange(frameWidth);
    forall r' | IsTileRange(frameWidth, r')
      ensures r' == r
    {
      TileRangeOnce(frameWidth, r, r');
    }
    RangeOrdered(frameWidth, r);
    if size < 4 {
      if ParseHeader(bits, r).Some? {
        HeaderHasFourBytes(bits, r);
        assert false;
      }
      Decides(bits, r, false, out);
      return;
    }
    var br := new Reader(buffer[..size]);
    ghost var c0 := br.Now();
    var ok, p := ReadPrefix(br);
    ghost var c1 := br.Now();
    if !ok {
      FirstRejects(c0, r);
      Decides(bits, r, false, out);
      return;
    }
    var intraOnly: bool;
    ok, intraOnly := ReadMiddle(br, p);
    ghost var c2 := br.Now();
    if !ok {
      MiddleRejects(c0, c1, p, r);
      Decides(bits, r, false, out);
      return;
    }
    var independent := p.key || intraOnly || p.resilient;
    out := ReadLast(br, independent, p.resilient, r);
    LastReads(c0, c1, c2, br.Now(), p, intraOnly, out, r);
    rc := if br.oob then -1 else 0;
    Decides(bits, r, rc == 0, out);
  }
}
