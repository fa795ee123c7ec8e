/**
The VP9 uncompressed header as the driver reads it (vp9_parser.c): its grammar, and the record the parser hands on.
Section 6.2 of the VP9 bitstream specification, except that on key, intra-only and error-resilient frames the driver
reads no segmentation update_map or update_data bit.
*/
module Vp9Header {
  import opened Arithmetic
  import opened BoolDecoder
  import opened Options
  import opened BitSyntax

  const SYNC_CODE := 0x498342
  const FRAME_MARKER := 2

  // ----- the grammar, in three parts, each given what the ones before it read

  function Flag(): Syntax
  {
    Field(1)
  }

  /** Low bit, high bit, and a reserved bit for profile 3. */
  function ProfileSyntax(): Syntax
  {
    Switch(1, 1, Switch(1, 1, Field(1), Empty), Field(1))
  }

  function FirstSyntax(): Syntax
  {
    Then(Const(2, FRAME_MARKER), Then(ProfileSyntax(), Then(Const(1, 0), Then(Flag(), Then(Flag(), Flag())))))
  }

  function Color(profile: nat): Syntax
  {
    var odd := profile == 1 || profile == 3;
    Then(if profile >= 2 then Flag() else Empty,
         Switch(3, 7, if odd then Flag() else Empty,
                Then(Flag(), if odd then Then(Flag(), Then(Flag(), Flag())) else Empty)))
  }

  function Size(): Syntax
  {
    Then(Field(16), Field(16))
  }

  function FrameSize(): Syntax
  {
    Then(Size(), Opt(Size()))
  }

  /** One bit for each reference up to the first that is set; a size if none is. */
  function FoundRef(refs: nat): Syntax
  {
    if refs == 0 then Size() else Switch(1, 1, Empty, FoundRef(refs - 1))
  }

  function FrameSizeWithRefs(): Syntax
  {
    Then(FoundRef(3), Opt(Size()))
  }

  function ResetContext(resilient: bool): Syntax
  {
    if resilient then Empty else Field(2)
  }

  function KeyFrame(profile: nat): Syntax
  {
    Then(Const(24, SYNC_CODE), Then(Color(profile), FrameSize()))
  }

  function IntraOnly(profile: nat): Syntax
  {
    Then(Const(24, SYNC_CODE), Then(if profile > 0 then Color(profile) else Empty, Then(Field(8), FrameSize())))
  }

  function Inter(): Syntax
  {
    Then(Field(8), Then(Rep(Then(Field(3), Flag()), 3),
         Then(FrameSizeWithRefs(), Then(Flag(), Switch(1, 0, Field(2), Empty)))))
  }

  function MiddleSyntax(p: Prefix): Syntax
  {
    if p.key then KeyFrame(p.profile)
    else if p.show then Then(ResetContext(p.resilient), Inter())
    else Switch(1, 1, Then(ResetContext(p.resilient), IntraOnly(p.profile)), Then(ResetContext(p.resilient), Inter()))
  }

  function Context(resilient: bool): Syntax
  {
    Then(if resilient then Empty else Then(Flag(), Flag()), Field(2))
  }

  /** su(n): a magnitude and a sign. */
  function Su(n: nat): Syntax
  {
    Then(Field(n), Flag())
  }

  function LoopFilterSyntax(): Syntax
  {
    Then(Then(Field(6), Field(3)), Opt(Opt(Then(Rep(Opt(Su(6)), 4), Rep(Opt(Su(6)), 2)))))
  }

  function QuantizationSyntax(): Syntax
  {
    Then(Field(8), Then(Opt(Su(4)), Then(Opt(Su(4)), Opt(Su(4)))))
  }

  function FeatureSyntax(): Syntax
  {
    Then(Opt(Su(8)), Then(Opt(Su(6)), Then(Opt(Field(2)), Flag())))
  }

  function SegmentDataSyntax(): Syntax
  {
    Then(Flag(), Rep(FeatureSyntax(), 8))
  }

  function SegmentMapSyntax(): Syntax
  {
    Opt(Then(Rep(Opt(Field(8)), 7), Opt(Rep(Opt(Field(8)), 3))))
  }

  function SegmentationSyntax(independent: bool): Syntax
  {
    Opt(if independent then SegmentDataSyntax() else Then(SegmentMapSyntax(), Opt(SegmentDataSyntax())))
  }

  /** Ones up to the first zero, `most` of them at most. */
  function Increments(most: nat): Syntax
  {
    if most == 0 then Empty else Opt(Increments(most - 1))
  }

  function LastSyntax(independent: bool, resilient: bool, most: nat): Syntax
  {
    Then(Context(resilient), Then(LoopFilterSyntax(), Then(QuantizationSyntax(), Then(SegmentationSyntax(independent),
         Then(Increments(most), Then(Opt(Flag()), Field(16)))))))
  }

  // ----- what the fields mean

  function First(t: Tree): Tree
  {
    if t.Both? then t.left else Nothing
  }

  function Second(t: Tree): Tree
  {
    if t.Both? then t.right else Nothing
  }

  function Chosen(t: Tree): Tree
  {
    if t.Case? then t.chosen else Nothing
  }

  function Value(t: Tree): nat
  {
    if t.Num? || t.Case? then t.x else 0
  }

  function IsSet(t: Tree): bool
  {
    Value(t) == 1
  }

  datatype Prefix = Prefix(profile: nat, key: bool, show: bool, resilient: bool)

  function ProfileOf(t: Tree): nat
  {
    Value(t) + 2 * Value(Chosen(t))
  }

  function PrefixOf(t: Tree): Prefix
  {
    var flags := Second(Second(Second(t)));
    Prefix(ProfileOf(First(Second(t))), !IsSet(First(flags)), IsSet(First(Second(flags))), IsSet(Second(Second(flags))))
  }

  /** intra_only, which a key frame and a frame to be shown do not code. */
  function IntraOnlyOf(p: Prefix, t: Tree): bool
  {
    !p.key && !p.show && IsSet(t)
  }

  function Independent(p: Prefix, middle: Tree): bool
  {
    p.key || IntraOnlyOf(p, middle) || p.resilient
  }

  function Signed(t: Tree): int
  {
    var magnitude: int := Value(First(t));
    if IsSet(Second(t)) then -magnitude else magnitude
  }

  function OptSigned(t: Tree): Option<int>
  {
    if IsSet(t) then Some(Signed(Chosen(t))) else None
  }

  /** The n items of a repetition, first to last. */
  function SignedItems(t: Tree, n: nat): (r: seq<Option<int>>)
    ensures |r| == n
    decreases n
  {
    if n == 0 then [] else SignedItems(First(t), n - 1) + [OptSigned(Second(t))]
  }

  /** Deltas that are updated; the rest keep what they had. */
  datatype LoopFilter = LoopFilter(deltaEnabled: bool, deltaUpdated: bool,
                                   refDeltas: seq<Option<int>>, modeDeltas: seq<Option<int>>)

  const NO_DELTAS := LoopFilter(false, false, [None, None, None, None], [None, None])

  function LoopFilterOf(t: Tree): LoopFilter
  {
    var enabled := Second(t);
    var updated := Chosen(enabled);
    var deltas := Chosen(updated);
    if !IsSet(enabled) then NO_DELTAS
    else if !IsSet(updated) then NO_DELTAS.(deltaEnabled := true)
    else LoopFilter(true, true, SignedItems(First(deltas), 4), SignedItems(Second(deltas), 2))
  }

  datatype Quantization = Quantization(baseIdx: nat, yDc: int, uvDc: int, uvAc: int)

  function DeltaOf(x: Option<int>): int
  {
    if x.Some? then x.value else 0
  }

  function QuantizationOf(t: Tree): Quantization
  {
    var d := Second(t);
    Quantization(Value(First(t)), DeltaOf(OptSigned(First(d))), DeltaOf(OptSigned(First(Second(d)))),
                 DeltaOf(OptSigned(Second(Second(d)))))
  }

  datatype Feature = Feature(q: Option<int>, lf: Option<int>, ref: Option<int>, skip: bool)

  datatype SegmentData = SegmentData(absolute: bool, features: seq<Feature>)

  function FeatureOf(t: Tree): Feature
  {
    var u := Second(t);
    var v := Second(u);
    Feature(OptSigned(First(t)), OptSigned(First(u)),
            if IsSet(First(v)) then Some(Value(Chosen(First(v)))) else None, IsSet(Second(v)))
  }

  function FeatureItems(t: Tree, n: nat): (r: seq<Feature>)
    ensures |r| == n
    decreases n
  {
    if n == 0 then [] else FeatureItems(First(t), n - 1) + [FeatureOf(Second(t))]
  }

  function SegmentDataOf(t: Tree): SegmentData
  {
    SegmentData(IsSet(First(t)), FeatureItems(Second(t), 8))
  }

  /** The update_data block, if there is one. */
  function SegmentationOf(independent: bool, t: Tree): Option<SegmentData>
  {
    var s := Chosen(t);
    if !IsSet(t) then None
    else if independent then Some(SegmentDataOf(s))
    else if IsSet(Second(s)) then Some(SegmentDataOf(Chosen(Second(s))))
    else None
  }

  function Count(t: Tree): nat
  {
    if t.Case? && t.x == 1 then 1 + Count(t.chosen) else 0
  }

  /** struct vp9_parsed_header. */
  datatype HeaderFields = HeaderFields(loopFilter: LoopFilter, quantization: Quantization, lossless: bool,
                                       segmentation: Option<SegmentData>,
                                       tileColsLog2: nat, tileRowsLog2: nat, firstPartitionSize: nat)

  function LastFields(independent: bool, minLog2: nat, t: Tree): HeaderFields
  {
    var lf, q := First(Second(t)), First(Second(Second(t)));
    var s, rest := First(Second(Second(Second(t)))), Second(Second(Second(Second(t))));
    var rows := First(Second(rest));
    HeaderFields(LoopFilterOf(lf), QuantizationOf(q), QuantizationOf(q) == Quantization(0, 0, 0, 0),
                 SegmentationOf(independent, s), minLog2 + Count(First(rest)),
                 Value(rows) + Value(Chosen(rows)), Value(Second(Second(rest))))
  }

  // ----- the tile columns a frame width allows

  /** Blocks of 64 pixels across, on 32-bit unsigned ints. */
  function Sb64Cols(frameWidth: nat): nat
  {
    ((frameWidth + 7) % WORD / 8 + 7) / 8
  }

  ghost predicate IsMinLog2(blocks: nat, n: nat)
  {
    blocks <= Shl(64, n) && (n > 0 ==> Shl(64, n - 1) < blocks)
  }

  /** The most that leaves tiles of at least four blocks. */
  ghost predicate IsMaxLog2(blocks: nat, n: nat)
  {
    Shr(blocks, n + 1) < 4 && (n > 0 ==> Shr(blocks, n) >= 4)
  }

  datatype Range = Range(least: nat, most: nat)

  ghost predicate IsTileRange(frameWidth: nat, r: Range)
  {
    r.least <= r.most && IsMinLog2(Sb64Cols(frameWidth), r.least) && IsMaxLog2(Sb64Cols(frameWidth), r.most)
  }

  /** Blocks of 64 pixels cover the width, unless 7 more pixels wrap around 32 bits. */
  lemma Sb64ColsCover(frameWidth: nat)
    requires 0 < frameWidth < WORD
    ensures (64 * (Sb64Cols(frameWidth) - 1) < frameWidth <= 64 * Sb64Cols(frameWidth)) <==> frameWidth + 7 < WORD
  {
  }

  lemma {:induction false} ShlOfProduct(x: nat, n: nat)
    ensures Shl(64 * x, n) == 64 * Shl(x, n)
  {
    if n > 0 {
      ShlOfProduct(x, n - 1);
    }
  }

  lemma {:induction false} ShrBelowShl(x: nat, k: nat, n: nat)
    ensures Shr(x, n) < k <==> x < Shl(k, n)
    decreases n
  {
    if n > 0 {
      ShrBelowShl(x, 2 * k, n - 1);
      ShlFront(k, n);
    }
  }

  lemma {:induction false} ShlGrows(x: nat, m: nat, n: nat)
    requires m <= n
    ensures Shl(x, m) <= Shl(x, n)
  {
    if m < n {
      ShlGrows(x, m, n - 1);
    }
  }

  /**
  The range in pixels: the least log2 with tiles of at most 4096 pixels, and the greatest with 2^log2 times 256 pixels
  in the blocks that cover the width.
  */
  lemma TileRangeInPixels(frameWidth: nat, r: Range)
    requires IsTileRange(frameWidth, r) && 0 < frameWidth && frameWidth + 7 < WORD
    ensures forall n: nat :: frameWidth <= Shl(4096, n) <==> r.least <= n
    ensures var covered := 64 * Sb64Cols(frameWidth);
      forall n: nat | n > 0 :: Shl(256, n) <= covered <==> n <= r.most
  {
    hide Sb64Cols;
    Sb64ColsCover(frameWidth);
    var blocks := Sb64Cols(frameWidth);
    forall n: nat
      ensures frameWidth <= Shl(4096, n) <==> r.least <= n
    {
      ShlOfProduct(64, n);
      if r.least <= n {
        ShlGrows(64, r.least, n);
      } else {
        ShlGrows(64, n, r.least - 1);
      }
    }
    forall n: nat | n > 0
      ensures Shl(256, n) <= 64 * blocks <==> n <= r.most
    {
      ShlOfProduct(4, n);
      ShrBelowShl(blocks, 4, n);
      if n <= r.most {
        ShlGrows(4, n, r.most);
        ShrBelowShl(blocks, 4, r.most);
      } else {
        ShlGrows(4, r.most + 1, n);
        ShrBelowShl(blocks, 4, r.most + 1);
      }
    }
  }

  // ----- the whole header

  datatype Header = Header(first: Tree, middle: Tree, last: Tree)

  datatype ParsedHeader = ParsedHeader(header: Header, rest: seq<bool>)

  function PartTwo(first: Tree): Syntax
  {
    MiddleSyntax(PrefixOf(first))
  }

  function PartThree(first: Tree, middle: Tree, r: Range): Syntax
  {
    LastSyntax(Independent(PrefixOf(first), middle), PrefixOf(first).resilient,
               if r.least <= r.most then r.most - r.least else 0)
  }

  function ParseHeader(b: seq<bool>, r: Range): Option<ParsedHeader>
  {
    var p := Parse(FirstSyntax(), b);
    if p == None then None
    else
      var q := Parse(PartTwo(p.value.tree), p.value.rest);
      if q == None then None
      else
        var l := Parse(PartThree(p.value.tree, q.value.tree, r), q.value.rest);
        if l == None then None
        else Some(ParsedHeader(Header(p.value.tree, q.value.tree, l.value.tree), l.value.rest))
  }

  predicate HeaderFits(h: Header, r: Range)
  {
    Fits(FirstSyntax(), h.first) && Fits(PartTwo(h.first), h.middle) && Fits(PartThree(h.first, h.middle, r), h.last)
  }

  function PrintHeader(h: Header, r: Range): seq<bool>
    requires HeaderFits(h, r)
  {
    Print(FirstSyntax(), h.first) + (Print(PartTwo(h.first), h.middle) + Print(PartThree(h.first, h.middle, r), h.last))
  }

  function FieldsOf(h: Header, r: Range): HeaderFields
  {
    LastFields(Independent(PrefixOf(h.first), h.middle), r.least, h.last)
  }

  /** Parsing a printed header returns it, whatever follows. */
  lemma ParsePrintHeader(h: Header, r: Range, tail: seq<bool>)
    requires HeaderFits(h, r)
    ensures ParseHeader(PrintHeader(h, r) + tail, r) == Some(ParsedHeader(h, tail))
  {
    hide Parse, Print, Fits, FirstSyntax, PartTwo, PartThree;
    var g1, g2, g3 := FirstSyntax(), PartTwo(h.first), PartThree(h.first, h.middle, r);
    var x, y, z := Print(g1, h.first), Print(g2, h.middle), Print(g3, h.last);
    assert PrintHeader(h, r) + tail == x + (y + (z + tail));
    ParsePrint(g1, h.first, y + (z + tail));
    ParsePrint(g2, h.middle, z + tail);
    ParsePrint(g3, h.last, tail);
  }

  /** A buffer that parses is the printed form of what was read, and what is left. */
  lemma PrintParseHeader(b: seq<bool>, r: Range)
    requires ParseHeader(b, r).Some?
    ensures var p := ParseHeader(b, r).value; HeaderFits(p.header, r) && b == PrintHeader(p.header, r) + p.rest
  {
    hide Parse, Print, Fits, FirstSyntax, PartTwo, PartThree;
    var p := Parse(FirstSyntax(), b).value;
    PrintParse(FirstSyntax(), b);
    var q := Parse(PartTwo(p.tree), p.rest).value;
    PrintParse(PartTwo(p.tree), p.rest);
    var l := Parse(PartThree(p.tree, q.tree, r), q.rest).value;
    PrintParse(PartThree(p.tree, q.tree, r), q.rest);
    var x, y := Print(FirstSyntax(), p.tree), Print(PartTwo(p.tree), q.tree);
    var z := Print(PartThree(p.tree, q.tree, r), l.tree);
    assert b == (x + (y + z)) + l.rest;
  }

  /** Appending to the buffer changes nothing that was read. */
  lemma HeaderLocal(b: seq<bool>, r: Range, tail: seq<bool>)
    requires ParseHeader(b, r).Some?
    ensures var p := ParseHeader(b, r).value; ParseHeader(b + tail, r) == Some(ParsedHeader(p.header, p.rest + tail))
  {
    hide ParseHeader, PrintHeader, HeaderFits;
    PrintParseHeader(b, r);
    var p := ParseHeader(b, r).value;
    ParsePrintHeader(p.header, r, p.rest + tail);
    assert b + tail == PrintHeader(p.header, r) + (p.rest + tail);
  }

  /** A buffer cut anywhere within the header does not parse. */
  lemma HeaderTruncated(b: seq<bool>, r: Range, n: nat)
    requires ParseHeader(b, r).Some? && n < |b| - |ParseHeader(b, r).value.rest|
    ensures ParseHeader(b[..n], r) == None
  {
    hide ParseHeader, PrintHeader, HeaderFits;
    assert b[..n] + b[n..] == b;
    if ParseHeader(b[..n], r).Some? {
      HeaderLocal(b[..n], r, b[n..]);
      assert false;
    }
  }

  // ----- four bytes at least

  function Shortest(g: Syntax): nat
  {
    match g
    case Empty => 0
    case Fail => 0
    case Field(n) => n
    case Then(g1, g2) => Shortest(g1) + Shortest(g2)
    case Switch(n, _, same, other) =>
      n + if same == Fail then Shortest(other) else if other == Fail then Shortest(same)
          else if Shortest(same) < Shortest(other) then Shortest(same) else Shortest(other)
  }

  lemma {:induction false} PrintedAtLeast(g: Syntax, t: Tree)
    requires Fits(g, t)
    ensures |Print(g, t)| >= Shortest(g)
    decreases g
  {
    match g
    case Empty =>
    case Fail =>
    case Field(n) =>
    case Then(g1, g2) =>
      PrintedAtLeast(g1, t.left);
      PrintedAtLeast(g2, t.right);
    case Switch(n, key, same, other) =>
      PrintedAtLeast(if t.x == key then same else other, t.chosen);
  }

  lemma ShortestLast(independent: bool, resilient: bool, most: nat)
    ensures Shortest(LastSyntax(independent, resilient, most)) >= 32
  {
    ShortestPieces(resilient);
    var e := Then(Increments(most), Then(Opt(Flag()), Field(16)));
    assert Shortest(Then(Opt(Flag()), Field(16))) >= 16;
    ShortestThen(Increments(most), Then(Opt(Flag()), Field(16)));
    ShortestThen(SegmentationSyntax(independent), e);
    ShortestThen(QuantizationSyntax(), Then(SegmentationSyntax(independent), e));
    ShortestThen(LoopFilterSyntax(), Then(QuantizationSyntax(), Then(SegmentationSyntax(independent), e)));
  }

  lemma ShortestThen(g1: Syntax, g2: Syntax)
    ensures Shortest(Then(g1, g2)) == Shortest(g1) + Shortest(g2)
  {
  }

  lemma ShortestPieces(resilient: bool)
    ensures Shortest(LoopFilterSyntax()) >= 9 && Shortest(QuantizationSyntax()) >= 8
    ensures Shortest(Context(resilient)) >= 2
  {
  }

  lemma HeaderHasFourBytes(b: seq<bool>, r: Range)
    requires ParseHeader(b, r).Some?
    ensures |b| >= 32
  {
    hide Parse, Print, Fits, LastSyntax, MiddleSyntax, FirstSyntax, Shortest;
    PrintParseHeader(b, r);
    var h := ParseHeader(b, r).value.header;
    var g3 := PartThree(h.first, h.middle, r);
    PrintedAtLeast(g3, h.last);
    ShortestLast(Independent(PrefixOf(h.first), h.middle), PrefixOf(h.first).resilient,
                 if r.least <= r.most then r.most - r.least else 0);
  }

  // ----- the same, on buffers

  /** For every header there is a buffer that parses to it. */
  lemma EveryHeaderHasBuffer(h: Header, r: Range)
    requires HeaderFits(h, r)
    ensures var p := ParseHeader(BitsOf(Pack(PrintHeader(h, r))), r); p.Some? && p.value.header == h
  {
    hide ParseHeader, PrintHeader, HeaderFits, BitsOf, Pack;
    var bits := PrintHeader(h, r);
    var all := BitsOf(Pack(bits));
    PackedBits(bits);
    ParsePrintHeader(h, r, all[|bits|..]);
    assert all == bits + all[|bits|..];
  }

  lemma BufferAppended(buf: seq<byte>, more: seq<byte>, r: Range)
    requires ParseHeader(BitsOf(buf), r).Some?
    ensures var p := ParseHeader(BitsOf(buf + more), r);
      p.Some? && p.value.header == ParseHeader(BitsOf(buf), r).value.header
  {
    hide ParseHeader, BitsOf;
    BitsOfPrefix(buf, more);
    HeaderLocal(BitsOf(buf), r, BitsOf(more));
  }

  /** n bytes are too few if they end before the last bit the header needs. */
  lemma BufferTruncated(buf: seq<byte>, n: nat, r: Range)
    requires n <= |buf| && ParseHeader(BitsOf(buf), r).Some?
    requires 8 * n < 8 * |buf| - |ParseHeader(BitsOf(buf), r).value.rest|
    ensures ParseHeader(BitsOf(buf[..n]), r) == None
  {
    hide ParseHeader, BitsOf;
    BitsOfPrefix(buf[..n], buf[n..]);
    assert buf == buf[..n] + buf[n..];
    assert BitsOf(buf[..n]) == BitsOf(buf)[..8 * n];
    HeaderTruncated(BitsOf(buf), r, 8 * n);
  }
}
