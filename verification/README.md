# Dafny model of the VA-API to V4L2 stateless decode driver

The C driver under `va-driver/src` turns VA-API calls into V4L2 stateless decoding for the RK3588. This project models
the parts of it where a mistake would be hard to see, and proves what the driver relies on. `dafny verify
dfyconfig.toml` checks everything.

## What is modelled

* **VPx range decoder.** `BoolDecoder` is the Boolean decoder of section 9.2 of the VP9 bitstream specification, one
  bit at a time. `RangeCoder` has the driver's decoder, which keeps 24 bits in one word, prefetches two bytes and
  shifts by a table, as a class with the struct's fields; it is proved bit-exact with the former, zero padding past
  the end included. `ArithmeticEncoder` builds, for every symbol sequence, a buffer that decodes to it.
* **VP9 compressed header.** `ProbDelta` is the probability-delta code and its table, `CompressedHeader` what is read
  and stored on the specification's decoder, `CompressedReader` the driver's loops on top of the range coder.
  `CompressedWriter` writes headers out symbol by symbol, with every probability at its place in the control struct,
  and proves that they are read back.
* **VP9 uncompressed header.** `BitSyntax` has grammars of bit fields with a parser and a printer that undo each
  other, `Vp9Header` the header's grammar as the driver reads it, `Vp9Printer` the records of fields it can express,
  `BitReader` and `Vp9Parser` the driver's reader and parser, `Vp9State` the state frames inherit. `Vp9Layout` writes
  headers out bit by bit, apart from the grammar, with the record each means; with `Vp9LayoutExact`, a buffer is
  accepted if and only if it starts with one of these.
* **Buffer ownership.** `Ownership` has the index pools of a session as values, `Sessions` the structs and arrays the
  driver updates, proved to do the same. `Protocol` is every entry point as an atomic step between lock points, with
  the kernel as an environment that may fail anything and may answer with any queued index. A call that waits is two
  steps, and others run in between. `ProtocolOwnership`, `ProtocolInFlight`, `ProtocolClients` and `ProtocolSolo`
  prove what all runs keep, `ProtocolEffects` what each entry point does on its every path, `ProtocolDecode` what one
  decoded frame leaves behind; `ProtocolLimits` shows where the code falls short.
* **Object heap.** `FreeList` and `ObjectHeap`: slabs, a free list threaded through the slots, recycled ids, the
  iterator, and the loop that destroys everything.
* **AV1 derivations.** `SkipMode` (sections 5.9.3 and 5.9.22 of the AV1 specification) and `UniformTiles`
  (section 5.9.15).
* **Smaller parts.** `AnnexB` (framing and scanning H.264 and HEVC slices), `Dpb` (packing references), `PoolDepth`
  (how many buffers to ask for), `Arithmetic` (powers of two, shifts and merges of C's unsigned ints), `Options`.

## What is assumed

* The driver lock makes each entry point atomic except where `RequestSyncSurface` drops it. While a call waits there,
  no other call names its surface, and none that names its context begins or ends a picture on it or destroys it.
* REQBUFS grants at most 64 buffers, and at least 3 to a context, which the driver checks itself. A dequeue that
  succeeds returns some index that was queued on that handle.
* Surface and context ids are not in use when handed out. They may have been used before.
* Buffers are sequences of bytes. Allocation, mapping and ioctl results are parameters.

## Where the code does not keep its promise

* `RequestEndPicture` looks its target up by id and never checks that it is still the surface `RequestBeginPicture`
  bound (`va-driver/src/picture.c:881-884`). If the surface is destroyed in between and its id handed out again, a
  queued index can reach a free stack (`ProtocolLimits.StaleTargetFreesQueuedIndex`), and a source index can be
  released into another context's pool (`ForeignTargetLosesIndex`). `ReleaseExact` and `QueueExact` give, at the two
  calls, the exact condition for the promise to hold afterwards: the surface borrowed the index from that session, and
  it is rendering. `ProtocolClients` proves that the order of calls VA-API asks for is enough to meet them.
* `v4l2_dequeue_buffer` never reads the index VIDIOC_DQBUF returns (`va-driver/src/v4l2.c:414-420`). After a wait that
  timed out, the next wait can dequeue the late buffers and recycle indices that are still queued
  (`OtherIndexFreesQueuedIndex`). `DequeueExact` gives the exact condition, on what is queued before the dequeues: the
  surface's own indices are alone there. `ProtocolSolo` proves that this is so as long as no vaEndPicture fails.
* `pool_depth` multiplies in 64 bits, and sizes a client may pass wrap (`PoolDepth.WrappedSizeMissesBudget`).
  `PoolDepthExact` and `NeverGrowsExact` give the exact condition, the same for the budget and for larger sizes getting
  no deeper a pool: the product does not wrap, or what is left of it is not 0 and still too large for one buffer more
  than the least. The bounds on the depth are kept even so (`DepthWithinBounds`), with one product of width and height
  excepted for AV1.
* `codec_store_buffer` adds up 32-bit sizes in its guard (`va-driver/src/picture.c:350-351`), and `RequestCreateBuffer`
  accepts slice data of any size that fits an unsigned int. A sum that wraps is let through and copied past the end of
  the mapping (`AnnexB.WrappedSliceOverruns`). `AnnexB.GuardExact` gives the exact condition: the sum is below 2^32.

Where code and comments differ the model follows the code: `vp9_parser.h` says the output is left untouched on
failure, but it is cleared first; the segmentation section the parser cites has update bits on key frames, which the
parser does not read; comments cite section 5.11.1 for tiles and 7.20 for skip mode, where the AV1 specification has
them in 5.9.15 and 5.9.22. Two guards are proved never to apply: the one for a maximum tile count below the minimum
(`va-driver/src/vp9_parser.c:148`), and the bounds check on the probability index (`va-driver/src/vp9.c:90`).

## Model

| member | source | states |
|---|---|---|
| BoolDecoder.Normalize | va-driver/src/vpx_rac.h:35-55 | the renormalisation loop of section 9.2 of the VP9 bitstream specification, one doubling and one bit at a time: it ends with a range of at least 128 and keeps the value inside the range |
| BoolDecoder.SplitInside | va-driver/src/vpx_rac.h:57-67 | a split is at least 1 and below the range, for every probability, 0 and 255 included: both halves stay nonempty |
| BoolDecoder.ReadBoolExact | va-driver/src/vpx_rac.h:57-67 | a read returns 1 exactly when 256 times the value exceeds the probability times one less than the range |
| BoolDecoder.ReadBoolHalves | va-driver/src/vpx_rac.h:57-67 | the low part has the least size over that product, and the decoder goes on, renormalised, in the part the value lies in |
| BoolDecoder.FirstRead | va-driver/src/vpx_rac.c:27-40 | the first read of a buffer is decided by its first byte alone, against 254 |
| RangeCoder.NormShiftDoublings | va-driver/src/vpx_rac.c:8-25 | for every range from 1 to 255 the table holds exactly the number of doublings that bring it to 128 or more, no fewer and no more |
| RangeCoder.NormalizeByShift | va-driver/src/vpx_rac.h:35-55 | shifting by the table's count is the same state as the bit-by-bit renormalisation loop, with the window of bits shifted in at once |
| RangeCoder.RenormInStep | va-driver/src/vpx_rac.h:35-55 | the word after shifting, and after merging two bytes, one byte or none into it, stands for the renormalised state of the bit-by-bit decoder, past the end of the buffer too |
| RangeCoder.DecideInStep | va-driver/src/vpx_rac.h:57-67 | comparing the whole word with the split times 2^16 decides as comparing the 8-bit value does, and subtracting keeps word and state in step |
| RangeCoder.WordBelowRange | va-driver/src/vpx_rac.h:35-67 | while the value is inside the range the word is below range times 2^16, so no 32-bit shift loses a bit |
| RangeCoder.InitWord | va-driver/src/vpx_rac.c:27-40 | the three bytes loaded first are the specification's initial value with 16 bits prefetched |
| RangeCoder.VpxRac.Init | va-driver/src/vpx_rac.c:27-40 | -1 exactly below three bytes; otherwise the decoder stands at the specification's initial state |
| RangeCoder.VpxRac.Renorm | va-driver/src/vpx_rac.h:35-55 | range between 128 and 255 and equal to the specification's; the read position never passes the end; while bytes remain, between 1 and 16 prefetched bits are left |
| RangeCoder.VpxRac.GetProb | va-driver/src/vpx_rac.h:57-67 | returns the specification's bit and reaches its state; the bit is 1 exactly when 256 times the value exceeds the probability times one less than the range; the word stays below range times 2^16 |
| RangeCoder.VpxRac.GetProbBranchy | va-driver/src/vpx_rac.h:69-83 | the same bit, threshold and state for the branching form, which also reads the marker |
| RangeCoder.VpxRac.Get | va-driver/src/vpx_rac.h:86-101 | the even-odds read is the specification's read at probability 128: 1 exactly when twice the value exceeds one less than the range |
| RangeCoder.VpxRac.GetUint | va-driver/src/vpx_rac.h:103-109 | an n-bit literal is n such reads, most significant bit first, and below 2^n |
| RangeCoder.DecodeRun | va-driver/src/vpx_rac.h:35-101 | refinement over whole runs: for every buffer of at least three bytes whose marker reads 0 and every sequence of probabilities, the bits are those of the bit-by-bit decoder, over odd lengths and past the end |
| ArithmeticEncoder.EncodeInside | va-driver/src/vpx_rac.h:57-101 | every symbol sequence ends in an interval inside the first one, because no split is empty |
| ArithmeticEncoder.DecodeUndoesEncode | va-driver/src/vpx_rac.h:57-101 | for every sequence of (probability, bit) pairs that starts with a 0 at 128 the buffer built for it decodes to exactly that sequence |
| ArithmeticEncoder.Decode | va-driver/src/vpx_rac.h:35-101 | the word-at-a-time decoder run on that buffer returns the sequence's bits |
| ProbDelta.DecodeEncode | va-driver/src/vp9.c:77-94 | each index from 0 to 254 is decoded from its bit string, whatever follows it |
| ProbDelta.EncodeDecode | va-driver/src/vp9.c:77-94 | whatever decodes to an index is that index's one bit string and the rest |
| ProbDelta.ElevenBitsDecode | va-driver/src/vp9.c:79-93 | the code is complete: any eleven bits start with the bit string of some index up to 254, so the bounds check never fires |
| ProbDelta.CodeInNumbers | va-driver/src/vp9.c:77-94 | each bit string by its length, five to eleven bits, and by the number it makes |
| ProbDelta.TableIsFormula | va-driver/src/vp9.c:53-76 | the 254 first table entries follow one rule: every 13th value from 7 first, then the values between in order |
| ProbDelta.TableIsBijection | va-driver/src/vp9.c:53-76 | indices 0 to 253 go into 1 to 254, each recoverable from its value |
| ProbDelta.TableIsOnto | va-driver/src/vp9.c:53-76 | every value from 1 to 254 is reached |
| ProbDelta.LastRepeats | va-driver/src/vp9.c:74-76 | index 254 repeats the value of index 253 |
| CompressedHeader.LiteralIsCoins | va-driver/src/vpx_rac.h:103-109 | a literal is the number its even-odds bits make |
| CompressedHeader.ReadProbDelta | va-driver/src/vp9.c:51-94 | reads off the range coder exactly the bit string of one index, no bit more, and returns that index's table value, never 0 |
| CompressedHeader.PlanesIncrease | va-driver/src/vp9.c:153-166 | the coefficient loops, with the first band's three contexts, visit no slot twice and stay within their transform size's own block of the control struct |
| CompressedHeader.SitesKeepZeroMeaning | va-driver/src/vp9.c:134-174 | over any run of update flags, a slot is 0 exactly when no update was coded for it |
| CompressedHeader.HeaderKeepsZeroMeaning | va-driver/src/vp9.c:126-294 | the same over the whole header, for every input and every combination of frame flags |
| CompressedHeader.TxModeExact | va-driver/src/vp9.c:127-132 | the transform mode in bits: 00, 01, 10, 110 and 111 read at even odds are modes 0 to 4, taking those bits and no more; lossless frames take none and have mode 0 |
| CompressedHeader.CompModeExact | va-driver/src/vp9.c:203-206 | the reference mode in bits: 0, 10 and 11 read at even odds are modes 0, 1 and 2; where compound references are not allowed nothing is read |
| CompressedWriter.CoefficientsWrite | va-driver/src/vp9.c:153-166 | one transform size's updates, written out as slots, set each of those slots from its own symbols |
| CompressedWriter.MvWrites | va-driver/src/vp9.c:245-293 | the motion-vector updates, written out in their interleaved order as slots, likewise |
| CompressedWriter.SymbolsReadBack | va-driver/src/vp9.c:126-294 | for every content of a header and every combination of frame flags: where the decoder yields the content's symbols, written out slot by slot with the update flags at 252, the reader returns its modes and its every value in its place, takes those symbols and no more, and leaves 0 everywhere else |
| CompressedWriter.WrittenHeaderReadsBack | va-driver/src/vp9.c:101-298 | every content can be written: the arithmetic encoder's buffer for a 0 marker and its symbols is read back as that content |
| CompressedWriter.OnlyPresentSlotsCoded | va-driver/src/vp9.c:126-294 | whatever a buffer says, updates are coded only for slots its modes have room for: transform probabilities in mode 4 only, no coefficient above the frame's mode or in the first band's missing contexts, comp_mode in reference mode 2 only, single_ref not in 1, comp_ref not in 0, high precision only if allowed |
| CompressedReader.Control.UpdateSlot | va-driver/src/vp9.c:251-259 | one update flag at 252 and, if set, one coded probability, as on the specification's decoder; seven bits made odd for motion vectors |
| CompressedReader.Control.UpdateRun | va-driver/src/vp9.c:171-174 | a loop over consecutive slots reads them in order |
| CompressedReader.Control.UpdateCoefficients | va-driver/src/vp9.c:155-165 | the five nested loops of one transform size read the sites in the order listed |
| CompressedReader.Control.ReadTxMode | va-driver/src/vp9.c:127-132 | two bits, a third if they read 3, none on lossless frames |
| CompressedReader.Control.ReadTxPhase | va-driver/src/vp9.c:126-150 | transform probabilities only when the mode is select |
| CompressedReader.Control.ReadCoefPhase | va-driver/src/vp9.c:152-169 | transform sizes up to and including the frame's mode |
| CompressedReader.Control.ReadFirstInter | va-driver/src/vp9.c:177-201 | inter modes, interpolation filters only if switchable, is_inter |
| CompressedReader.Control.ReadCompMode | va-driver/src/vp9.c:203-206 | the reference mode CompModeExact gives the bits, with the decoder behind them; 0 and no bit if not allowed |
| CompressedReader.Control.UpdateReferences | va-driver/src/vp9.c:207-230 | which reference probabilities each mode has |
| CompressedReader.Control.UpdateMv | va-driver/src/vp9.c:245-293 | the motion-vector probabilities in their interleaved order, high precision only if allowed |
| CompressedReader.Control.Fill | va-driver/src/vp9.c:101-298 | -1 exactly when the part does not fit the frame, is below three bytes, or its marker is 1, and then neither mode nor any slot is stored; otherwise mode, reference mode and every slot are those of the specification's decoder, and a 0 means no update; on a part that holds a header written out symbol by symbol, the modes, coded slots and values are that header's |
| BitReader.Reader.U | va-driver/src/vp9_parser.c:33-57 | n bits most significant first and the position advanced by n, or the sticky flag and 0 when fewer are left or n is over 32 |
| BitReader.Reader.B | va-driver/src/vp9_parser.c:59-62 | one bit |
| BitSyntax.ParsePrint | va-driver/src/vp9_parser.c:155-329 | for every grammar of fields and branches, parsing what was printed returns it and leaves what follows |
| BitSyntax.PrintParse | va-driver/src/vp9_parser.c:155-329 | for every grammar, what parses is the printed form of what was parsed, then the rest |
| BitSyntax.PackedBits | va-driver/src/vp9_parser.c:25-57 | packing bits into bytes keeps them in front, most significant first |
| Vp9Header.ParsePrintHeader | va-driver/src/vp9_parser.c:155-329 | parsing the printed form of any header returns it, whatever follows |
| Vp9Header.PrintParseHeader | va-driver/src/vp9_parser.c:155-329 | an accepted buffer is the printed form of the header read and what is left |
| Vp9Header.HeaderLocal | va-driver/src/vp9_parser.c:155-329 | appending bits never changes an accepted header |
| Vp9Header.HeaderTruncated | va-driver/src/vp9_parser.c:164-172 | a buffer cut anywhere before the last bit consumed is rejected |
| Vp9Header.HeaderHasFourBytes | va-driver/src/vp9_parser.c:164-165 | every accepted header has 32 bits, so the size check rejects nothing the grammar accepts |
| Vp9Header.EveryHeaderHasBuffer | va-driver/src/vp9_parser.c:155-329 | every header has a buffer of bytes that parses to it |
| Vp9Header.BufferAppended | va-driver/src/vp9_parser.c:155-329 | the locality statement on buffers |
| Vp9Header.BufferTruncated | va-driver/src/vp9_parser.c:164-329 | the truncation statement on buffers |
| Vp9Printer.EveryRecordHasBuffer | va-driver/src/vp9_parser.c:222-326 | behind any start of a header, every record of fields within the coded ranges has a buffer that parses to exactly that record |
| Vp9Printer.ParsedIsExpressible | va-driver/src/vp9_parser.c:222-326 | and the parser returns no other records |
| Vp9Layout.StartShows | va-driver/src/vp9_parser.c:170-188 | the bits from the marker to error_res, written out, are what the grammar prints, and mean that profile and those flags |
| Vp9Layout.MiddleShows | va-driver/src/vp9_parser.c:190-220 | so are the bits of a key, intra-only or inter frame, for every profile: sync code, colours, sizes, references and filter in the written order and widths |
| Vp9Layout.LastShows | va-driver/src/vp9_parser.c:222-326 | so are context, loop filter, quantization, segmentation, tiles and the size of the compressed header |
| Vp9Layout.LayoutParses | va-driver/src/vp9_parser.c:155-329 | the bits of any header, every field and skipped field in its written place and width, parse to the record that was meant, whatever follows: each delta in the field named after it |
| Vp9LayoutExact.LayoutBack | va-driver/src/vp9_parser.c:155-329 | and every header the grammar can hold is one of those, bit for bit |
| Vp9LayoutExact.ParsesExactly | va-driver/src/vp9_parser.c:155-329 | a buffer parses if and only if it starts with the bits of some header, and then the record is that header's and what is left is what follows it |
| Vp9Parser.ReadSigned | va-driver/src/vp9_parser.c:65-71 | magnitude, then sign |
| Vp9Parser.ReadDeltaQ | va-driver/src/vp9_parser.c:74-79 | 0 when the flag is clear, else a signed 4-bit number |
| Vp9Parser.SkipColorConfig | va-driver/src/vp9_parser.c:81-99 | consumes what the grammar gives color_config for each profile, which MiddleShows writes out bit by bit |
| Vp9Parser.SkipFrameSize | va-driver/src/vp9_parser.c:101-109 | consumes a size and an optional render size |
| Vp9Parser.SkipFrameSizeWithRefs | va-driver/src/vp9_parser.c:111-131 | stops at the first reference found, and reads a size only if none is |
| Vp9Parser.TileColsRange | va-driver/src/vp9_parser.c:134-153 | the least log2 that keeps tiles within 64 blocks and the most that leaves them 4 blocks |
| Vp9Parser.RangeNotEmpty | va-driver/src/vp9_parser.c:148-149 | the least never exceeds the most, so the guard against it is never taken |
| Vp9Parser.TileRangeOnce | va-driver/src/vp9_parser.c:134-153 | a frame width has one such range |
| Vp9Header.Sb64ColsCover | va-driver/src/vp9_parser.c:137-138 | the blocks are the least number of 64 pixels that cover the width, if and only if 7 more pixels do not wrap 32 bits |
| Vp9Header.TileRangeInPixels | va-driver/src/vp9_parser.c:134-153 | the range in pixels: the least log2 with tiles of at most 4096, and the most with 256 for each tile in the blocks covered |
| Vp9Parser.ReadPrefix | va-driver/src/vp9_parser.c:170-188 | marker, profile, show_existing_frame and the three frame flags, or rejection |
| Vp9Parser.ReadMiddle | va-driver/src/vp9_parser.c:190-220 | key, intra-only and inter frames each consume their own syntax, and a wrong sync code rejects |
| Vp9Parser.ReadLoopFilter | va-driver/src/vp9_parser.c:228-250 | which deltas are updated, and to what |
| Vp9Parser.ReadQuantization | va-driver/src/vp9_parser.c:252-256 | base index and three deltas |
| Vp9Parser.ReadFeature | va-driver/src/vp9_parser.c:287-299 | one segment's four features |
| Vp9Parser.ReadSegmentation | va-driver/src/vp9_parser.c:260-302 | the update_data block, without update bits on key, intra-only and error-resilient frames |
| Vp9Parser.ReadTileCols | va-driver/src/vp9_parser.c:309-316 | one more for each 1 bit, up to the most the width allows |
| Vp9Parser.ReadTail | va-driver/src/vp9_parser.c:304-326 | tile counts and the size of the compressed header |
| Vp9Parser.ParseUncompressedHeader | va-driver/src/vp9_parser.c:155-329 | 0 exactly on the buffers the grammar accepts, -1 on all others, and then the record the header means; in bits: 0 if and only if the buffer starts with the written-out bits of some header, and then the record meant by every such header |
| Vp9State.PersistentState.Reset | va-driver/src/vp9.c:337-356 | the defaults 1, 0, -1, -1 and 0, 0, all eight segments without features, and absolute values off |
| Vp9State.DefaultsExact | va-driver/src/vp9.c:337-356 | what an item holds after a reset, in numbers, whatever it held before |
| Vp9State.PersistentState.FillLoopFilter | va-driver/src/vp9.c:358-390 | updated deltas replace, the others stay, and all are emitted |
| Vp9State.PersistentState.FillSegmentation | va-driver/src/vp9.c:401-473 | an update_data block replaces all features, otherwise they stay, and all are emitted |
| Vp9State.PersistentState.FillFrame | va-driver/src/vp9.c:524-633 | a frame whose check or parse fails changes nothing; an accepted one resets first if it must, then updates, then emits |
| Vp9State.NextHolds | va-driver/src/vp9.c:562-569 | for each item: an update wins over a reset, a reset over what was held |
| Vp9State.ResetsFresh | va-driver/src/vp9.c:562-569 | the driver resets on a frame exactly when the frame is key, intra-only or error-resilient, or the first accepted |
| Vp9State.EmittedIsLastUpdate | va-driver/src/vp9.c:337-473 | after any sequence of frames each emitted delta, and the segmentation, is the last explicit update since the last reset, that frame's own included, or the default if there was none |
| SkipMode.DistIsSignedResidue | va-driver/src/av1.c:96-107 | the distance is a - b brought into [-2^(bits-1), 2^(bits-1)) by whole turns of the field, for all hints |
| SkipMode.DistOfHints | va-driver/src/av1.c:96-107 | on hints of orders less than half the field apart it is the difference of the orders |
| SkipMode.HalfApartIsMisread | va-driver/src/av1.c:96-107 | from half a field on it has the wrong sign, so the condition cannot be relaxed |
| SkipMode.DeriveSkipModeFrame | va-driver/src/av1.c:114-183 | the two loops store exactly what the folds over the references choose, and 0, 0 when skip mode is absent |
| SkipMode.BestPastIsNearest | va-driver/src/av1.c:129-138 | the first loop's forward choice is the nearest past order, lowest index on ties |
| SkipMode.BestFutureIsNearest | va-driver/src/av1.c:139-147 | its backward choice is the nearest future order, lowest index on ties |
| SkipMode.HintsChooseByOrder | va-driver/src/av1.c:114-183 | with every reference strictly within half the field of the current frame, the wrapped hints choose what true orders would: nearest past with nearest future, else the two nearest distinct past orders, else none |
| SkipMode.ChosenOnce | va-driver/src/av1.c:114-183 | that choice by true order is unique |
| SkipMode.NoHintsNoSkipMode | va-driver/src/av1.c:100-101 | with no hint bits there is never a pair |
| UniformTiles.TileLog2 | va-driver/src/av1.c:245-253 | the least n with 2^n at least the count |
| UniformTiles.SuperblocksCover | va-driver/src/av1.c:267-272 | the superblock count, by way of 8-pixel units, is the least number of 64 or 128 pixel blocks that cover the frame |
| UniformTiles.TilesCover | va-driver/src/av1.c:280-283 | tiles of one step cover the superblocks exactly: they sum to the count, all but the last are full, and no fewer would do |
| UniformTiles.StepFromCount | va-driver/src/av1.c:278-279 | whatever log2 the stream coded, the tile count alone gives back the step, so no guard on the log2 is needed for the geometry |
| UniformTiles.Log2FromCount | va-driver/src/av1.c:245-253 | the coded log2 itself is recovered exactly when it is 0 or 2^(log2-1) is below the superblock count |
| UniformTiles.DeriveDimension | va-driver/src/av1.c:278-283 | one dimension: the sizes minus one, as far as the array goes, and the rest of the array untouched |
| UniformTiles.DeriveUniformTiles | va-driver/src/av1.c:264-291 | both dimensions, and nothing written for a zero count |
| UniformTiles.TilesAreTheCodedOnes | va-driver/src/av1.c:264-291 | for every frame size, log2 and at most 64 tiles: exactly the specification's tiles are written and they sum to the superblock count |
| AnnexB.CodedBuffer.StoreSlice | va-driver/src/picture.c:331-368 | start code and slice appended and counted when the guard's 32-bit sum lets them through and they fit, nothing changed when it refuses, no start code for VP9 and AV1; what the guard lets through beyond the mapping is told apart |
| AnnexB.GuardExact | va-driver/src/picture.c:350-354 | with so many bytes in use, the guard keeps a unit inside every buffer if and only if bytes in use, start code and slice sum to less than 2^32 |
| AnnexB.WrappedSliceOverruns | va-driver/src/picture.c:350-354 | the input: slice data of 0xFFFFFFFC bytes on an empty buffer counts as 0 and is let through, whatever the mapping's size |
| AnnexB.StoreSlices | va-driver/src/picture.c:325-369 | storing the units one by one leaves their framed concatenation, and succeeds exactly when that fits; the guard lets a copy leave the mapping only if the concatenation has 2^32 bytes or more, and where it stops some prefix of the units is stored |
| AnnexB.FirstVclNalHeader | va-driver/src/h264.c:63-91 | the loop computes the scan from the front |
| AnnexB.FirstSliceNalType | va-driver/src/h265.c:61-86 | the loop computes the scan from the front |
| AnnexB.AnswerExact | va-driver/src/h264.c:74-87 | whatever the header's other fields, H.264 answers with the header of a unit of type 1 to 5 and HEVC with the type of one of 0 to 31, never with the none-found value |
| AnnexB.FourBytes | va-driver/src/h265.c:61-83 | a three-byte start code and a header are enough for H.264 to answer, and HEVC needs one byte more |
| AnnexB.ScanSkipsUnit | va-driver/src/h264.c:70-82 | no start code is seen inside a unit that has none, nor across its end, trailing zeros included |
| AnnexB.ScanAtCode | va-driver/src/h264.c:74-87 | at a start code the unit's own header decides, although the code is seen twice |
| AnnexB.ScanUndoesFraming | va-driver/src/h264.c:63-91 | for every list of nonempty units without a start code inside, H.264 and HEVC: the scan of the framed buffer returns what the first slice unit says |
| AnnexB.NotFoundIsNone | va-driver/src/h265.c:61-86 | the none-found value exactly when there is no slice unit |
| Dpb.UsableIsPacked | va-driver/src/h264.c:225-280 | a usable reference is in the slot counted by the usable ones before it, and order is kept |
| Dpb.SlotIsUsable | va-driver/src/h264.c:225-280 | every filled slot holds a usable reference: no holes |
| Dpb.FillAvcDpb | va-driver/src/h264.c:225-280 | usable references packed in order, and zeroed slots behind them |
| Dpb.AvcPacked | va-driver/src/h264.c:225-280 | valid entries are exactly slots 0 to k-1, one for each usable reference, each with its own picture's timestamp, numbers, order counts, flags and fields |
| Dpb.IndicesExact | va-driver/src/h265.c:314-327 | a list names exactly the filled slots whose picture goes to it, in increasing order |
| Dpb.DecodeParams.FillDpb | va-driver/src/h265.c:281-331 | entries, three lists and the count are those of the usable references |
| Dpb.HevcListed | va-driver/src/h265.c:314-327 | a usable reference's slot is in a list exactly as its flags say: before first, then after, then long-term |
| Dpb.ListsNameReferences | va-driver/src/h265.c:314-327 | every listed index is the slot of a usable reference that carries the list's flag |
| Dpb.ListsApart | va-driver/src/h265.c:318-325 | no slot is in two lists |
| PoolDepth.ComputePoolDepth | va-driver/src/context.c:98-130 | the driver's arithmetic, 64-bit wrap-around included |
| PoolDepth.DepthFitsBudget | va-driver/src/context.c:98-130 | for a frame counted right, whether or not AV1's second product wraps: the depth is within its bounds, and pool plus private AV1 buffers are within the budget unless it is the least |
| PoolDepth.LeastDepthExact | va-driver/src/context.c:112-128 | the depth is the least one if and only if the computed frame size is not 0 and one buffer more than the least would exceed the budget |
| PoolDepth.PoolDepthExact | va-driver/src/context.c:79-130 | for every size: bounds and budget are kept, counted with the true frame size, if and only if the 64-bit product does not wrap or what is left of it is not 0 and still too large for one buffer more than the least |
| PoolDepth.PoolDepthNeverGrows | va-driver/src/context.c:98-130 | a larger width or height never gets a deeper pool, if its own 64-bit product does not wrap |
| PoolDepth.NeverGrowsExact | va-driver/src/context.c:98-130 | a size gets no deeper a pool than any smaller size if and only if it meets the same condition as for the budget |
| PoolDepth.WrappedSizeMissesBudget | va-driver/src/context.c:101-102 | a concrete size where the product wraps: a frame of over 2^62 bytes counts as 1098 and gets the deepest pool, 64, where the smaller 8K size gets 20 |
| PoolDepth.ZeroFrame | va-driver/src/context.c:101-108 | the computed frame size is 0 if and only if width times height is 2^61 at 24 bits a pixel, or 3074457345618258603 at 12 |
| PoolDepth.FactorsOfPow2 | va-driver/src/context.c:101-102 | 2^61 is no product of two ints, so that never happens at 24 bits |
| PoolDepth.DepthWithinBounds | va-driver/src/context.c:104-129 | for every width and height with the driver's 12 or 24 bits a pixel, the depth is within [20,64], for AV1 [9,25], unless it is AV1 at 12 bits with exactly that product |
| PoolDepth.VectorsExact | va-driver/src/context.c:88-96 | 768 bytes of motion vectors for each block of 64 by 64 pixels the picture touches, and 512 more |
| PoolDepth.DepthAt1080 | va-driver/src/context.c:98-130 | 1920x1080 at 12 bits a pixel gets 64 buffers, and 25 for AV1 |
| PoolDepth.DepthAt2160 | va-driver/src/context.c:98-130 | 3840x2160 gets 32, and 25 for AV1 |
| PoolDepth.DepthAt4320 | va-driver/src/context.c:98-130 | 7680x4320 gets 20, and 9 for AV1 |
| PoolDepth.RequestBuffersBackoff | va-driver/src/context.c:137-154 | hands back what the kernel grants for the largest size it does not refuse among the wanted one and the ladder below it, and fails exactly when it refuses all |
| FreeList.PopThreads | va-driver/src/object_heap.c:84-92 | taking the head keeps the list acyclic and over exactly the unallocated slots |
| FreeList.PushThreads | va-driver/src/object_heap.c:207-212 | so does putting a slot back |
| FreeList.GrowThreads | va-driver/src/object_heap.c:55-67 | so does threading a new slab in front |
| ObjectHeap.MaskExact | va-driver/src/object_heap.c:137-141 | the 24-bit mask recovers a slot from its id exactly while the heap has at most 2^24 slots; ids then fit a C int |
| ObjectHeap.MaskKeepsBits | va-driver/src/object_heap.h:34 | the offset mask keeps bits 24 to 30 of any offset and nothing else |
| ObjectHeap.HeapsApart | va-driver/src/object_heap.c:101 | ids of heaps whose offsets differ in bits 24 to 30 never meet |
| ObjectHeap.KindsApart | va-driver/src/object_heap.c:101 | the driver's five offsets are left as they are by the mask, so ids of configs, contexts, surfaces, buffers and images never meet |
| ObjectHeap.FillSlab | va-driver/src/object_heap.c:58-64 | the descending loop numbers the new slots and links each to the next |
| ObjectHeap.Heap.Init | va-driver/src/object_heap.c:96-110 | a heap starts with no object and 16 free slots, handed out in order from the offset's own id, or fails as its allocations do |
| ObjectHeap.Heap.Expand | va-driver/src/object_heap.c:29-71 | 16 more slots or none, none of the old ones moved, nothing allocated or freed; fails exactly when an allocation it needs fails |
| ObjectHeap.Heap.Allocate | va-driver/src/object_heap.c:73-94 | an id not in use, the slot freed last or the first of a new slab, and a live map with exactly that object added; -1 exactly when the heap cannot grow |
| ObjectHeap.Heap.Lookup | va-driver/src/object_heap.c:122-149 | an object exactly for the ids that are live, and that id's own |
| ObjectHeap.Heap.Next | va-driver/src/object_heap.c:162-205 | the next live slot, skipping none |
| ObjectHeap.Heap.Free | va-driver/src/object_heap.c:207-212 | a live map with exactly that object removed, and its slot first on the list |
| ObjectHeap.Heap.DestroyAll | va-driver/src/request.c:264-316 | freeing while iterating visits each live object once, in increasing id order, and leaves none |
| ObjectHeap.Heap.AllSlotsFree | va-driver/src/request.c:264-316 | then every slot is on the free list |
| Ownership.StackNeverFull | va-driver/src/picture.c:112-115 | while some index is in use the free stack is not full, so the guard never drops one |
| Ownership.TakeKeeps | va-driver/src/picture.c:87-91 | taking hands out an index that was free or new |
| Ownership.GiveKeeps | va-driver/src/picture.c:139-142 | giving back an index in use always pushes it, and only it changes hands |
| Ownership.BindSourceHands | va-driver/src/picture.c:66-120 | on every path, error paths included, the pool's books and the surface agree afterwards if they did before |
| Ownership.BindDestinationHands | va-driver/src/picture.c:147-322 | the same for CAPTURE buffers |
| Ownership.BindSourceKeepsTaken | va-driver/src/picture.c:66-120 | binding an OUTPUT buffer, mapped or not, never takes an index from another holder |
| Ownership.BindDestinationKeepsTaken | va-driver/src/picture.c:147-322 | binding a CAPTURE buffer likewise, on every path |
| Sessions.DecoderSession.BindSourceBuffer | va-driver/src/picture.c:66-120 | on the struct's fields and stack array: the session and the surface become what the value function says |
| Sessions.DecoderSession.ReleaseSourceBuffer | va-driver/src/picture.c:128-145 | the index goes back on the stack and the surface lets go |
| Sessions.DecoderSession.BindDestinationBuffer | va-driver/src/picture.c:147-322 | likewise, with the session pointer undone on failure |
| Sessions.DecoderSession.TakeBack | va-driver/src/surface.c:320-332 | both indices go back to the session that lent them |
| Sessions.DecoderSession.Close | va-driver/src/session.c:53-72 | the pools are empty and unconfigured |
| Sessions.DecoderSession.Assign | va-driver/src/picture.c:608 | the whole pool is copied |
| Sessions.DetachSession | va-driver/src/surface.c:405-456 | every surface of the session lets go of it and of its indices, no other changes |
| Sessions.RewireSurfaces | va-driver/src/picture.c:545-560 | every borrower of the probe session, and no other surface, is moved |
| Sessions.AdoptProbeSession | va-driver/src/picture.c:570-615 | adoption happens exactly when all tests pass, moves pool and borrowers and leaves an empty probe session; otherwise nothing changes |
| Protocol.StepFits | va-driver/src/surface.c:405-456 | every entry point, and every answer of the kernel, keeps each surface's session none, the probe session or a live context's |
| Protocol.RunsNeverDangle | va-driver/src/surface.c:391-404 | no session pointer dangles in any run of legal calls, through detach, slot reuse and adoption |
| Protocol.AdoptFits | va-driver/src/picture.c:570-615 | adoption leaves no surface on the probe session |
| Protocol.DestroyContextFits | va-driver/src/context.c:646-712 | destroying a context leaves no surface pointing at it |
| ProtocolOwnership.BindAndRenderOwned | va-driver/src/picture.c:702-725 | RequestBeginPicture's binds keep ownership |
| ProtocolOwnership.ReleaseOwned | va-driver/src/picture.c:128-145 | the release at the end of RequestEndPicture keeps ownership if the surface borrowed from that session |
| ProtocolOwnership.RecycleOwned | va-driver/src/surface.c:304-389 | destroying a surface gives its indices back and keeps ownership |
| ProtocolOwnership.StrandOwned | va-driver/src/surface.c:313-389 | a surface that could not be waited for takes its indices with it and keeps ownership too |
| ProtocolOwnership.AdoptOwned | va-driver/src/picture.c:585-610 | a context that never handed out an index has no borrowers, so replacing its pool leaves nobody behind |
| ProtocolOwnership.DestroyContextOwned | va-driver/src/context.c:695-712 | detaching keeps every other session's books |
| ProtocolOwnership.EndOwned | va-driver/src/picture.c:859-997 | RequestEndPicture keeps ownership when its target is its own session's or nobody's |
| ProtocolOwnership.StepOwned | va-driver/src/picture.c:66-322 | every step keeps ownership, under that one condition |
| ProtocolOwnership.RunsKeepOwnership | va-driver/src/surface.c:304-389 | so does every run |
| ProtocolOwnership.IndicesArePartitioned | va-driver/src/session.h:35-49 | after any such run from the start, for each session and queue: free, held and lost indices are apart, none twice, and together exactly 0 to next-1, with next at most the granted count |
| ProtocolInFlight.RecycleInFlight | va-driver/src/surface.c:313-333 | indices are recycled only while nothing is queued on them |
| ProtocolInFlight.StrandInFlight | va-driver/src/surface.c:313-318 | a surface that cannot be waited for takes its indices out of circulation |
| ProtocolInFlight.FinishInFlight | va-driver/src/surface.c:520-558 | every outcome after the lock is back, failed waits and dequeues included, keeps queued indices guarded, if the surface's own indices are what is dequeued wherever they were queued |
| ProtocolInFlight.QueueBothInFlight | va-driver/src/picture.c:973-984 | queueing the buffers of a rendering surface keeps them guarded, whichever of the two fails |
| ProtocolInFlight.EndInFlight | va-driver/src/picture.c:859-997 | RequestEndPicture keeps queued indices guarded when its target is rendering |
| ProtocolInFlight.StepInFlight | va-driver/src/surface.c:505-557 | every step keeps queued indices guarded, under these two conditions |
| ProtocolInFlight.QueuedIsNeverFree | va-driver/src/surface.c:313-333 | after any such run, any interleaving at the unlock point and any failed ioctl, no index queued to the kernel is on a free stack or still to be handed out |
| ProtocolClients.StepTargets | va-driver/src/picture.c:634-997 | for clients that do not destroy, sync or begin again a surface between its begin and its successful end, the render target is still bound, with its OUTPUT buffer, and rendering at every end |
| ProtocolClients.OrderlyClientsKeepOwnership | va-driver/src/surface.c:304-389 | for them the partition holds with no further condition |
| ProtocolClients.OrderlyClientsKeepInFlight | va-driver/src/surface.c:505-557 | and in-flight safety needs only that, when a wait completes, the surface's indices are alone in the kernel's queues |
| ProtocolSolo.StepSolo | va-driver/src/picture.c:973-997 | while no vaEndPicture fails to queue or to wait, every step of such clients leaves queued on a context only what the one vaEndPicture waiting with it has queued |
| ProtocolSolo.SoloIsUnmixed | va-driver/src/v4l2.c:393-421 | then the indices of any waiting surface are alone in their queues |
| ProtocolSolo.OrderlyClientsAreSafe | va-driver/src/surface.c:304-333 | so over every such run, with nothing asked of what a dequeue returns, no index queued to the kernel can be handed out again |
| ProtocolDecode.BeginRenders | va-driver/src/picture.c:690-733 | for any codec: after such a vaBeginPicture the surface is the render target, rendering, with the OUTPUT index the pool had on top; AV1 leaves the CAPTURE side alone, the others have a CAPTURE buffer |
| ProtocolDecode.LateBind | va-driver/src/picture.c:948-950 | vaEndPicture binds the CAPTURE buffer an AV1 frame began without |
| ProtocolDecode.DecodeGivesSourceBack | va-driver/src/picture.c:634-997 | a frame of any codec whose begin, end and wait all succeed, for AV1 with the CAPTURE buffer bound at the end, gives its OUTPUT index back, so the free stack is what it was or has the one new index, keeps its CAPTURE index, has both off the kernel's queues, and changes nothing else |
| ProtocolEffects.SourceEffect | va-driver/src/picture.c:66-120 | on every path of an OUTPUT bind: which index leaves the pool, what the surface has afterwards, and that a surface whose bind failed at mapping has still joined the session |
| ProtocolEffects.DestinationEffect | va-driver/src/picture.c:147-322 | on every path of a CAPTURE bind, where a failure leaves the surface as it was |
| ProtocolEffects.BeginAv1 | va-driver/src/picture.c:702-724 | for AV1 the OUTPUT buffer alone makes a surface the render target: status, target, and both pools, for every surface that has or can get one |
| ProtocolEffects.BeginOther | va-driver/src/picture.c:702-733 | the other codecs take both buffers; a surface left with one keeps it and is no target |
| ProtocolEffects.BeginWithoutSource | va-driver/src/picture.c:702-707 | without an OUTPUT buffer nothing is rendered, and at most the surface's session changes |
| ProtocolEffects.BeginOnProbe | va-driver/src/picture.c:570-632 | beginning a surface of the probe session moves pool, handles and all its borrowers to the context, leaves the probe session empty, and then begins there |
| ProtocolEffects.BeginForeign | va-driver/src/picture.c:634-690 | a surface of another session that cannot be moved is refused and nothing changes |
| ProtocolEffects.BeginAfterWait | va-driver/src/picture.c:690-733 | waiting inside vaBeginPicture leaves what vaSyncSurface and then vaBeginPicture would have |
| ProtocolEffects.EndBindsFirst | va-driver/src/picture.c:948-950 | a target without a CAPTURE buffer gets it as an export from the context's session would give it, and only then goes on |
| ProtocolEffects.EndEffect | va-driver/src/picture.c:881-997 | vaEndPicture on a target with a CAPTURE buffer, wherever it stops: request, streaming, controls, CAPTURE queue, OUTPUT queue, then wait, release, or neither |
| ProtocolEffects.EndWithoutTarget | va-driver/src/picture.c:881-890 | without a live target, or a configured session, nothing changes |
| ProtocolEffects.EndAfterWait | va-driver/src/picture.c:985-997 | after its wait completes the OUTPUT index is back on the context's stack and the context has no target |
| ProtocolEffects.SyncEffect | va-driver/src/surface.c:458-520 | vaSyncSurface waits for exactly the surfaces that are rendering on a configured session with a request the kernel takes, and otherwise drops at most the request |
| ProtocolEffects.CompletedSync | va-driver/src/surface.c:520-557 | a wait that completes takes both returned indices off the queues and shows the surface |
| ProtocolEffects.FailedWait | va-driver/src/surface.c:520-557 | a wait that fails anywhere leaves the surface rendering, without a request, so that nothing can wait for it again |
| ProtocolEffects.OthersWait | va-driver/src/surface.c:458-520 | vaBeginPicture and vaDestroySurfaces wait as vaSyncSurface does |
| ProtocolEffects.DestroyIdle | va-driver/src/surface.c:304-389 | a surface that is not rendering goes at once, and each of its indices comes onto the stack it is from |
| ProtocolEffects.DestroyBusy | va-driver/src/surface.c:304-389 | one that is rendering and cannot be waited for goes with its indices |
| ProtocolEffects.DestroyAfterWait | va-driver/src/surface.c:304-389 | waiting inside vaDestroySurfaces leaves what waiting before it would have, completed or not |
| ProtocolEffects.DestroyContextEffect | va-driver/src/surface.c:405-457 | a destroyed context's surfaces stay, with their status and without session or indices, and nothing else changes |
| ProtocolEffects.SwitchBitDepthEffect | va-driver/src/context.c:467-540 | the CAPTURE pool starts over with what was granted, and a format that cannot be had leaves the session unconfigured |
| ProtocolEffects.ExportEffect | va-driver/src/surface.c:881-930 | an export binds a CAPTURE buffer to a surface without one, from its own session or, if it has none, from the one given, the probe session included |
| ProtocolLimits.ReleaseExact | va-driver/src/picture.c:992 | after releasing a source buffer into a context's pool every pool is still partitioned if and only if the surface borrowed it there; otherwise the session it did borrow it from has lost it (`ReleasedElsewhere`) |
| ProtocolLimits.QueueExact | va-driver/src/picture.c:973-977 | once a surface's CAPTURE buffer is queued, destroying the surface leaves no queued index free if and only if the surface is rendering |
| ProtocolLimits.DequeueExact | va-driver/src/v4l2.c:393-421 | whatever indices the kernel returns, the surface's buffers can go back to their pools after the wait with no queued index free, if and only if one queue is empty, so that no wait completes, or the surface's own indices, where queued, are alone in their queues |
| ProtocolLimits.StaleTargetFreesQueuedIndex | va-driver/src/picture.c:881-884 | a run of legal calls in which a destroyed and reissued surface id puts a queued index on the free stack |
| ProtocolLimits.ForeignTargetLosesIndex | va-driver/src/picture.c:992 | a run in which one context's index is released into another's pool and leaks from its own |
| ProtocolLimits.OtherIndexFreesQueuedIndex | va-driver/src/v4l2.c:414-420 | a run in which a timed-out request's buffers are dequeued by the next wait and a queued index is recycled |

## Left out

- Liveness: after a failed decode a surface stays rendering and later calls on it keep failing. Only safety is claimed.
- 32-bit overflow of the range decoder's bit counter, after about 2^28 reads past the end of a buffer.
- What a copy past the end of the coded buffer's mapping does: `AnnexB.CodedBuffer` stops there.
- ioctl, mmap, poll, file descriptor and device discovery code (`v4l2.c`, `media.c`, `device.c`): an environment that
  may succeed or fail.
- Encoder contexts, image and buffer objects, plane copies, dma-buf export and cache synchronisation.
- Configuration and attribute queries, and the generated locking wrappers: only that each entry point holds the lock.
- Field-by-field transcription into control structs (sequence and picture parameter sets, film grain, CDEF, scaling
  lists), and the fields of the VP9 frame control that are copied unchanged from the client.
- The video formats behind a session: a session is configured or not, and whether a probe session matches a context
  is a parameter.
- Superres: the tile geometry is that of the coded frame width.
- Mapping lengths, offsets and plane layout of a CAPTURE buffer: whether they can be set up is a parameter.
- The mutexes of the object heaps, and the size of the objects in them.
- Protocol.DestroyContextFits: a context is destroyed only while no call waits with it or on its session, as the
  driver's own comment at the unlock point expects of clients.
- Sessions.DetachSession: the surfaces are given as a list, in the order the heap iterator of `ObjectHeap` visits them.
- Sessions.RewireSurfaces: likewise.
- CompressedReader.Control.Fill: the struct's arrays are one array with offsets, so that one loop stands for a nest of
  loops over consecutive elements; the coefficient loops, which skip elements, stay nested.
- PoolDepth.DepthWithinBounds: the excepted product, 39845907 * 77158673929, is that of no two ints if its second
  factor is prime, which is not part of the model; both sides would have to be over 1431655765 pixels.
- UniformTiles.TileLog2: on unbounded numbers; the driver's counts are bytes, so its 32-bit shift does not overflow.
