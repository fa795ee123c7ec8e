/**
Annex-B framing of the slices a client sends bare (picture.c), and the two scanners that read a header back from the
framed buffer (h264.c, h265.c).
*/
module AnnexB {
  import opened Arithmetic
  import opened Options

  const START_CODE: seq<byte> := [0, 0, 0, 1]

  datatype Codec = H264 | Hevc

  /** Overrun: the guard let a unit through that leaves the mapping; what the copy then does is not modelled. */
  datatype Outcome = Stored | Refused | Overrun

  /** What the 32-bit guard lets through, with so many bytes in use and so many mapped. */
  function Guard(used: nat, size: nat, length: nat): Outcome
  {
    if (used + size) % WORD > length then Refused else if used + size > length then Overrun else Stored
  }

  /** The slice data of a surface: the mapped OUTPUT buffer and how much of it is in use. */
  class CodedBuffer {
    const sourceData: array<byte>
    var slicesSize: nat
    var slicesCount: nat

    ghost predicate Valid()
      reads this
    {
      slicesSize <= sourceData.Length < WORD
    }

    ghost function Contents(): seq<byte>
      requires Valid()
      reads this, sourceData
    {
      sourceData[..slicesSize]
    }

    constructor (size: nat)
      requires size < WORD
      ensures Valid() && Contents() == [] && slicesCount == 0 && sourceData.Length == size && fresh(sourceData)
    {
      sourceData := new byte[size];
      slicesSize, slicesCount := 0, 0;
    }

    /** memcpy to the end of what is in use. */
    method Append(data: seq<byte>)
      requires Valid() && slicesSize + |data| <= sourceData.Length
      modifies this`slicesSize, sourceData
      ensures Valid() && Contents() == old(Contents()) + data
    {
      forall i | 0 <= i < |data| {
        sourceData[slicesSize + i] := data[i];
      }
      slicesSize := slicesSize + |data|;
    }

    /** codec_store_buffer on slice data; `framed` is false for VP9 and AV1. */
    method StoreSlice(data: seq<byte>, framed: bool) returns (outcome: Outcome)
      requires Valid() && |data| < WORD
      modifies this, sourceData
      ensures Valid()
      ensures var unit := (if framed then [0, 0, 0, 1] else []) + data;
        && outcome == Guard(old(slicesSize), |unit|, sourceData.Length)
        && if outcome == Stored
           then Contents() == old(Contents()) + unit && slicesCount == old(slicesCount) + 1
           else Contents() == old(Contents()) && slicesCount == old(slicesCount)
    {
      var prefixSize := if framed then |START_CODE| else 0;
      if (slicesSize + prefixSize + |data|) % WORD > sourceData.Length {
        return Refused;
      }
      if slicesSize + prefixSize + |data| > sourceData.Length {
        return Overrun;
      }
      if prefixSize != 0 {
        Append(START_CODE);
      }
      Append(data);
      slicesCount := slicesCount + 1;
      outcome := Stored;
    }
  }

  // ----- the guard, on 32-bit sums

  lemma GuardStores(used: nat, size: nat, length: nat)
    requires used <= length < WORD
    ensures Guard(used, size, length) == Stored <==> used + size <= length
    ensures Guard(used, size, length) == Overrun ==> used + size >= WORD
  {
  }

  /** The guard keeps a unit inside every buffer exactly when the sum fits 32 bits. */
  lemma GuardExact(used: word, size: nat)
    ensures (forall length: word | used <= length :: Guard(used, size, length) != Overrun) <==> used + size < WORD
  {
    if used + size >= WORD {
      var sum := (used + size) % WORD;
      var length: word := if sum < used then used else sum;
      assert Guard(used, size, length) == Overrun;
    }
  }

  /** The largest slice data RequestCreateBuffer accepts less 3: with its start code it counts as 0 bytes. */
  lemma WrappedSliceOverruns(length: word)
    ensures Guard(0, |START_CODE| + 0xFFFF_FFFC, length) == Overrun
  {
  }

  /** What storing these units one after the other leaves in the buffer. */
  function Framed(nals: seq<seq<byte>>): seq<byte>
  {
    if nals == [] then [] else START_CODE + nals[0] + Framed(nals[1..])
  }

  lemma {:induction false} FramedAppend(nals: seq<seq<byte>>, nal: seq<byte>)
    ensures Framed(nals + [nal]) == Framed(nals) + [0, 0, 0, 1] + nal
  {
    if nals == [] {
      assert ([] + [nal])[1..] == [];
    } else {
      FramedAppend(nals[1..], nal);
      assert (nals + [nal])[0] == nals[0] && (nals + [nal])[1..] == nals[1..] + [nal];
    }
  }

  /** RenderPicture for each slice of an access unit. */
  method StoreSlices(buffer: CodedBuffer, nals: seq<seq<byte>>) returns (outcome: Outcome)
    requires buffer.Valid() && buffer.slicesSize == 0
    requires forall nal | nal in nals :: |nal| < WORD
    modifies buffer, buffer.sourceData
    ensures buffer.Valid()
    ensures outcome == Stored <==> |Framed(nals)| <= buffer.sourceData.Length
    ensures outcome == Stored ==> buffer.Contents() == Framed(nals)
    ensures outcome == Overrun ==> |Framed(nals)| >= WORD
    ensures outcome != Stored ==> exists k | 0 <= k < |nals| :: buffer.Contents() == Framed(nals[..k])
  {
    var k := 0;
    assert nals[..0] == [];
    while k < |nals|
      invariant 0 <= k <= |nals| && buffer.Valid() && buffer.Contents() == Framed(nals[..k])
    {
      assert nals[..k + 1] == nals[..k] + [nals[k]];
      FramedAppend(nals[..k], nals[k]);
      FramedGrows(nals, k + 1);
      GuardStores(buffer.slicesSize, |START_CODE| + |nals[k]|, buffer.sourceData.Length);
      outcome := buffer.StoreSlice(nals[k], true);
      if outcome != Stored {
        return;
      }
      k := k + 1;
    }
    assert nals[..k] == nals;
    outcome := Stored;
  }

  lemma {:induction false} FramedGrows(nals: seq<seq<byte>>, k: nat)
    requires k <= |nals|
    ensures |Framed(nals[..k])| <= |Framed(nals)|
  {
    if k > 0 {
      FramedGrows(nals[1..], k - 1);
      assert nals[..k][0] == nals[0] && nals[..k][1..] == nals[1..][..k - 1];
    }
  }

  // ----- the scanners

  /** The header byte behind a start code of three or four bytes at the very front. */
  function HeaderAt(d: seq<byte>): Option<byte>
    requires |d| >= 4
  {
    if d[0] != 0 || d[1] != 0 then None
    else if d[2] == 1 then Some(d[3])
    else if d[2] == 0 && |d| > 4 && d[3] == 1 then Some(d[4])
    else None
  }

  /** The shortest buffer a scanner looks at. */
  function Least(codec: Codec): nat
  {
    if codec.H264? then 4 else 5
  }

  /** What a scanner answers: H.264 wants types 1 to 5 and the whole header byte, HEVC types 0 to 31 and the type. */
  function Answer(codec: Codec, header: byte): Option<byte>
  {
    if codec.H264? then
      if 1 <= header % 32 <= 5 then Some(header) else None
    else
      if header / 2 % 64 <= 31 then Some(header / 2 % 64) else None
  }

  /**
  Whatever the other fields of the header: H.264 answers with the header of a unit of type 1 to 5, HEVC with the type
  of one of type 0 to 31, and neither answer is the value that says there is none.
  */
  lemma AnswerExact(forbidden: nat, refIdc: nat, avcType: nat, hevcType: nat, layer: nat)
    requires forbidden < 2 && refIdc < 4 && avcType < 32 && hevcType < 64 && layer < 2
    ensures var header := 128 * forbidden + 32 * refIdc + avcType;
      Answer(H264, header) == (if avcType in {1, 2, 3, 4, 5} then Some(header) else None)
    ensures Answer(Hevc, 128 * forbidden + 2 * hevcType + layer) == (if hevcType < 32 then Some(hevcType) else None)
    ensures NotFound(H264) == 0 && NotFound(Hevc) == 0xff
  {
  }

  /** A three-byte start code and a header are enough for H.264; the HEVC scanner wants one byte more. */
  lemma FourBytes(header: byte)
    ensures Scan(H264, [0, 0, 1, header]) == (if header % 32 in {1, 2, 3, 4, 5} then header else 0)
    ensures Scan(Hevc, [0, 0, 1, header]) == 0xff
    ensures Scan(Hevc, [0, 0, 1, header, 0]) == (if header / 2 % 64 < 32 then header / 2 % 64 else 0xff)
  {
    assert [0, 0, 1, header][1..] == [0, 1, header];
    assert [0, 0, 1, header, 0][1..] == [0, 1, header, 0];
  }

  function NotFound(codec: Codec): byte
  {
    if codec.H264? then 0 else 0xff
  }

  function AnswerAt(codec: Codec, d: seq<byte>): Option<byte>
    requires |d| >= 4
  {
    if HeaderAt(d).Some? then Answer(codec, HeaderAt(d).value) else None
  }

  function Scan(codec: Codec, d: seq<byte>): byte
  {
    if |d| < Least(codec) then NotFound(codec)
    else if AnswerAt(codec, d).Some? then AnswerAt(codec, d).value
    else Scan(codec, d[1..])
  }

  /** first_vcl_nal_header. */
  method FirstVclNalHeader(data: array?<byte>, size: nat) returns (r: byte)
    requires data != null ==> size <= data.Length
    ensures r == if data == null then NotFound(H264) else Scan(H264, data[..size])
  {
    if data == null || size < 4 {
      return 0;
    }
    var i := 0;
    while i + 3 < size
      invariant 0 <= i <= size && Scan(H264, data[..size]) == Scan(H264, data[i..size])
    {
      ghost var d := data[i..size];
      assert d[1..] == data[i + 1..size];
      var header: byte;
      if data[i] != 0 || data[i + 1] != 0 {
        i := i + 1;
        continue;
      }
      if data[i + 2] == 1 {
        header := data[i + 3];
      } else if data[i + 2] == 0 && i + 4 < size && data[i + 3] == 1 {
        header := data[i + 4];
      } else {
        i := i + 1;
        continue;
      }
      var type_ := header % 32;
      if type_ >= 1 && type_ <= 5 {
        return header;
      }
      i := i + 1;
    }
    r := 0;
  }

  /** first_slice_nal_type. */
  method FirstSliceNalType(data: array?<byte>, size: nat) returns (r: byte)
    requires data != null ==> size <= data.Length
    ensures r == if data == null then NotFound(Hevc) else Scan(Hevc, data[..size])
  {
    if data == null || size < 5 {
      return 0xff;
    }
    var i := 0;
    while i + 4 < size
      invariant 0 <= i <= size && Scan(Hevc, data[..size]) == Scan(Hevc, data[i..size])
    {
      ghost var d := data[i..size];
      assert d[1..] == data[i + 1..size];
      var type_: byte;
      if data[i] != 0 || data[i + 1] != 0 {
        i := i + 1;
        continue;
      }
      if data[i + 2] == 1 {
        type_ := data[i + 3] / 2 % 64;
      } else if data[i + 2] == 0 && data[i + 3] == 1 {
        type_ := data[i + 4] / 2 % 64;
      } else {
        i := i + 1;
        continue;
      }
      if type_ <= 31 {
        return type_;
      }
      i := i + 1;
    }
    r := 0xff;
  }

  // ----- scanning undoes framing

  /** Emulation prevention has left no start code inside. */
  ghost predicate Clean(nal: seq<byte>)
  {
    forall i | 0 <= i && i + 2 < |nal| :: !(nal[i] == 0 && nal[i + 1] == 0 && nal[i + 2] == 1)
  }

  /** The first unit that has a slice in it, as the scanner reports it. */
  function FirstVcl(codec: Codec, nals: seq<seq<byte>>): byte
  {
    if nals == [] then NotFound(codec)
    else if nals[0] != [] && Answer(codec, nals[0][0]).Some? then Answer(codec, nals[0][0]).value
    else FirstVcl(codec, nals[1..])
  }

  /** What may follow a unit: the end, or the next start code. */
  ghost predicate UnitsFollow(rest: seq<byte>)
  {
    rest == [] || START_CODE <= rest
  }

  lemma {:induction false} ScanSkipsUnit(codec: Codec, nal: seq<byte>, rest: seq<byte>)
    requires Clean(nal) && UnitsFollow(rest)
    ensures Scan(codec, nal + rest) == Scan(codec, rest)
    decreases |nal|
  {
    var d := nal + rest;
    if nal == [] {
      assert d == rest;
    } else {
      assert d[1..] == nal[1..] + rest;
      if |d| >= Least(codec) {
        NoCodeInside(nal, rest);
      }
      ScanSkipsUnit(codec, nal[1..], rest);
    }
  }

  /** Zeros at the end of a unit make the next start code no shorter: four zeros are no start code. */
  lemma NoCodeInside(nal: seq<byte>, rest: seq<byte>)
    requires Clean(nal) && UnitsFollow(rest) && nal != []
    ensures |nal + rest| >= 4 ==> HeaderAt(nal + rest) == None
    ensures Clean(nal[1..])
  {
  }

  lemma ScanAtCode(codec: Codec, nal: seq<byte>, rest: seq<byte>)
    requires Clean(nal) && nal != [] && UnitsFollow(rest)
    ensures var a := Answer(codec, nal[0]);
      Scan(codec, START_CODE + nal + rest) == if a.Some? then a.value else Scan(codec, rest)
  {
    var body := nal + rest;
    var d := START_CODE + body;
    assert START_CODE + nal + rest == d;
    assert HeaderAt(d) == Some(nal[0]);
    if Answer(codec, nal[0]) == None {
      assert d[1..] == [0, 0, 1] + body && d[1..][1..] == [0, 1] + body;
      assert d[1..][1..][1..] == [1] + body && d[1..][1..][1..][1..] == body;
      PastCode(codec, body);
      ScanSkipsUnit(codec, nal, rest);
    }
  }

  /** Seen again one byte on, the code names the same header; after that there is none left. */
  lemma PastCode(codec: Codec, body: seq<byte>)
    requires body != [] && Answer(codec, body[0]) == None
    ensures Scan(codec, [0, 0, 1] + body) == Scan(codec, body)
  {
    var one, two, three := [1] + body, [0, 1] + body, [0, 0, 1] + body;
    assert three[1..] == two && two[1..] == one && one[1..] == body;
    assert Scan(codec, one) == Scan(codec, body) by {
      assert one[0] == 1;
    }
    assert Scan(codec, two) == Scan(codec, one) by {
      assert two[1] == 1;
    }
    assert |three| >= 4 && HeaderAt(three) == Some(body[0]);
  }

  /**
  The main result: on any access unit of nonempty units without a start code inside, the scanner returns what its
  first slice unit says.
  */
  lemma {:induction false} ScanUndoesFraming(codec: Codec, nals: seq<seq<byte>>)
    requires forall i | 0 <= i < |nals| :: Clean(nals[i]) && nals[i] != []
    ensures Scan(codec, Framed(nals)) == FirstVcl(codec, nals)
    decreases |nals|
  {
    if nals != [] {
      assert Clean(nals[0]);
      ScanAtCode(codec, nals[0], Framed(nals[1..]));
      ScanUndoesFraming(codec, nals[1..]);
    }
  }

  lemma {:induction false} NotFoundIsNone(codec: Codec, nals: seq<seq<byte>>)
    requires forall i | 0 <= i < |nals| :: nals[i] != []
    ensures FirstVcl(codec, nals) == NotFound(codec)
      <==> forall i | 0 <= i < |nals| :: Answer(codec, nals[i][0]) == None
  {
    if nals != [] {
      NotFoundIsNone(codec, nals[1..]);
      assert forall i | 0 < i < |nals| :: nals[i] == nals[1..][i - 1];
      assert forall i | 0 <= i < |nals| - 1 :: nals[1..][i] == nals[i + 1];
    }
  }
}
