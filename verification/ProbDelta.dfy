/**
The probability-delta code of the VP9 compressed header (vp9.c), section 6.3.5 of the VP9 bitstream specification: a
prefix code for an index, and the table that turns the index into a probability.
*/
module ProbDelta {
  import opened Arithmetic
  import opened BoolDecoder
  import opened Options
  import opened BitSyntax

  // ----- the code

  const INDICES := 255

  datatype Coded = Coded(index: nat, rest: seq<bool>)

  /** The index in front of a string of bits. */
  function Decode(b: seq<bool>): (r: Option<Coded>)
    ensures r.Some? ==> r.value.index < INDICES
  {
    if |b| < 1 then None
    else if !b[0] then DecodeField(b[1..], 4, 0)
    else if |b| < 2 then None
    else if !b[1] then DecodeField(b[2..], 4, 16)
    else if |b| < 3 then None
    else if !b[2] then DecodeField(b[3..], 5, 32)
    else if |b| < 10 then None
    else
      FieldBound(b[3..10], 7);
      var d := Number(b[3..10]);
      if d < 65 then Some(Coded(d + 64, b[10..]))
      else if |b| < 11 then None
      else Some(Coded(2 * d - 65 + (if b[10] then 1 else 0) + 64, b[11..]))
  }

  function DecodeField(b: seq<bool>, n: nat, base: nat): (r: Option<Coded>)
    requires n <= 5
    ensures r.Some? ==> base <= r.value.index < base + 32 && (n == 4 ==> r.value.index < base + 16)
  {
    if |b| < n then None
    else
      FieldBound(b[..n], n);
      Some(Coded(base + Number(b[..n]), b[n..]))
  }

  lemma FieldBound(bits: seq<bool>, n: nat)
    requires |bits| == n
    ensures n <= 4 ==> Number(bits) < 16
    ensures n <= 5 ==> Number(bits) < 32
    ensures n <= 7 ==> Number(bits) < 128
  {
  }

  /** The one bit string of an index. */
  function Encode(index: nat): seq<bool>
    requires index < INDICES
  {
    if index < 16 then [false] + Digits(index, 4)
    else if index < 32 then [true, false] + Digits(index - 16, 4)
    else if index < 64 then [true, true, false] + Digits(index - 32, 5)
    else
      var d := index - 64;
      if d < 65 then [true, true, true] + Digits(d, 7)
      else [true, true, true] + Digits((d + 65) / 2, 7) + [(d + 65) % 2 == 1]
  }

  lemma DigitsBound(x: nat, n: nat)
    requires (n == 4 && x < 16) || (n == 5 && x < 32) || (n == 7 && x < 128)
    ensures x < Pow2(n) && Number(Digits(x, n)) == x
  {
    assert Pow2(1) == 2 && Pow2(2) == 4;
    assert Pow2(3) == 8 && Pow2(4) == 16;
    assert Pow2(5) == 32 && Pow2(6) == 64;
    assert Pow2(7) == 128;
    NumberOfDigits(x, n);
  }

  lemma FieldDecodes(x: nat, n: nat, base: nat, tail: seq<bool>)
    requires (n == 4 && x < 16) || (n == 5 && x < 32)
    ensures DecodeField(Digits(x, n) + tail, n, base) == Some(Coded(base + x, tail))
  {
    DigitsBound(x, n);
    assert (Digits(x, n) + tail)[..n] == Digits(x, n) && (Digits(x, n) + tail)[n..] == tail;
  }

  /** Every index from 0 to 254 decodes from its bit string, whatever follows. */
  lemma DecodeEncode(index: nat, tail: seq<bool>)
    requires index < INDICES
    ensures Decode(Encode(index) + tail) == Some(Coded(index, tail))
  {
    hide Number, Digits, DecodeField;
    var b := Encode(index) + tail;
    if index < 16 {
      assert b[1..] == Digits(index, 4) + tail;
      FieldDecodes(index, 4, 0, tail);
    } else if index < 32 {
      assert b[2..] == Digits(index - 16, 4) + tail;
      FieldDecodes(index - 16, 4, 16, tail);
    } else if index < 64 {
      assert b[3..] == Digits(index - 32, 5) + tail;
      FieldDecodes(index - 32, 5, 32, tail);
    } else {
      LongDecodes(index, tail);
    }
  }

  lemma LongDecodes(index: nat, tail: seq<bool>)
    requires 64 <= index < INDICES
    ensures Decode(Encode(index) + tail) == Some(Coded(index, tail))
  {
    hide Number, Digits, DecodeField;
    var b, d := Encode(index) + tail, index - 64;
    var x := if d < 65 then d else (d + 65) / 2;
    DigitsBound(x, 7);
    assert b[3..10] == Digits(x, 7);
    if d < 65 {
      assert b[10..] == tail;
    } else {
      assert b[10] == ((d + 65) % 2 == 1) && b[11..] == tail;
    }
  }

  /** Only its bit string decodes to an index. */
  lemma EncodeDecode(b: seq<bool>)
    requires Decode(b).Some?
    ensures var c := Decode(b).value; b == Encode(c.index) + c.rest
  {
    hide Number, Digits;
    if !b[0] {
      FieldEncodes(b[1..], 4, 0);
      assert b == [false] + b[1..];
    } else if !b[1] {
      FieldEncodes(b[2..], 4, 16);
      assert b == [true, false] + b[2..];
    } else if !b[2] {
      FieldEncodes(b[3..], 5, 32);
      assert b == [true, true, false] + b[3..];
    } else {
      LongEncodes(b);
    }
  }

  lemma FieldEncodes(b: seq<bool>, n: nat, base: nat)
    requires n <= 5 && |b| >= n
    ensures var x := DecodeField(b, n, base).value.index - base; x == Number(b[..n]) && Digits(x, n) == b[..n]
  {
    DigitsOfNumber(b[..n]);
  }

  lemma LongEncodes(b: seq<bool>)
    requires Decode(b).Some? && b[0] && b[1] && b[2]
    ensures var c := Decode(b).value; b == Encode(c.index) + c.rest
  {
    hide Number, Digits, DecodeField;
    var bits := b[3..10];
    DigitsOfNumber(bits);
    FieldBound(bits, 7);
    var d := Number(bits);
    if d < 65 {
      assert b == [true, true, true] + bits + b[10..];
    } else {
      assert b == [true, true, true] + bits + [b[10]] + b[11..];
    }
  }

  /** The code is complete: eleven bits always hold an index. */
  lemma ElevenBitsDecode(b: seq<bool>)
    requires |b| >= 11
    ensures Decode(b).Some? && |Encode(Decode(b).value.index)| <= 11
  {
  }

  /** The strings' lengths, and the numbers they make: five to eleven bits, in the order of the indices. */
  lemma CodeInNumbers(i: nat)
    requires i < INDICES
    ensures |Encode(i)|
      == if i < 16 then 5 else if i < 32 then 6 else if i < 64 then 8 else if i < 129 then 10 else 11
    ensures Number(Encode(i)) ==
      if i < 16 then i else if i < 32 then i + 16 else if i < 64 then i + 160
      else if i < 129 then i + 832 else i + 1793
  {
    hide Digits;
    if i < 16 {
      FieldNumber([false], i, 4);
    } else if i < 32 {
      FieldNumber([true, false], i - 16, 4);
    } else if i < 64 {
      FieldNumber([true, true, false], i - 32, 5);
    } else if i < 129 {
      FieldNumber([true, true, true], i - 64, 7);
    } else {
      FieldNumber([true, true, true], (i + 1) / 2, 7);
      var b := [true, true, true] + Digits((i + 1) / 2, 7);
      assert Encode(i)[..10] == b;
    }
  }

  /** A field behind a prefix of at most three bits. */
  lemma FieldNumber(prefix: seq<bool>, x: nat, n: nat)
    requires |prefix| <= 3 && ((n == 4 && x < 16) || (n == 5 && x < 32) || (n == 7 && x < 128))
    ensures Number(prefix + Digits(x, n)) == Number(prefix) * (if n == 4 then 16 else if n == 5 then 32 else 128) + x
  {
    hide Digits, Number;
    DigitsBound(x, n);
    NumberOfBoth(prefix, Digits(x, n));
    assert Shl(Number(prefix), n) == Number(prefix) * (if n == 4 then 16 else if n == 5 then 32 else 128) by {
      assert Shl(Number(prefix), 3) == 8 * Number(prefix);
      assert Shl(Number(prefix), 6) == 8 * Shl(Number(prefix), 3);
    }
  }

  lemma {:induction false} NumberOfBoth(a: seq<bool>, b: seq<bool>)
    ensures Number(a + b) == Shl(Number(a), |b|) + Number(b)
  {
    if b == [] {
      assert a + b == a;
    } else {
      NumberOfBoth(a, b[..|b| - 1]);
      assert (a + b)[..|a + b| - 1] == a + b[..|b| - 1];
    }
  }

  // ----- the table

  /** Rows of twelve, and a last one of three. */
  function Row(row: nat): (r: seq<nat>)
    requires row < 22
    ensures |r| == if row == 21 then 3 else 12
  {
    if row == 0 then [7, 20, 33, 46, 59, 72, 85, 98, 111, 124, 137, 150]
    else if row == 1 then [163, 176, 189, 202, 215, 228, 241, 254, 1, 2, 3, 4]
    else if row == 2 then [5, 6, 8, 9, 10, 11, 12, 13, 14, 15, 16, 17]
    else if row == 3 then [18, 19, 21, 22, 23, 24, 25, 26, 27, 28, 29, 30]
    else if row == 4 then [31, 32, 34, 35, 36, 37, 38, 39, 40, 41, 42, 43]
    else if row == 5 then [44, 45, 47, 48, 49, 50, 51, 52, 53, 54, 55, 56]
    else if row == 6 then [57, 58, 60, 61, 62, 63, 64, 65, 66, 67, 68, 69]
    else if row == 7 then [70, 71, 73, 74, 75, 76, 77, 78, 79, 80, 81, 82]
    else if row == 8 then [83, 84, 86, 87, 88, 89, 90, 91, 92, 93, 94, 95]
    else if row == 9 then [96, 97, 99, 100, 101, 102, 103, 104, 105, 106, 107, 108]
    else if row == 10 then [109, 110, 112, 113, 114, 115, 116, 117, 118, 119, 120, 121]
    else if row == 11 then [122, 123, 125, 126, 127, 128, 129, 130, 131, 132, 133, 134]
    else if row == 12 then [135, 136, 138, 139, 140, 141, 142, 143, 144, 145, 146, 147]
    else if row == 13 then [148, 149, 151, 152, 153, 154, 155, 156, 157, 158, 159, 160]
    else if row == 14 then [161, 162, 164, 165, 166, 167, 168, 169, 170, 171, 172, 173]
    else if row == 15 then [174, 175, 177, 178, 179, 180, 181, 182, 183, 184, 185, 186]
    else if row == 16 then [187, 188, 190, 191, 192, 193, 194, 195, 196, 197, 198, 199]
    else if row == 17 then [200, 201, 203, 204, 205, 206, 207, 208, 209, 210, 211, 212]
    else if row == 18 then [213, 214, 216, 217, 218, 219, 220, 221, 222, 223, 224, 225]
    else if row == 19 then [226, 227, 229, 230, 231, 232, 233, 234, 235, 236, 237, 238]
    else if row == 20 then [239, 240, 242, 243, 244, 245, 246, 247, 248, 249, 250, 251]
    else [252, 253, 253]
  }

  function InvMap(d: nat): nat
    requires d < INDICES
  {
    Row(d / 12)[d % 12]
  }

  /** Every 13th value from 7 on first, then the values between them in order. */
  function Formula(d: nat): nat
  {
    if d < 20 then 7 + 13 * d else (d - 20) + 1 + (d - 14) / 12
  }

  lemma Rows0(row: nat, k: nat)
    requires 0 <= row < 3 && k < |Row(row)| && 12 * row + k < 254
    ensures Row(row)[k] == Formula(12 * row + k)
  {
  }

  lemma Rows3(row: nat, k: nat)
    requires 3 <= row < 6 && k < |Row(row)| && 12 * row + k < 254
    ensures Row(row)[k] == Formula(12 * row + k)
  {
  }

  lemma Rows6(row: nat, k: nat)
    requires 6 <= row < 9 && k < |Row(row)| && 12 * row + k < 254
    ensures Row(row)[k] == Formula(12 * row + k)
  {
  }

  lemma Rows9(row: nat, k: nat)
    requires 9 <= row < 12 && k < |Row(row)| && 12 * row + k < 254
    ensures Row(row)[k] == Formula(12 * row + k)
  {
  }

  lemma Rows12(row: nat, k: nat)
    requires 12 <= row < 15 && k < |Row(row)| && 12 * row + k < 254
    ensures Row(row)[k] == Formula(12 * row + k)
  {
  }

  lemma Rows15(row: nat, k: nat)
    requires 15 <= row < 18 && k < |Row(row)| && 12 * row + k < 254
    ensures Row(row)[k] == Formula(12 * row + k)
  {
  }

  lemma Rows18(row: nat, k: nat)
    requires 18 <= row < 22 && k < |Row(row)| && 12 * row + k < 254
    ensures Row(row)[k] == Formula(12 * row + k)
  {
  }

  lemma TableIsFormula(d: nat)
    requires d < 254
    ensures InvMap(d) == Formula(d)
  {
    hide Row, Formula;
    var row, k := d / 12, d % 12;
    assert d == 12 * row + k;
    if row < 3 {
      Rows0(row, k);
    } else if row < 6 {
      Rows3(row, k);
    } else if row < 9 {
      Rows6(row, k);
    } else if row < 12 {
      Rows9(row, k);
    } else if row < 15 {
      Rows12(row, k);
    } else if row < 18 {
      Rows15(row, k);
    } else {
      Rows18(row, k);
    }
  }

  /** Where a value is in the table. */
  function Position(v: nat): nat
    requires 1 <= v <= 254
  {
    if v % 13 == 7 then v / 13 else v + 19 - (v + 5) / 13
  }

  /** The indices 0 to 253 go one-to-one onto the values 1 to 254; only index 254 repeats one. */
  lemma TableIsBijection(d: nat)
    requires d < 254
    ensures 1 <= InvMap(d) <= 254 && Position(InvMap(d)) == d
  {
    hide Row;
    TableIsFormula(d);
  }

  lemma TableIsOnto(v: nat)
    requires 1 <= v <= 254
    ensures Position(v) < 254 && InvMap(Position(v)) == v
  {
    hide Row;
    TableIsFormula(Position(v));
  }

  lemma LastRepeats()
    ensures InvMap(254) == InvMap(253) == 253
  {
  }

  lemma NeverZero(d: nat)
    requires d < INDICES
    ensures 1 <= InvMap(d) <= 254
  {
    hide Row;
    if d < 254 {
      TableIsBijection(d);
    } else {
      LastRepeats();
    }
  }
}
