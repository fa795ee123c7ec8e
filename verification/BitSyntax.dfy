/**
Bit syntax: grammars of fixed-width fields whose values may decide what follows, with a parser and a printer for any
such grammar. The two undo each other, so what is proved here holds of every header written as a grammar.
*/
module BitSyntax {
  import opened Arithmetic
  import opened BoolDecoder
  import opened Options

  // ----- numbers and their bits, most significant first

  function Number(bits: seq<bool>): (r: nat)
    ensures r < Pow2(|bits|)
  {
    if bits == [] then 0
    else 2 * Number(bits[..|bits| - 1]) + if bits[|bits| - 1] then 1 else 0
  }

  function Digits(x: nat, n: nat): (r: seq<bool>)
    ensures |r| == n
  {
    if n == 0 then [] else Digits(x / 2, n - 1) + [x % 2 == 1]
  }

  lemma {:induction false} NumberOfDigits(x: nat, n: nat)
    requires x < Pow2(n)
    ensures Number(Digits(x, n)) == x
  {
    if n > 0 {
      NumberOfDigits(x / 2, n - 1);
      assert Digits(x, n)[..n - 1] == Digits(x / 2, n - 1);
    }
  }

  lemma {:induction false} DigitsOfNumber(bits: seq<bool>)
    ensures Digits(Number(bits), |bits|) == bits
  {
    if bits != [] {
      DigitsOfNumber(bits[..|bits| - 1]);
    }
  }

  // ----- grammars

  /** `Switch` reads n bits and goes on with `same` if they are `key`, and with `other` if not. */
  datatype Syntax =
    | Empty
    | Fail
    | Field(n: nat)
    | Then(first: Syntax, second: Syntax)
    | Switch(n: nat, key: nat, same: Syntax, other: Syntax)

  /** What was read: one number for each field, in the shape of the grammar. */
  datatype Tree = Nothing | Num(x: nat) | Both(left: Tree, right: Tree) | Case(x: nat, chosen: Tree)

  datatype Parsed = Parsed(tree: Tree, rest: seq<bool>)

  function Parse(g: Syntax, b: seq<bool>): (r: Option<Parsed>)
    ensures r.Some? ==> |r.value.rest| <= |b|
  {
    match g
    case Empty => Some(Parsed(Nothing, b))
    case Fail => None
    case Field(n) => if |b| < n then None else Some(Parsed(Num(Number(b[..n])), b[n..]))
    case Then(g1, g2) =>
      var p := Parse(g1, b);
      if p == None then None
      else
        var q := Parse(g2, p.value.rest);
        if q == None then None else Some(Parsed(Both(p.value.tree, q.value.tree), q.value.rest))
    case Switch(n, key, same, other) =>
      if |b| < n then None
      else
        var x := Number(b[..n]);
        var p := Parse(if x == key then same else other, b[n..]);
        if p == None then None else Some(Parsed(Case(x, p.value.tree), p.value.rest))
  }

  /** The tree has the grammar's shape, and every number fits its field. */
  predicate Fits(g: Syntax, t: Tree)
  {
    match g
    case Empty => t == Nothing
    case Fail => false
    case Field(n) => t.Num? && t.x < Pow2(n)
    case Then(g1, g2) => t.Both? && Fits(g1, t.left) && Fits(g2, t.right)
    case Switch(n, key, same, other) => t.Case? && t.x < Pow2(n) && Fits(if t.x == key then same else other, t.chosen)
  }

  function Print(g: Syntax, t: Tree): seq<bool>
    requires Fits(g, t)
  {
    match g
    case Empty => []
    case Field(n) => Digits(t.x, n)
    case Then(g1, g2) => Print(g1, t.left) + Print(g2, t.right)
    case Switch(n, key, same, other) => Digits(t.x, n) + Print(if t.x == key then same else other, t.chosen)
  }

  /** Parsing what was printed returns it, and leaves what follows. */
  lemma {:induction false} ParsePrint(g: Syntax, t: Tree, tail: seq<bool>)
    requires Fits(g, t)
    ensures Parse(g, Print(g, t) + tail) == Some(Parsed(t, tail))
    decreases g
  {
    var b := Print(g, t) + tail;
    match g
    case Empty => assert b == tail;
    case Fail =>
    case Field(n) =>
      NumberOfDigits(t.x, n);
      assert b[..n] == Digits(t.x, n) && b[n..] == tail;
    case Then(g1, g2) =>
      assert b == Print(g1, t.left) + (Print(g2, t.right) + tail);
      ParsePrint(g1, t.left, Print(g2, t.right) + tail);
      ParsePrint(g2, t.right, tail);
    case Switch(n, key, same, other) =>
      var chosen := if t.x == key then same else other;
      NumberOfDigits(t.x, n);
      assert b == Digits(t.x, n) + (Print(chosen, t.chosen) + tail);
      assert b[..n] == Digits(t.x, n) && b[n..] == Print(chosen, t.chosen) + tail;
      ParsePrint(chosen, t.chosen, tail);
  }

  /** What was parsed off b has the grammar's shape, and b is its printed form followed by what is left. */
  ghost predicate Undone(g: Syntax, b: seq<bool>)
  {
    var p := Parse(g, b);
    p.Some? ==> Fits(g, p.value.tree) && b == Print(g, p.value.tree) + p.value.rest
  }

  lemma ThenUndone(g1: Syntax, g2: Syntax, b: seq<bool>)
    requires Undone(g1, b) && (Parse(g1, b).Some? ==> Undone(g2, Parse(g1, b).value.rest))
    ensures Undone(Then(g1, g2), b)
  {
    if Parse(Then(g1, g2), b).Some? {
      var p := Parse(g1, b).value;
      var q := Parse(g2, p.rest).value;
      Regroup(Print(g1, p.tree), Print(g2, q.tree), q.rest);
    }
  }

  lemma SwitchUndone(n: nat, key: nat, same: Syntax, other: Syntax, b: seq<bool>)
    requires |b| >= n ==> Undone(if Number(b[..n]) == key then same else other, b[n..])
    ensures Undone(Switch(n, key, same, other), b)
  {
    hide Number, Digits;
    if Parse(Switch(n, key, same, other), b).Some? {
      var chosen := if Number(b[..n]) == key then same else other;
      DigitsOfNumber(b[..n]);
      var q := Parse(chosen, b[n..]).value;
      assert b == b[..n] + b[n..];
      Regroup(b[..n], Print(chosen, q.tree), q.rest);
    }
  }

  /** What parses is the printed form of what was parsed, followed by what is left. */
  lemma {:induction false} PrintParse(g: Syntax, b: seq<bool>)
    ensures Undone(g, b)
    decreases g
  {
    match g
    case Empty =>
    case Fail =>
    case Field(n) =>
      if |b| >= n {
        DigitsOfNumber(b[..n]);
      }
    case Then(g1, g2) =>
      hide Undone;
      PrintParse(g1, b);
      if Parse(g1, b).Some? {
        PrintParse(g2, Parse(g1, b).value.rest);
      }
      ThenUndone(g1, g2, b);
    case Switch(n, key, same, other) =>
      hide Undone;
      if |b| >= n {
        PrintParse(if Number(b[..n]) == key then same else other, b[n..]);
      }
      SwitchUndone(n, key, same, other, b);
  }

  lemma Regroup(x: seq<bool>, y: seq<bool>, z: seq<bool>)
    ensures x + (y + z) == (x + y) + z
  {
  }

  // ----- shapes grammars are made of

  function Const(n: nat, x: nat): Syntax
  {
    Switch(n, x, Empty, Fail)
  }

  /** A flag, and what is there if it is set. */
  function Opt(g: Syntax): Syntax
  {
    Switch(1, 1, g, Empty)
  }

  function Rep(g: Syntax, n: nat): Syntax
  {
    if n == 0 then Empty else Then(Rep(g, n - 1), g)
  }

  // ----- the bits of a buffer

  function BitsOf(buf: seq<byte>): (r: seq<bool>)
    ensures |r| == 8 * |buf|
  {
    seq(8 * |buf|, k requires 0 <= k < 8 * |buf| => BitAt(buf, k) == 1)
  }

  lemma BitsOfPrefix(buf: seq<byte>, more: seq<byte>)
    ensures BitsOf(buf + more) == BitsOf(buf) + BitsOf(more)
  {
  }

  lemma {:induction false} ShrOfHalf(x: nat, n: nat)
    ensures Shr(x / 2, n) == Shr(x, n + 1)
  {
    if n > 0 {
      ShrOfHalf(x, n - 1);
    }
  }

  lemma {:induction false} DigitAt(x: nat, n: nat, k: nat)
    requires k < n
    ensures Digits(x, n)[k] == (Shr(x, n - 1 - k) % 2 == 1)
  {
    if k < n - 1 {
      DigitAt(x / 2, n - 1, k);
      ShrOfHalf(x, n - 2 - k);
    }
  }

  lemma BitsOfByte(x: byte, n: nat)
    requires n + n == 16
    ensures BitsOf([x]) == Digits(x, n)
  {
    forall k | 0 <= k < n
      ensures BitsOf([x])[k] == Digits(x, n)[k]
    {
      DigitAt(x, n, k);
    }
  }

  function Zeros(n: nat): (r: seq<bool>)
    ensures |r| == n
  {
    seq(n, _ => false)
  }

  /** The least n bits of a byte, filled up with zeros. */
  function ByteOf(bits: seq<bool>): byte
    requires |bits| == 8
  {
    ByteBound(bits, |bits|);
    Number(bits)
  }

  lemma ByteBound(bits: seq<bool>, n: nat)
    requires |bits| == n && n + n == 16
    ensures Number(bits) < 256
  {
    Pow2Eight(n - 8);
    assert Pow2(n - 8) == 1;
  }

  /** Bits as a buffer. */
  function Pack(bits: seq<bool>): seq<byte>
    decreases |bits|
  {
    if bits == [] then []
    else if |bits| < 8 then [ByteOf(bits + Zeros(8 - |bits|))]
    else [ByteOf(bits[..8])] + Pack(bits[8..])
  }

  lemma {:induction false} PackedBits(bits: seq<bool>)
    ensures bits <= BitsOf(Pack(bits))
    decreases |bits|
  {
    if bits == [] {
    } else if |bits| < 8 {
      var all := bits + Zeros(8 - |bits|);
      BitsOfByte(ByteOf(all), |all|);
      DigitsOfNumber(all);
    } else {
      var head := bits[..8];
      BitsOfByte(ByteOf(head), |head|);
      DigitsOfNumber(head);
      PackedBits(bits[8..]);
      BitsOfPrefix([ByteOf(head)], Pack(bits[8..]));
      assert bits == head + bits[8..];
    }
  }
}
