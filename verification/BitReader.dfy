/**
The MSB-first bit reader of vp9_parser.c: a position that advances and a flag that, once a read has run past the end,
stays set and makes every later read return 0. Reading the fields of a grammar one after the other follows its parser.
*/
module BitReader {
  import opened Arithmetic
  import opened BoolDecoder
  import opened Options
  import opened BitSyntax

  /** What matters of a reader's state: whether it ran past the end, and what is left if not. */
  datatype Cursor = Cursor(past: bool, left: seq<bool>)

  /** Going from c to c' is parsing g, and failing where it fails. */
  ghost predicate Follows(g: Syntax, c: Cursor, c': Cursor)
  {
    if c.past || Parse(g, c.left) == None then c'.past
    else c' == Cursor(false, Parse(g, c.left).value.rest)
  }

  ghost function TreeAt(g: Syntax, c: Cursor): Tree
  {
    if Parse(g, c.left).Some? then Parse(g, c.left).value.tree else Nothing
  }

  lemma NothingFollows(c: Cursor)
    ensures Follows(Empty, c, c)
  {
  }

  lemma ThenFollows(g1: Syntax, g2: Syntax, c: Cursor, c1: Cursor, c2: Cursor)
    requires Follows(g1, c, c1) && Follows(g2, c1, c2)
    ensures Follows(Then(g1, g2), c, c2)
    ensures !c2.past ==> !c1.past && TreeAt(Then(g1, g2), c) == Both(TreeAt(g1, c), TreeAt(g2, c1))
  {
  }

  /** x is what reading n bits returned. */
  ghost predicate Got(n: nat, c: Cursor, c': Cursor, x: nat)
  {
    && Follows(Field(n), c, c')
    && x == if c'.past then 0 else Number(c.left[..n])
  }

  lemma GotField(n: nat, c: Cursor, c': Cursor, x: nat)
    requires !c.past && n <= |c.left| && c' == Cursor(false, c.left[n..]) && x == Number(c.left[..n])
    ensures Got(n, c, c', x)
  {
  }

  lemma GotPast(n: nat, c: Cursor, c': Cursor)
    requires (c.past || |c.left| < n) && c'.past
    ensures Got(n, c, c', 0)
  {
  }

  lemma GotTree(n: nat, c: Cursor, c': Cursor, x: nat)
    requires Got(n, c, c', x) && !c'.past
    ensures !c.past && TreeAt(Field(n), c) == Num(x) && x < Pow2(n)
  {
  }

  lemma SwitchFollows(n: nat, key: nat, same: Syntax, other: Syntax, c: Cursor, c1: Cursor, x: nat, c2: Cursor)
    requires Got(n, c, c1, x) && Follows(if x == key then same else other, c1, c2)
    ensures Follows(Switch(n, key, same, other), c, c2)
    ensures !c2.past ==> !c1.past
    ensures !c2.past ==> TreeAt(Switch(n, key, same, other), c) == Case(x, TreeAt(if x == key then same else other, c1))
  {
  }

  lemma BitInByte(buf: seq<byte>, k: nat)
    requires k < 8 * |buf|
    ensures (if BitsOf(buf)[k] then 1 else 0) == Shr(buf[k / 8], 7 - k % 8) % 2
  {
  }

  /** struct vp9_br. */
  class Reader {
    const buf: seq<byte>
    var pos: nat
    var oob: bool

    ghost predicate Valid()
      reads this
    {
      pos <= 8 * |buf|
    }

    ghost function Now(): Cursor
      requires Valid()
      reads this
    {
      Cursor(oob, BitsOf(buf)[pos..])
    }

    /** br_init. */
    constructor (buffer: seq<byte>)
      ensures Valid() && buf == buffer && Now() == Cursor(false, BitsOf(buffer))
    {
      buf := buffer;
      pos := 0;
      oob := false;
    }

    /** br_u. */
    method U(n: nat) returns (v: nat)
      requires Valid()
      modifies this
      ensures Valid() && if n <= 32 then Got(n, old(Now()), Now(), v) else oob && v == 0
    {
      hide Got, Follows, BitAt, BitsOf, Shr;
      v := 0;
      if n > 32 || oob {
        oob := true;
        if n <= 32 {
          GotPast(n, old(Now()), Now());
        }
        return;
      }
      ghost var left := Now().left;
      var i := 0;
      while i < n
        invariant 0 <= i <= n && Valid() && pos == old(pos) + i && !oob && i <= |left|
        invariant v == Number(left[..i])
      {
        var byteIdx := pos / 8;
        var bitIdx := 7 - pos % 8;
        if byteIdx >= |buf| {
          oob := true;
          v := 0;
          GotPast(n, old(Now()), Now());
          return;
        }
        assert left[..i + 1][..i] == left[..i];
        BitInByte(buf, pos);
        v := 2 * v + Shr(buf[byteIdx], bitIdx) % 2;
        pos := pos + 1;
        i := i + 1;
      }
      assert Now().left == left[n..];
      GotField(n, old(Now()), Now(), v);
    }

    /** br_b. */
    method B() returns (v: bool)
      requires Valid()
      modifies this
      ensures Valid() && Got(1, old(Now()), Now(), if v then 1 else 0)
    {
      var x := U(1);
      OneBit(old(Now()), Now(), x);
      v := x != 0;
    }
  }

  lemma OneBit(c: Cursor, c': Cursor, x: nat)
    requires Got(1, c, c', x)
    ensures x < 2
  {
  }
}
