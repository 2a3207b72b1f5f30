/** The CRC32C checksum (section 12.1 of RFC 3720), computed bit by bit, least significant bit first. */
module Crc32c {

  /** The generator polynomial with its bits reversed, as the reflected algorithm uses it. */
  const CASTAGNOLI: bv32 := 0x82f63b78

  function ShiftBit(c: bv32): bv32 {
    if c & 1 == 1 then (c >> 1) ^ CASTAGNOLI else c >> 1
  }

  function ShiftByte(c: bv32): bv32 {
    ShiftBit(ShiftBit(ShiftBit(ShiftBit(ShiftBit(ShiftBit(ShiftBit(ShiftBit(c))))))))
  }

  function Xor(a: bv32, b: bv32): bv32 { a ^ b }

  function Widen(b: bv8): bv32 { b as bv32 }

  function Feed(c: bv32, b: bv8): bv32 {
    ShiftByte(Xor(c, Widen(b)))
  }

  function FeedAll(c: bv32, data: seq<bv8>): bv32 {
    if data == [] then c else Feed(FeedAll(c, data[..|data| - 1]), data[|data| - 1])
  }

  function Crc(data: seq<bv8>): bv32 {
    Xor(FeedAll(0xffffffff, data), 0xffffffff)
  }

  method Checksum(data: seq<bv8>) returns (crc: bv32)
    ensures crc == Crc(data)
  {
    hide Feed;
    crc := 0xffffffff;
    for i := 0 to |data|
      invariant crc == FeedAll(0xffffffff, data[..i])
    {
      assert data[..i + 1][..i] == data[..i];
      crc := FeedOne(crc, data[i]);
    }
    assert data[..|data|] == data;
    crc := crc ^ 0xffffffff;
  }

  method FeedOne(c: bv32, b: bv8) returns (crc: bv32)
    ensures crc == Feed(c, b)
  {
    hide ShiftBit;
    crc := c ^ (b as bv32);
    ghost var start := crc;
    for k := 0 to 8
      invariant crc == ShiftBits(start, k)
    {
      crc := ShiftBit(crc);
    }
    EightShifts(start);
  }

  function ShiftBits(c: bv32, k: nat): bv32 {
    if k == 0 then c else ShiftBit(ShiftBits(c, k - 1))
  }

  lemma EightShifts(c: bv32)
    ensures ShiftBits(c, 8) == ShiftByte(c)
  {
    hide ShiftBit;
    assert ShiftBits(c, 0) == c;
    assert ShiftBits(c, 2) == ShiftBit(ShiftBit(c));
    assert ShiftBits(c, 4) == ShiftBit(ShiftBit(ShiftBits(c, 2)));
    assert ShiftBits(c, 6) == ShiftBit(ShiftBit(ShiftBits(c, 4)));
    assert ShiftBits(c, 8) == ShiftBit(ShiftBit(ShiftBits(c, 6)));
  }

  // ----- one byte at a time, the register is shifted by an invertible linear map -----

  lemma XorShift(a: bv32, b: bv32)
    ensures (a ^ b) >> 1 == (a >> 1) ^ (b >> 1)
    ensures (a ^ b) & 1 == 1 <==> (a & 1 == 1) != (b & 1 == 1)
  {
  }

  lemma XorRegroup(a: bv32, b: bv32, p: bv32)
    ensures (a ^ p) ^ b == (a ^ b) ^ p
    ensures a ^ (b ^ p) == (a ^ b) ^ p
    ensures (a ^ p) ^ (b ^ p) == a ^ b
  {
  }

  lemma ShiftBitLinear(a: bv32, b: bv32)
    ensures ShiftBit(Xor(a, b)) == Xor(ShiftBit(a), ShiftBit(b))
  {
    hide ShiftBit, Xor;
    RawShiftLinear(a, b);
    XorIs(a, b);
    XorIs(ShiftBit(a), ShiftBit(b));
  }

  lemma XorIs(a: bv32, b: bv32)
    ensures Xor(a, b) == a ^ b
  {
  }

  lemma RawShiftLinear(a: bv32, b: bv32)
    ensures ShiftBit(a ^ b) == ShiftBit(a) ^ ShiftBit(b)
  {
    XorShift(a, b);
    XorRegroup(a >> 1, b >> 1, CASTAGNOLI);
  }

  lemma {:induction false} ShiftBitsLinear(a: bv32, b: bv32, k: nat)
    ensures ShiftBits(Xor(a, b), k) == Xor(ShiftBits(a, k), ShiftBits(b, k))
  {
    hide ShiftBit, Xor;
    if k > 0 {
      ShiftBitsLinear(a, b, k - 1);
      ShiftBitLinear(ShiftBits(a, k - 1), ShiftBits(b, k - 1));
    }
  }

  lemma ShiftByteLinear(a: bv32, b: bv32)
    ensures ShiftByte(Xor(a, b)) == Xor(ShiftByte(a), ShiftByte(b))
  {
    hide ShiftBits, ShiftByte, Xor;
    ShiftBitsLinear(a, b, 8);
    EightShifts(a);
    EightShifts(b);
    EightShifts(Xor(a, b));
  }

  lemma ShiftBitInjective(a: bv32)
    ensures ShiftBit(a) == 0 ==> a == 0
  {
  }

  lemma {:induction false} ShiftBitsInjective(a: bv32, k: nat)
    ensures ShiftBits(a, k) == 0 ==> a == 0
  {
    if k > 0 {
      hide ShiftBit;
      ShiftBitInjective(ShiftBits(a, k - 1));
      ShiftBitsInjective(a, k - 1);
    }
  }

  lemma XorZero(a: bv32, b: bv32)
    ensures Xor(a, b) == 0 <==> a == b
  {
  }

  lemma ShiftByteInjective(a: bv32, b: bv32)
    ensures ShiftByte(a) == ShiftByte(b) ==> a == b
  {
    hide ShiftBits, ShiftByte, Xor;
    ShiftByteLinear(a, b);
    EightShifts(Xor(a, b));
    ShiftBitsInjective(Xor(a, b), 8);
    XorZero(ShiftByte(a), ShiftByte(b));
    XorZero(a, b);
  }

  function Up(w: bv32): bv32 { w << 8 }

  /** Bits that are not shifted out just move down. */
  lemma ShiftByteMoves(w: bv32)
    requires w < 0x1000000
    ensures ShiftByte(Up(w)) == w
  {
  }

  // ----- the checksum tells data apart that differ in a short window -----

  function XorByte(a: bv8, b: bv8): bv8 { a ^ b }

  lemma XorFour(c: bv32, d: bv32, a: bv8, b: bv8)
    ensures Xor(Xor(c, Widen(a)), Xor(d, Widen(b))) == Xor(Xor(c, d), Widen(XorByte(a, b)))
  {
    hide Xor, Widen, XorByte;
    var p, q := Widen(a), Widen(b);
    WidenXor(a, b);
    XorAssociates(Xor(c, p), d, q);
    XorAssociates(c, p, d);
    XorCommutes(p, d);
    XorAssociates(c, d, p);
    XorAssociates(Xor(c, d), p, q);
  }

  lemma WidenXor(a: bv8, b: bv8)
    ensures Widen(XorByte(a, b)) == Xor(Widen(a), Widen(b))
  {
  }

  lemma XorAssociates(a: bv32, b: bv32, c: bv32)
    ensures Xor(Xor(a, b), c) == Xor(a, Xor(b, c))
  {
    XorRegroup(a, b, c);
  }

  lemma XorCommutes(a: bv32, b: bv32)
    ensures Xor(a, b) == Xor(b, a)
  {
  }

  /** The difference of two registers evolves like a register fed with the difference of the bytes. */
  lemma FeedDifference(c: bv32, d: bv32, a: bv8, b: bv8)
    ensures Xor(Feed(c, a), Feed(d, b)) == ShiftByte(Xor(Xor(c, d), Widen(XorByte(a, b))))
  {
    hide ShiftByte, Xor, Widen, XorByte;
    ShiftByteLinear(Xor(c, Widen(a)), Xor(d, Widen(b)));
    XorFour(c, d, a, b);
  }

  lemma XorCancel(a: bv32, b: bv32, m: bv32)
    ensures Xor(a, m) == Xor(b, m) ==> a == b
  {
  }

  lemma XorTwice(a: bv32, b: bv32, m: bv32)
    ensures Xor(Xor(a, m), Xor(b, m)) == Xor(a, b)
  {
    hide Xor;
    XorAssociates(a, m, Xor(b, m));
    XorCommutes(b, m);
    XorAssociates(m, m, b);
    XorZero(m, m);
    ZeroXor(b);
  }

  lemma ZeroXor(a: bv32)
    ensures Xor(0, a) == a
  {
  }

  lemma FeedInjective(c: bv32, d: bv32, b: bv8)
    ensures Feed(c, b) == Feed(d, b) ==> c == d
  {
    hide ShiftByte, Xor, Widen;
    ShiftByteInjective(Xor(c, Widen(b)), Xor(d, Widen(b)));
    XorCancel(c, d, Widen(b));
  }

  /** Equal bytes cannot make different registers equal. */
  lemma {:induction false} FeedAllInjective(c: bv32, d: bv32, data: seq<bv8>)
    requires c != d
    ensures FeedAll(c, data) != FeedAll(d, data)
  {
    if data != [] {
      hide Feed;
      var m := |data| - 1;
      FeedAllInjective(c, d, data[..m]);
      FeedInjective(FeedAll(c, data[..m]), FeedAll(d, data[..m]), data[m]);
    }
  }

  lemma {:induction false} FeedAllConcat(c: bv32, a: seq<bv8>, b: seq<bv8>)
    ensures FeedAll(c, a + b) == FeedAll(FeedAll(c, a), b)
  {
    if b == [] {
      assert a + b == a;
    } else {
      hide Feed;
      var m := |b| - 1;
      assert (a + b)[..|a + b| - 1] == a + b[..m];
      FeedAllConcat(c, a, b[..m]);
    }
  }

  lemma XorNothing(c: bv32, b: bv8)
    ensures Xor(Xor(c, c), Widen(b)) == Widen(b)
  {
  }

  lemma SameByte(a: bv8, b: bv8)
    ensures XorByte(a, b) == 0 <==> a == b
  {
  }

  /** Three bytes fed into a register that starts with no difference leave none only if they are all equal. */
  lemma ThreeBytes(c: bv32, a: seq<bv8>, b: seq<bv8>)
    requires |a| == |b| == 3 && FeedAll(c, a) == FeedAll(c, b)
    ensures a == b
  {
    hide ShiftByte, Feed, Xor, Widen, XorByte;
    ThreeFeeds(c, a);
    ThreeFeeds(c, b);
    var c1, d1 := Feed(c, a[0]), Feed(c, b[0]);
    var c2, d2 := Feed(c1, a[1]), Feed(d1, b[1]);
    FeedDifference(c, c, a[0], b[0]);
    XorNothing(c, XorByte(a[0], b[0]));
    FeedDifference(c1, d1, a[1], b[1]);
    FeedDifference(c2, d2, a[2], b[2]);
    XorZero(Feed(c2, a[2]), Feed(d2, b[2]));
    NoCancellation(XorByte(a[0], b[0]), XorByte(a[1], b[1]), XorByte(a[2], b[2]));
    SameByte(a[0], b[0]);
    SameByte(a[1], b[1]);
    SameByte(a[2], b[2]);
  }

  lemma ThreeFeeds(c: bv32, a: seq<bv8>)
    requires |a| == 3
    ensures FeedAll(c, a) == Feed(Feed(Feed(c, a[0]), a[1]), a[2])
  {
    hide Feed;
    assert a[..2][..1] == a[..1] && a[..1][..0] == [];
    assert FeedAll(c, a[..1]) == Feed(c, a[0]);
    assert FeedAll(c, a[..2]) == Feed(FeedAll(c, a[..1]), a[1]);
  }

  /** The three differences pass through the register as one 24-bit word, on which the shift is injective. */
  lemma NoCancellation(x: bv8, y: bv8, z: bv8)
    requires ShiftByte(Xor(ShiftByte(Xor(ShiftByte(Widen(x)), Widen(y))), Widen(z))) == 0
    ensures x == 0 && y == 0 && z == 0
  {
    hide ShiftByte, Xor, Widen, Up;
    var w := Xor(Widen(y), Up(Widen(z)));
    Small(y, z);
    UndoZero(ShiftByte(Xor(ShiftByte(Widen(x)), Widen(y))), Widen(z));
    Undo(Xor(ShiftByte(Widen(x)), Widen(y)), Widen(z));
    MoveXor(ShiftByte(Widen(x)), Widen(y), Up(Widen(z)));
    Undo(Widen(x), w);
    Separate(x, y, z);
  }

  lemma UndoZero(a: bv32, b: bv32)
    requires ShiftByte(Xor(a, b)) == 0
    ensures a == b
  {
    hide ShiftByte, Xor;
    ShiftByteMoves(0);
    ShiftByteInjective(Xor(a, b), 0);
    XorZero(a, b);
  }

  /** A register that shifts to a small value was that value, one byte up. */
  lemma Undo(a: bv32, w: bv32)
    requires w < 0x1000000 && ShiftByte(a) == w
    ensures a == Up(w)
  {
    hide ShiftByte, Up;
    ShiftByteMoves(w);
    ShiftByteInjective(a, Up(w));
  }

  lemma MoveXor(a: bv32, b: bv32, c: bv32)
    ensures Xor(a, b) == c ==> a == Xor(b, c)
  {
  }

  lemma Small(y: bv8, z: bv8)
    ensures Widen(z) < 0x1000000
    ensures Xor(Widen(y), Up(Widen(z))) < 0x1000000
  {
  }

  lemma Separate(x: bv8, y: bv8, z: bv8)
    requires Widen(x) == Up(Xor(Widen(y), Up(Widen(z))))
    ensures x == 0 && y == 0 && z == 0
  {
  }

  /** Data that differ, but only within three consecutive bytes, have different checksums. */
  lemma WindowChangesCrc(p: seq<bv8>, q: seq<bv8>, lo: nat)
    requires |p| == |q| && lo + 3 <= |p| && p != q
    requires p[..lo] == q[..lo] && p[lo + 3..] == q[lo + 3..]
    ensures Crc(p) != Crc(q)
  {
    hide FeedAll, Xor;
    var c := FeedAll(0xffffffff, p[..lo]);
    var a, b, rest := p[lo..lo + 3], q[lo..lo + 3], p[lo + 3..];
    assert p == p[..lo] + a + rest && q == p[..lo] + b + rest;
    FeedAllConcat(0xffffffff, p[..lo] + a, rest);
    FeedAllConcat(0xffffffff, p[..lo] + b, rest);
    FeedAllConcat(0xffffffff, p[..lo], a);
    FeedAllConcat(0xffffffff, p[..lo], b);
    if FeedAll(c, a) == FeedAll(c, b) {
      ThreeBytes(c, a, b);
    } else {
      FeedAllInjective(FeedAll(c, a), FeedAll(c, b), rest);
    }
    XorCancel(FeedAll(0xffffffff, p), FeedAll(0xffffffff, q), 0xffffffff);
  }

  /** Changing only the last bit of the last byte changes the low half of the checksum in a known way. */
  lemma LastBitChangesCrc(p: seq<bv8>, q: seq<bv8>)
    requires |p| == |q| > 0
    requires p[..|p| - 1] == q[..|p| - 1]
    requires XorByte(p[|p| - 1], q[|p| - 1]) == 1
    ensures Xor(Crc(p), Crc(q)) & 0xffff == 0x8303
  {
    hide ShiftByte, Xor, Widen, XorByte, Feed;
    var m := |p| - 1;
    var c := FeedAll(0xffffffff, p[..m]);
    FeedDifference(c, c, p[m], q[m]);
    XorNothing(c, 1);
    ByteOne();
    XorTwice(FeedAll(0xffffffff, p), FeedAll(0xffffffff, q), 0xffffffff);
  }

  lemma ByteOne()
    ensures ShiftByte(Widen(1)) & 0xffff == 0x8303
  {
  }
}
