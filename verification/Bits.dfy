/** Bit strings, most significant bit first, and their division into bytes and eleven-bit groups. */
module Bits {
  import opened Options

  // ----- numbers -----

  function Number(bits: seq<bool>): nat {
    if bits == [] then 0
    else 2 * Number(bits[..|bits| - 1]) + (if bits[|bits| - 1] then 1 else 0)
  }

  function NumberBits(v: nat, n: nat): (bits: seq<bool>)
    ensures |bits| == n
  {
    if n == 0 then [] else NumberBits(v / 2, n - 1) + [v % 2 == 1]
  }

  function Power2(n: nat): (p: nat)
    ensures p > 0
  {
    if n == 0 then 1 else 2 * Power2(n - 1)
  }

  lemma {:induction false} NumberBelow(bits: seq<bool>)
    ensures Number(bits) < Power2(|bits|)
  {
    if bits != [] {
      NumberBelow(bits[..|bits| - 1]);
    }
  }

  lemma {:induction false} NumberOfBits(v: nat, n: nat)
    requires v < Power2(n)
    ensures Number(NumberBits(v, n)) == v
  {
    if n > 0 {
      NumberOfBits(v / 2, n - 1);
      assert NumberBits(v, n)[..n - 1] == NumberBits(v / 2, n - 1);
    }
  }

  lemma {:induction false} BitsOfNumber(bits: seq<bool>)
    ensures NumberBits(Number(bits), |bits|) == bits
  {
    if bits != [] {
      var m := |bits| - 1;
      BitsOfNumber(bits[..m]);
      assert bits == bits[..m] + [bits[m]];
    }
  }

  lemma ElevenBits(bits: seq<bool>)
    requires |bits| == 11
    ensures Number(bits) < 2048
  {
    NumberBelow(bits);
    assert Power2(5) == 32;
    assert Power2(11) == 2048;
  }

  lemma Below2048(v: nat)
    requires v < 2048
    ensures Number(NumberBits(v, 11)) == v
  {
    assert Power2(5) == 32;
    assert Power2(11) == 2048;
    NumberOfBits(v, 11);
  }

  // ----- bytes -----

  function ByteBits(b: bv8): (bits: seq<bool>)
    ensures |bits| == 8
  {
    [b & 0x80 != 0, b & 0x40 != 0, b & 0x20 != 0, b & 0x10 != 0, b & 0x08 != 0, b & 0x04 != 0, b & 0x02 != 0, b & 0x01 != 0]
  }

  function Bit(on: bool, value: bv8): bv8 {
    if on then value else 0
  }

  function BitsByte(bits: seq<bool>): bv8
    requires |bits| == 8
  {
    Bit(bits[0], 0x80) | Bit(bits[1], 0x40) | Bit(bits[2], 0x20) | Bit(bits[3], 0x10)
    | Bit(bits[4], 0x08) | Bit(bits[5], 0x04) | Bit(bits[6], 0x02) | Bit(bits[7], 0x01)
  }

  lemma ByteOfBits(b: bv8)
    ensures BitsByte(ByteBits(b)) == b
  {
  }

  lemma BitsOfByte(bits: seq<bool>)
    requires |bits| == 8
    ensures ByteBits(BitsByte(bits)) == bits
  {
    hide Bit;
    assert bits == [bits[0], bits[1], bits[2], bits[3], bits[4], bits[5], bits[6], bits[7]];
    HighMasks(bits[0], bits[1], bits[2], bits[3], bits[4], bits[5], bits[6], bits[7]);
    LowMasks(bits[0], bits[1], bits[2], bits[3], bits[4], bits[5], bits[6], bits[7]);
  }

  lemma HighMasks(a: bool, b: bool, c: bool, d: bool, e: bool, f: bool, g: bool, h: bool)
    ensures var x := Bit(a, 0x80) | Bit(b, 0x40) | Bit(c, 0x20) | Bit(d, 0x10)
                     | Bit(e, 0x08) | Bit(f, 0x04) | Bit(g, 0x02) | Bit(h, 0x01);
            (x & 0x80 != 0 <==> a) && (x & 0x40 != 0 <==> b) && (x & 0x20 != 0 <==> c) && (x & 0x10 != 0 <==> d)
  {
  }

  lemma LowMasks(a: bool, b: bool, c: bool, d: bool, e: bool, f: bool, g: bool, h: bool)
    ensures var x := Bit(a, 0x80) | Bit(b, 0x40) | Bit(c, 0x20) | Bit(d, 0x10)
                     | Bit(e, 0x08) | Bit(f, 0x04) | Bit(g, 0x02) | Bit(h, 0x01);
            (x & 0x08 != 0 <==> e) && (x & 0x04 != 0 <==> f) && (x & 0x02 != 0 <==> g) && (x & 0x01 != 0 <==> h)
  {
  }

  // ----- groups of equal length -----

  function Join(groups: seq<seq<bool>>): seq<bool> {
    if groups == [] then [] else groups[0] + Join(groups[1..])
  }

  function Split(bits: seq<bool>, k: nat): (groups: seq<seq<bool>>)
    requires k > 0
    ensures forall i | 0 <= i < |groups| :: |groups[i]| == k
  {
    if |bits| < k then [] else [bits[..k]] + Split(bits[k..], k)
  }

  predicate Uniform(groups: seq<seq<bool>>, k: nat) {
    forall i | 0 <= i < |groups| :: |groups[i]| == k
  }

  lemma {:induction false} JoinLength(groups: seq<seq<bool>>, k: nat)
    requires Uniform(groups, k)
    ensures |Join(groups)| == k * |groups|
  {
    if groups != [] {
      JoinLength(groups[1..], k);
      assert k * |groups| == k + k * |groups[1..]|;
    }
  }

  lemma {:induction false} SplitJoin(groups: seq<seq<bool>>, k: nat)
    requires k > 0 && Uniform(groups, k)
    ensures Split(Join(groups), k) == groups
  {
    if groups != [] {
      SplitJoin(groups[1..], k);
      assert Join(groups)[..k] == groups[0] && Join(groups)[k..] == Join(groups[1..]);
    }
  }

  lemma {:induction false} JoinSplit(bits: seq<bool>, k: nat, n: nat)
    requires k > 0 && |bits| == k * n
    ensures Join(Split(bits, k)) == bits && |Split(bits, k)| == n
  {
    if n == 0 {
      assert |bits| == 0;
    } else {
      assert k * n == k + k * (n - 1);
      JoinSplit(bits[k..], k, n - 1);
      assert bits == bits[..k] + bits[k..];
      assert Split(bits, k)[0] == bits[..k] && Split(bits, k)[1..] == Split(bits[k..], k);
    }
  }

  /** The i-th byte is cut from the eight bits at 8i. */
  lemma {:induction false} SplitAt(bits: seq<bool>, i: nat)
    requires 8 * i + 8 <= |bits|
    ensures i < |Split(bits, 8)| && Split(bits, 8)[i] == bits[8 * i..8 * i + 8]
  {
    if i > 0 {
      SplitAt(bits[8..], i - 1);
      assert bits[8..][8 * (i - 1)..8 * (i - 1) + 8] == bits[8 * i..8 * i + 8];
    }
  }

  // ----- bytes as a bit string -----

  function AllByteBits(data: seq<bv8>): (groups: seq<seq<bool>>)
    ensures |groups| == |data| && Uniform(groups, 8)
  {
    seq(|data|, i requires 0 <= i < |data| => ByteBits(data[i]))
  }

  function DataBits(data: seq<bv8>): seq<bool> {
    Join(AllByteBits(data))
  }

  function BitsData(bits: seq<bool>): seq<bv8> {
    var groups := Split(bits, 8);
    seq(|groups|, i requires 0 <= i < |groups| => BitsByte(groups[i]))
  }

  lemma DataOfBits(data: seq<bv8>)
    ensures BitsData(DataBits(data)) == data && |DataBits(data)| == 8 * |data|
  {
    SplitJoin(AllByteBits(data), 8);
    JoinLength(AllByteBits(data), 8);
    forall i | 0 <= i < |data| ensures BitsByte(AllByteBits(data)[i]) == data[i] {
      ByteOfBits(data[i]);
    }
  }

  lemma BitsOfData(bits: seq<bool>, n: nat)
    requires |bits| == 8 * n
    ensures DataBits(BitsData(bits)) == bits && |BitsData(bits)| == n
  {
    var groups := Split(bits, 8);
    JoinSplit(bits, 8, n);
    forall i | 0 <= i < |groups| ensures AllByteBits(BitsData(bits))[i] == groups[i] {
      BitsOfByte(groups[i]);
    }
    assert AllByteBits(BitsData(bits)) == groups;
  }

  // ----- bit streams -----

  /** Reads a byte slice as a stream of bits. */
  class BitReader {
    var rest: seq<bool>

    constructor (data: seq<bv8>)
      ensures rest == DataBits(data)
    {
      rest := DataBits(data);
    }

    method ReadBits(n: nat) returns (v: Option<nat>)
      modifies this
      ensures |old(rest)| < n ==> v == None && rest == old(rest)
      ensures |old(rest)| >= n ==> v == Some(Number(old(rest)[..n])) && rest == old(rest)[n..]
    {
      if |rest| < n {
        return None;
      }
      v, rest := Some(Number(rest[..n])), rest[n..];
    }
  }

  /** Collects bits and delivers them as bytes. */
  class BitWriter {
    var written: seq<bool>

    constructor ()
      ensures written == []
    {
      written := [];
    }

    method WriteBits(v: nat, n: nat)
      modifies this
      ensures written == old(written) + NumberBits(v, n)
    {
      written := written + NumberBits(v, n);
    }

    function Bytes(): seq<bv8>
      reads this
    {
      BitsData(written)
    }
  }
}
