/** Short channel ids, their 64-bit form (BOLT #7, "Definition of short_channel_id"), and the alias allocator. */
module Scid {
  import opened Options

  const TWO16 := 0x1_0000
  const TWO24 := 0x100_0000
  const TWO32 := 0x1_0000_0000
  const TWO40 := 0x100_0000_0000
  const TWO64 := 0x1_0000_0000_0000_0000

  type Uint64 = n: nat | n < TWO64

  datatype RawScid = RawScid(blockHeight: nat, txIndex: nat, txPosition: nat)

  /** The transaction index is limited to three bytes; the height is stored in four, of which three are encoded. */
  type ShortChannelID = s: RawScid | s.blockHeight < TWO32 && s.txIndex < TWO24 && s.txPosition < TWO16
    witness RawScid(0, 0, 0)

  /** An id that respects the three-byte limit of the height too. */
  predicate InLimits(s: ShortChannelID) {
    s.blockHeight < TWO24
  }

  /** height << 40 | index << 16 | position, in 64 bits */
  function ToUint64(s: ShortChannelID): Uint64 {
    (s.blockHeight % TWO24) * TWO40 + s.txIndex * TWO16 + s.txPosition
  }

  function FromInt(n: Uint64): ShortChannelID {
    RawScid(n / TWO40, (n / TWO16) % TWO24, n % TWO16)
  }

  lemma EncodeDecode(n: Uint64)
    ensures ToUint64(FromInt(n)) == n
    ensures InLimits(FromInt(n))
  {
  }

  /** Exactly the ids within the limits survive a trip through the database. */
  lemma DecodeEncode(s: ShortChannelID)
    ensures FromInt(ToUint64(s)) == s <==> InLimits(s)
  {
    var h, r := s.blockHeight % TWO24, s.txIndex * TWO16 + s.txPosition;
    assert ToUint64(s) == h * TWO40 + r && r < TWO40;
    assert ToUint64(s) / TWO40 == h;
    assert ToUint64(s) / TWO16 == h * TWO24 + s.txIndex;
  }

  lemma EncodeInjective(a: ShortChannelID, b: ShortChannelID)
    requires InLimits(a) && InLimits(b)
    ensures ToUint64(a) == ToUint64(b) <==> a == b
  {
    DecodeEncode(a);
    DecodeEncode(b);
  }

  // ----- allocation -----

  const STARTING_BLOCK_HEIGHT := 16_000_000
  const END_BLOCK_HEIGHT := 16_250_000
  const STARTING_ALIAS: ShortChannelID := RawScid(STARTING_BLOCK_HEIGHT, 0, 0)
  const START: Uint64 := STARTING_BLOCK_HEIGHT * TWO40

  function GetNextScid(last: ShortChannelID): ShortChannelID {
    var incrementIdx := last.txPosition == 65535;
    var incrementHeight := last.txIndex == 16777215 && incrementIdx;
    if incrementIdx && !incrementHeight then RawScid(last.blockHeight, last.txIndex + 1, 0)
    else if incrementHeight then RawScid((last.blockHeight + 1) % TWO32, 0, 0)
    else RawScid(last.blockHeight, last.txIndex, last.txPosition + 1)
  }

  predicate IsAlias(s: ShortChannelID) {
    STARTING_BLOCK_HEIGHT <= s.blockHeight < END_BLOCK_HEIGHT
  }

  /** The next id is the one whose encoding is one more. */
  lemma NextEncoding(s: ShortChannelID)
    ensures ToUint64(GetNextScid(s)) == (ToUint64(s) + 1) % TWO64
  {
    var h := s.blockHeight % TWO24;
    if s.txPosition == 65535 && s.txIndex == 16777215 {
      assert ToUint64(s) == h * TWO40 + (TWO40 - 1);
      NextHeight(s.blockHeight);
      assert ToUint64(GetNextScid(s)) == ((h + 1) % TWO24) * TWO40;
      HeightWraps(h + 1);
    } else {
      assert ToUint64(GetNextScid(s)) == ToUint64(s) + 1;
    }
  }

  lemma HeightWraps(h: nat)
    requires h <= TWO24
    ensures (h * TWO40) % TWO64 == (h % TWO24) * TWO40
  {
  }

  lemma NextHeight(height: nat)
    requires height < TWO32
    ensures ((height + 1) % TWO32) % TWO24 == (height % TWO24 + 1) % TWO24
  {
  }

  /** The allocator's record in the database, and what a request does to it. */
  function NextAlias(last: Option<Uint64>): ShortChannelID {
    match last
    case None => STARTING_ALIAS
    case Some(n) => GetNextScid(FromInt(n))
  }

  /** The record after n successful requests; only requests change it. */
  function Allocated(n: nat): Option<Uint64> {
    if n == 0 then None else Some(ToUint64(NextAlias(Allocated(n - 1))))
  }

  /** The alias that the request after n successful ones returns. */
  function NthAlias(n: nat): ShortChannelID {
    NextAlias(Allocated(n))
  }

  lemma StartEncoding()
    ensures ToUint64(STARTING_ALIAS) == START == START % TWO64
  {
  }

  lemma Modulo(x: nat, q: nat, r: nat)
    requires x == q * TWO64 + r && r < TWO64
    ensures x % TWO64 == r
  {
  }

  lemma ModuloPlus(x: nat, d: nat)
    requires d < TWO64
    ensures (x + d) % TWO64 == if x % TWO64 + d < TWO64 then x % TWO64 + d else x % TWO64 + d - TWO64
  {
    var q, r := x / TWO64, x % TWO64;
    if r + d < TWO64 {
      Modulo(x + d, q, r + d);
    } else {
      Modulo(x + d, q + 1, r + d - TWO64);
    }
  }

  lemma {:induction false} NthEncoding(n: nat)
    ensures ToUint64(NthAlias(n)) == (START + n) % TWO64
  {
    hide ToUint64, FromInt, GetNextScid;
    if n == 0 {
      StartEncoding();
    } else {
      NthEncoding(n - 1);
      var last := ToUint64(NthAlias(n - 1));
      EncodeDecode(last);
      NextEncoding(FromInt(last));
      ModuloPlus(START + n - 1, 1);
      ModuloPlus(last, 1);
    }
  }

  /** Field by field: the position counts first, then the index, then the height. */
  lemma NthFields(n: nat)
    requires n < 250_000 * 0x100_0000_0000
    ensures NthAlias(n) == RawScid(16_000_000 + n / 0x100_0000_0000, n / 0x1_0000 % 0x100_0000, n % 0x1_0000)
  {
    hide ToUint64, FromInt, GetNextScid;
    var s: ShortChannelID := RawScid(16_000_000 + n / 0x100_0000_0000, n / 0x1_0000 % 0x100_0000, n % 0x1_0000);
    NthEncoding(n);
    NthInLimits(n);
    FieldsEncoding(n, s);
    ModuloPlus(0, START + n);
    EncodeInjective(NthAlias(n), s);
  }

  lemma FieldsEncoding(n: nat, s: ShortChannelID)
    requires n < 250_000 * 0x100_0000_0000
    requires s == RawScid(16_000_000 + n / 0x100_0000_0000, n / 0x1_0000 % 0x100_0000, n % 0x1_0000)
    ensures InLimits(s) && ToUint64(s) == START + n < TWO64
  {
    var low := n / 0x1_0000;
    assert n / 0x100_0000_0000 == low / 0x100_0000;
  }

  lemma NthInLimits(n: nat)
    requires n < 250_000 * 0x100_0000_0000
    ensures InLimits(NthAlias(n))
  {
    hide ToUint64, FromInt, GetNextScid;
    RecognisedExactly(n);
  }

  /** Aliases do not repeat within 2^64 requests. */
  lemma NeverRepeats(m: nat, n: nat)
    requires m < n < m + TWO64
    ensures ToUint64(NthAlias(m)) != ToUint64(NthAlias(n)) && NthAlias(m) != NthAlias(n)
  {
    NthEncoding(m);
    NthEncoding(n);
    ModuloPlus(START + m, n - m);
  }

  /** Of the first 2^64 aliases exactly the first 250000 * 2^40 are recognised as aliases; those are also the same after
      a trip through the database. */
  lemma RecognisedExactly(n: nat)
    requires n < TWO64
    ensures IsAlias(NthAlias(n)) <==> n < (END_BLOCK_HEIGHT - STARTING_BLOCK_HEIGHT) * TWO40
    ensures IsAlias(NthAlias(n)) ==> FromInt(ToUint64(NthAlias(n))) == NthAlias(n)
  {
    hide ToUint64, FromInt;
    NthEncoding(n);
    NthHeight(n);
    DecodeEncode(NthAlias(n));
    ModuloPlus(START, n);
    AliasEncodings(NthAlias(n));
  }

  /** The aliases are a range of encodings. */
  lemma AliasEncodings(s: ShortChannelID)
    requires s.blockHeight <= TWO24
    ensures IsAlias(s) <==> START <= ToUint64(s) < END_BLOCK_HEIGHT * TWO40
    ensures IsAlias(s) ==> InLimits(s)
  {
  }

  /** A returned alias is at most one step beyond the encoded heights. */
  lemma NthHeight(n: nat)
    ensures NthAlias(n).blockHeight <= TWO24
  {
    hide ToUint64, FromInt;
    if n > 0 {
      EncodeDecode(ToUint64(NextAlias(Allocated(n - 1))));
    }
  }
}
