/** One wrong word in a mnemonic is always noticed. */
module SingleWord {
  import opened Bits
  import opened Crc32c
  import opened Aezeed

  /** The two word lists have the same length and differ in exactly one place. */
  ghost predicate OneWordApart(a: seq<string>, b: seq<string>, i: nat) {
    && |a| == |b| == NUM_WORDS && i < NUM_WORDS
    && a[i] != b[i]
    && forall j | 0 <= j < NUM_WORDS && j != i :: a[j] == b[j]
  }

  lemma {:induction false} JoinConcat(a: seq<seq<bool>>, b: seq<seq<bool>>)
    ensures Join(a + b) == Join(a) + Join(b)
  {
    if a == [] {
      assert a + b == b;
    } else {
      assert (a + b)[1..] == a[1..] + b;
      JoinConcat(a[1..], b);
    }
  }

  /** Cutting out one group leaves the bits before and after it. */
  lemma JoinAround(groups: seq<seq<bool>>, i: nat)
    requires Uniform(groups, BITS_PER_WORD) && i < |groups|
    ensures |Join(groups[..i])| == 11 * i
    ensures Join(groups) == Join(groups[..i]) + groups[i] + Join(groups[i + 1..])
  {
    JoinLength(groups[..i], BITS_PER_WORD);
    assert groups == groups[..i] + groups[i..];
    assert groups[i..][1..] == groups[i + 1..];
    JoinConcat(groups[..i], groups[i..]);
  }

  /** Only the eleven bits of the changed word can differ. */
  lemma BitsOutsideWord(words: seq<string>, a: seq<string>, b: seq<string>, i: nat)
    requires OneWordApart(a, b, i)
    ensures |Join(WordBits(words, a))| == |Join(WordBits(words, b))| == 264
    ensures forall k | 0 <= k < 264 && (k < 11 * i || 11 * i + 11 <= k) ::
              Join(WordBits(words, a))[k] == Join(WordBits(words, b))[k]
  {
    var x, y := WordBits(words, a), WordBits(words, b);
    JoinLength(x, BITS_PER_WORD);
    JoinLength(y, BITS_PER_WORD);
    JoinAround(x, i);
    JoinAround(y, i);
    assert x[..i] == y[..i] && x[i + 1..] == y[i + 1..];
  }

  lemma ByteAt(words: seq<string>, a: seq<string>, j: nat)
    requires |a| == NUM_WORDS && j < ENCIPHERED_SIZE
    ensures |TextOf(words, a)| == ENCIPHERED_SIZE && |Join(WordBits(words, a))| == 264
    ensures TextOf(words, a)[j] == BitsByte(Join(WordBits(words, a))[8 * j..8 * j + 8])
  {
    TextLength(words, a);
    JoinLength(WordBits(words, a), BITS_PER_WORD);
    SplitAt(Join(WordBits(words, a)), j);
  }

  /** So only the bytes that overlap the word can. */
  lemma BytesOutsideWord(words: seq<string>, a: seq<string>, b: seq<string>, i: nat, j: nat)
    requires OneWordApart(a, b, i) && j < ENCIPHERED_SIZE
    requires 8 * j + 8 <= 11 * i || 11 * i + 11 <= 8 * j
    ensures |TextOf(words, a)| == |TextOf(words, b)| == ENCIPHERED_SIZE
    ensures TextOf(words, a)[j] == TextOf(words, b)[j]
  {
    ByteAt(words, a, j);
    ByteAt(words, b, j);
    BitsOutsideWord(words, a, b, i);
    assert Join(WordBits(words, a))[8 * j..8 * j + 8] == Join(WordBits(words, b))[8 * j..8 * j + 8];
  }

  lemma TextsDiffer(words: seq<string>, a: seq<string>, b: seq<string>, i: nat)
    requires IsWordList(words) && OneWordApart(a, b, i)
    requires forall w | w in a || w in b :: w in words
    ensures |TextOf(words, a)| == |TextOf(words, b)| == ENCIPHERED_SIZE
    ensures TextOf(words, a) != TextOf(words, b)
  {
    hide TextOf, WordsOf;
    TextLength(words, a);
    TextLength(words, b);
    WordsOfText(words, a);
    WordsOfText(words, b);
  }

  // ----- where the two containers differ -----

  /** They differ in the data, within three bytes. */
  ghost predicate DataWindow(x: Bytes, y: Bytes) {
    && |x| == |y| == ENCIPHERED_SIZE
    && x[..CHECKSUM_OFFSET] != y[..CHECKSUM_OFFSET] && x[CHECKSUM_OFFSET..] == y[CHECKSUM_OFFSET..]
    && exists lo: nat :: lo + 3 <= CHECKSUM_OFFSET && SameAround(x[..CHECKSUM_OFFSET], y[..CHECKSUM_OFFSET], lo)
  }

  ghost predicate SameAround(p: Bytes, q: Bytes, lo: nat) {
    |p| == |q| && lo + 3 <= |p| && p[..lo] == q[..lo] && p[lo + 3..] == q[lo + 3..]
  }

  /** They differ in the checksum alone. */
  ghost predicate ChecksumOnly(x: Bytes, y: Bytes) {
    |x| == |y| == ENCIPHERED_SIZE && x[..CHECKSUM_OFFSET] == y[..CHECKSUM_OFFSET] && x != y
  }

  /** They differ in the last bit of the salt and in the upper half of the checksum. */
  ghost predicate Straddling(x: Bytes, y: Bytes) {
    && |x| == |y| == ENCIPHERED_SIZE
    && x[..CHECKSUM_OFFSET - 1] == y[..CHECKSUM_OFFSET - 1]
    && XorByte(x[CHECKSUM_OFFSET - 1], y[CHECKSUM_OFFSET - 1]) == 1
    && x[CHECKSUM_OFFSET + 2..] == y[CHECKSUM_OFFSET + 2..]
  }

  lemma DataWindowCaught(x: Bytes, y: Bytes)
    requires DataWindow(x, y)
    ensures !(Intact(x) && Intact(y))
  {
    hide Crc, Uint32;
    var lo: nat :| lo + 3 <= CHECKSUM_OFFSET && SameAround(x[..CHECKSUM_OFFSET], y[..CHECKSUM_OFFSET], lo);
    WindowChangesCrc(x[..CHECKSUM_OFFSET], y[..CHECKSUM_OFFSET], lo);
  }

  lemma Uint32Injective(a: Bytes, b: Bytes)
    requires |a| == |b| == 4
    ensures Uint32(a) == Uint32(b) ==> a == b
  {
    FourBytes(a[0], a[1], a[2], a[3], b[0], b[1], b[2], b[3]);
  }

  lemma FourBytes(a0: bv8, a1: bv8, a2: bv8, a3: bv8, b0: bv8, b1: bv8, b2: bv8, b3: bv8)
    ensures ((a0 as bv32) << 24) | ((a1 as bv32) << 16) | ((a2 as bv32) << 8) | (a3 as bv32)
            == ((b0 as bv32) << 24) | ((b1 as bv32) << 16) | ((b2 as bv32) << 8) | (b3 as bv32)
            ==> a0 == b0 && a1 == b1 && a2 == b2 && a3 == b3
  {
  }

  lemma ChecksumOnlyCaught(x: Bytes, y: Bytes)
    requires ChecksumOnly(x, y)
    ensures !(Intact(x) && Intact(y))
  {
    hide Crc, Uint32;
    Uint32Injective(x[CHECKSUM_OFFSET..], y[CHECKSUM_OFFSET..]);
    assert x == x[..CHECKSUM_OFFSET] + x[CHECKSUM_OFFSET..] && y == y[..CHECKSUM_OFFSET] + y[CHECKSUM_OFFSET..];
  }

  lemma LowHalf(a: Bytes, b: Bytes)
    requires |a| == |b| == 4 && a[2] == b[2] && a[3] == b[3]
    ensures Xor(Uint32(a), Uint32(b)) & 0xffff == 0
  {
    LowHalfBits(a[0], a[1], b[0], b[1], a[2], a[3]);
  }

  lemma LowHalfBits(a0: bv8, a1: bv8, b0: bv8, b1: bv8, c: bv8, d: bv8)
    ensures ((((a0 as bv32) << 24) | ((a1 as bv32) << 16) | ((c as bv32) << 8) | (d as bv32))
             ^ (((b0 as bv32) << 24) | ((b1 as bv32) << 16) | ((c as bv32) << 8) | (d as bv32))) & 0xffff == 0
  {
  }

  lemma StraddlingCaught(x: Bytes, y: Bytes)
    requires Straddling(x, y)
    ensures !(Intact(x) && Intact(y))
  {
    hide Crc, Uint32, Xor, XorByte;
    var p, q := x[..CHECKSUM_OFFSET], y[..CHECKSUM_OFFSET];
    assert p[..|p| - 1] == x[..CHECKSUM_OFFSET - 1] && q[..|q| - 1] == y[..CHECKSUM_OFFSET - 1];
    LastBitChangesCrc(p, q);
    assert x[CHECKSUM_OFFSET..][2] == x[CHECKSUM_OFFSET + 2..][0] && x[CHECKSUM_OFFSET..][3] == x[CHECKSUM_OFFSET + 2..][1];
    assert y[CHECKSUM_OFFSET..][2] == y[CHECKSUM_OFFSET + 2..][0] && y[CHECKSUM_OFFSET..][3] == y[CHECKSUM_OFFSET + 2..][1];
    LowHalf(x[CHECKSUM_OFFSET..], y[CHECKSUM_OFFSET..]);
  }

  /** Words 0 to 20 lie wholly in the data. */
  lemma EarlyWord(words: seq<string>, a: seq<string>, b: seq<string>, i: nat)
    requires IsWordList(words) && OneWordApart(a, b, i) && i <= 20
    requires forall w | w in a || w in b :: w in words
    ensures DataWindow(TextOf(words, a), TextOf(words, b))
  {
    hide TextOf;
    TextsDiffer(words, a, b, i);
    var x, y := TextOf(words, a), TextOf(words, b);
    var lo := if 11 * i / 8 <= 26 then 11 * i / 8 else 26;
    forall j: nat | j < lo || lo + 3 <= j < ENCIPHERED_SIZE ensures x[j] == y[j] {
      BytesOutsideWord(words, a, b, i, j);
    }
    assert x[CHECKSUM_OFFSET..] == y[CHECKSUM_OFFSET..];
    assert x == x[..CHECKSUM_OFFSET] + x[CHECKSUM_OFFSET..] && y == y[..CHECKSUM_OFFSET] + y[CHECKSUM_OFFSET..];
    assert SameAround(x[..CHECKSUM_OFFSET], y[..CHECKSUM_OFFSET], lo);
  }

  /** Words 22 and 23 lie wholly in the checksum. */
  lemma LateWord(words: seq<string>, a: seq<string>, b: seq<string>, i: nat)
    requires IsWordList(words) && OneWordApart(a, b, i) && 22 <= i
    requires forall w | w in a || w in b :: w in words
    ensures ChecksumOnly(TextOf(words, a), TextOf(words, b))
  {
    hide TextOf;
    TextsDiffer(words, a, b, i);
    forall j: nat | j < CHECKSUM_OFFSET ensures TextOf(words, a)[j] == TextOf(words, b)[j] {
      BytesOutsideWord(words, a, b, i, j);
    }
  }

  lemma LastBitOnly(u: seq<bool>, v: seq<bool>)
    requires |u| == |v| == 8 && u[..7] == v[..7]
    ensures XorByte(BitsByte(u), BitsByte(v)) == if u[7] == v[7] then 0 else 1
  {
    assert forall k | 0 <= k < 7 :: u[k] == u[..7][k] && v[k] == v[..7][k];
    var high := Bit(u[0], 0x80) | Bit(u[1], 0x40) | Bit(u[2], 0x20) | Bit(u[3], 0x10)
                | Bit(u[4], 0x08) | Bit(u[5], 0x04) | Bit(u[6], 0x02);
    HighSevenMask(u[0], u[1], u[2], u[3], u[4], u[5], u[6]);
    FlipLow(high, u[7], v[7]);
  }

  lemma HighSevenMask(a: bool, b: bool, c: bool, d: bool, e: bool, f: bool, g: bool)
    ensures (Bit(a, 0x80) | Bit(b, 0x40) | Bit(c, 0x20) | Bit(d, 0x10) | Bit(e, 0x08) | Bit(f, 0x04) | Bit(g, 0x02)) & 1 == 0
  {
  }

  lemma FlipLow(high: bv8, u: bool, v: bool)
    requires high & 1 == 0
    ensures XorByte(high | Bit(u, 0x01), high | Bit(v, 0x01)) == if u == v then 0 else 1
  {
  }

  /** Word 21 covers the last bit of the salt and the first ten bits of the checksum. */
  lemma StraddlingWord(words: seq<string>, a: seq<string>, b: seq<string>)
    requires IsWordList(words) && OneWordApart(a, b, 21)
    requires forall w | w in a || w in b :: w in words
    ensures var x, y := TextOf(words, a), TextOf(words, b); ChecksumOnly(x, y) || Straddling(x, y)
  {
    hide TextOf, XorByte, BitsByte;
    TextsDiffer(words, a, b, 21);
    var x, y := TextOf(words, a), TextOf(words, b);
    forall j: nat | j < 28 || 31 <= j < ENCIPHERED_SIZE ensures x[j] == y[j] {
      BytesOutsideWord(words, a, b, 21, j);
    }
    ByteAt(words, a, 28);
    ByteAt(words, b, 28);
    BitsOutsideWord(words, a, b, 21);
    var u, v := Join(WordBits(words, a))[8 * 28..8 * 28 + 8], Join(WordBits(words, b))[8 * 28..8 * 28 + 8];
    forall k | 0 <= k < 7 ensures u[k] == v[k] {
      assert u[k] == Join(WordBits(words, a))[8 * 28 + k] && v[k] == Join(WordBits(words, b))[8 * 28 + k];
    }
    assert u[..7] == v[..7];
    LastBitOnly(u, v);
    SameByte(x[28], y[28]);
    if x[28] == y[28] {
      assert x[..CHECKSUM_OFFSET] == y[..CHECKSUM_OFFSET];
    }
  }

  /** Of two lists of known words that differ in exactly one, at most one passes the version and checksum checks. */
  lemma OneWordChanged(words: seq<string>, a: seq<string>, b: seq<string>, i: nat)
    requires IsWordList(words) && OneWordApart(a, b, i)
    requires forall w | w in a || w in b :: w in words
    ensures |TextOf(words, a)| == |TextOf(words, b)| == ENCIPHERED_SIZE
    ensures !(Intact(TextOf(words, a)) && Intact(TextOf(words, b)))
  {
    hide TextOf, Intact;
    TextsDiffer(words, a, b, i);
    var x, y := TextOf(words, a), TextOf(words, b);
    if i <= 20 {
      EarlyWord(words, a, b, i);
      DataWindowCaught(x, y);
    } else if i == 21 {
      StraddlingWord(words, a, b);
      if ChecksumOnly(x, y) {
        ChecksumOnlyCaught(x, y);
      } else {
        StraddlingCaught(x, y);
      }
    } else {
      LateWord(words, a, b, i);
      ChecksumOnlyCaught(x, y);
    }
  }

  /** The mnemonic was accepted as written: it deciphers, or only the passphrase is wrong. */
  ghost predicate WrittenCorrectly(r: Result<(Bytes, Bytes)>) {
    r.Success? || r == Failure(InvalidPass)
  }

  lemma CorrectIsIntact(sch: Scheme, m: seq<string>, pass: Bytes)
    requires |m| == NUM_WORDS && WrittenCorrectly(DecipheredMnemonic(sch, m, pass))
    ensures |TextOf(sch.words, m)| == ENCIPHERED_SIZE && Intact(TextOf(sch.words, m))
    ensures forall w | w in m :: w in sch.words
  {
    hide TextOf, Intact;
    TextLength(sch.words, m);
  }

  /** If any one word of an accepted mnemonic is replaced by any other string, the result is not accepted, under
      whatever passphrase. */
  lemma WrongWordIsReported(sch: Scheme, a: seq<string>, b: seq<string>, i: nat, pass: Bytes, pass': Bytes)
    requires sch.Valid() && OneWordApart(a, b, i)
    requires WrittenCorrectly(DecipheredMnemonic(sch, a, pass))
    ensures !WrittenCorrectly(DecipheredMnemonic(sch, b, pass'))
  {
    hide TextOf, Intact, DecipheredMnemonic;
    if WrittenCorrectly(DecipheredMnemonic(sch, b, pass')) {
      CorrectIsIntact(sch, a, pass);
      CorrectIsIntact(sch, b, pass');
      OneWordChanged(sch.words, a, b, i);
    }
  }
}
