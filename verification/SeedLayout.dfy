/** Where everything is in a seed's container and its mnemonic, and under which key, byte by byte and bit by bit. */
module SeedLayout {
  import opened Aezeed
  import opened Bits
  import opened Crc32c
  import opened Options

  // ----- bytes -----

  /** Four bytes, the most significant first. */
  ghost predicate IsBigEndian(data: Bytes, v: bv32) {
    |data| == 4
    && v == ((data[0] as bv32) << 24) | ((data[1] as bv32) << 16) | ((data[2] as bv32) << 8) | (data[3] as bv32)
  }

  lemma PutUint32BigEndian(v: bv32)
    ensures IsBigEndian(PutUint32(v), v)
  {
  }

  lemma BigEndianUint32(data: Bytes, v: bv32)
    requires |data| == 4
    ensures IsBigEndian(data, v) <==> v == Uint32(data)
  {
  }

  lemma PutUint16BigEndian(v: bv16)
    ensures v == ((PutUint16(v)[0] as bv16) << 8) | (PutUint16(v)[1] as bv16)
  {
  }

  /** The plaintext: a byte for the version, two for the birthday, sixteen for the entropy. */
  lemma PlaintextLayout(c: CipherSeed)
    ensures |Encode(c)| == 19
    ensures Encode(c)[0] == c.internalVersion
    ensures ((Encode(c)[1] as bv16) << 8) | (Encode(c)[2] as bv16) == c.birthday
    ensures Encode(c)[3..] == c.entropy
  {
    hide PutUint16;
    PutUint16BigEndian(c.birthday);
    assert Encode(c)[3..] == c.entropy;
  }

  /** The passphrase in effect: the one given, or the word aezeed. */
  ghost predicate InEffect(passphrase: Bytes, pass: Bytes) {
    passphrase == if pass == [] then [0x61, 0x65, 0x7a, 0x65, 0x65, 0x64] else pass
  }

  /** The container: version zero, the ciphertext under the key of the passphrase and the salt, with version and salt as
      associated data, the salt, and the checksum of all these. */
  lemma ContainerLayout(sch: Scheme, c: CipherSeed, pass: Bytes, passphrase: Bytes)
    requires sch.Valid() && InEffect(passphrase, pass)
    ensures var data := Enciphered(sch, c, pass);
            && |data| == 33
            && data[0] == 0
            && data[1..24] == sch.encrypt(sch.key(passphrase, c.salt), [0] + c.salt, Encode(c))
            && data[24..29] == c.salt
            && IsBigEndian(data[29..33], Crc(data[..29]))
  {
    hide Crc, Encode, PutUint32, IsBigEndian;
    var body, data := Body(sch, c, pass), Enciphered(sch, c, pass);
    assert Passphrase(pass) == passphrase;
    assert EncodeAD(0, c.salt) == [0] + c.salt;
    assert |body| == 29 && data[..29] == body && data[29..33] == PutUint32(Crc(body));
    PutUint32BigEndian(Crc(body));
    assert body[1..24] == sch.encrypt(sch.key(passphrase, c.salt), [0] + c.salt, Encode(c));
    assert data[1..24] == body[1..24] && data[24..29] == body[24..29] == c.salt;
  }

  // ----- reading -----

  /** What reading a container yields: an unknown version, a wrong checksum and a ciphertext refused under the key of the
      passphrase and the salt, looked for in this order, each have their own error. */
  ghost predicate ReadAs(sch: Scheme, data: Bytes, passphrase: Bytes, r: Result<(Bytes, Bytes)>)
    requires |data| == 33
  {
    if data[0] != 0 then r == Failure(IncorrectVersion)
    else if !IsBigEndian(data[29..33], Crc(data[..29])) then r == Failure(IncorrectMnemonic)
    else match sch.decrypt(sch.key(passphrase, data[24..29]), [0] + data[24..29], data[1..24])
      case None => r == Failure(InvalidPass)
      case Some(plain) => r == Success((plain, data[24..29]))
  }

  lemma ContainerRead(sch: Scheme, data: Bytes, passphrase: Bytes)
    requires |data| == 33
    ensures ReadAs(sch, data, passphrase, Deciphered(sch, data, passphrase))
  {
    hide Crc, Uint32, IsBigEndian;
    assert data[29..] == data[29..33];
    BigEndianUint32(data[29..33], Crc(data[..29]));
    assert data[0] == 0 ==> ExtractAD(data) == [0] + data[24..29];
  }

  /** The first word that is not listed is reported, with its position; otherwise the container is read, under the
      passphrase in effect. */
  lemma MnemonicRead(sch: Scheme, mnemonic: seq<string>, pass: Bytes, passphrase: Bytes)
    requires |mnemonic| == 24 && InEffect(passphrase, pass)
    ensures |TextOf(sch.words, mnemonic)| == 33
    ensures (forall w | w in mnemonic :: w in sch.words) ==>
              ReadAs(sch, TextOf(sch.words, mnemonic), passphrase, DecipheredMnemonic(sch, mnemonic, pass))
    ensures forall i | 0 <= i < 24 && mnemonic[i] !in sch.words && (forall w | w in mnemonic[..i] :: w in sch.words) ::
              DecipheredMnemonic(sch, mnemonic, pass) == Failure(UnknownMnemonicWord(mnemonic[i], i))
  {
    hide Deciphered, ReadAs, TextOf;
    TextLength(sch.words, mnemonic);
    ContainerRead(sch, TextOf(sch.words, mnemonic), passphrase);
    assert Passphrase(pass) == passphrase;
    var first := FirstUnknown(sch.words, mnemonic);
    if first < 24 {
      assert mnemonic[first] in mnemonic;
    }
    forall i | 0 <= i < 24 && mnemonic[i] !in sch.words && (forall w | w in mnemonic[..i] :: w in sch.words)
      ensures first == i
    {
      assert forall k | 0 <= k < i :: mnemonic[..i][k] in sch.words;
      assert forall k | 0 <= k < i :: mnemonic[..i][k] == mnemonic[k];
    }
  }

  /** Under another passphrase the seed is read exactly as the cipher takes the ciphertext under that passphrase's key: if
      the cipher refuses it, the passphrase is reported to be invalid, and otherwise not. */
  lemma OtherPassphrase(sch: Scheme, c: CipherSeed, pass: Bytes, used: Bytes, other: Bytes, tried: Bytes)
    requires sch.Valid() && InEffect(used, pass) && InEffect(tried, other)
    ensures |ToMnemonic(sch, c, pass)| == 24
    ensures var ad := [0] + c.salt;
            var plain := sch.decrypt(sch.key(tried, c.salt), ad, sch.encrypt(sch.key(used, c.salt), ad, Encode(c)));
            var r := ToCipherSeed(sch, ToMnemonic(sch, c, pass), other);
            && (r == Failure(InvalidPass) <==> plain.None?)
            && (plain.Some? ==> r == Decode(plain.value, c.salt))
  {
    hide Deciphered, Enciphered, Encode, TextOf, WordsOf, Crc, IsBigEndian;
    var data := Enciphered(sch, c, pass);
    ContainerLayout(sch, c, pass, used);
    TextOfWords(sch.words, data);
    MnemonicRead(sch, ToMnemonic(sch, c, pass), other, tried);
  }

  // ----- words -----

  const MASKS: seq<bv8> := [0x80, 0x40, 0x20, 0x10, 0x08, 0x04, 0x02, 0x01]
  const PLACES: seq<nat> := [1024, 512, 256, 128, 64, 32, 16, 8, 4, 2, 1]

  /** The bits of the container, most significant first, are the binary digits of the words' positions in the list, eleven
      for each word, most significant first. */
  lemma WordDigits(words: seq<string>, data: Bytes, i: nat, j: nat)
    requires |words| == 2048 && |data| == 33 && i < 24 && j < 11
    ensures |WordsOf(words, data)| == 24 && |Groups(data)| == 24
    ensures var n := Number(Groups(data)[i]);
            && n < 2048 && WordsOf(words, data)[i] == words[n]
            && (n / PLACES[j] % 2 == 1 <==> data[(11 * i + j) / 8] & MASKS[(11 * i + j) % 8] != 0)
  {
    hide Number, Groups;
    GroupsOfText(data);
    GroupAt(data, i, j);
    var k := 11 * i + j;
    assert k == 8 * (k / 8) + k % 8;
    DataBitAt(data, k / 8, k % 8);
    ElevenBits(Groups(data)[i]);
    Digit(Groups(data)[i], j);
    PlaceIsPower(j);
  }

  lemma PlaceIsPower(j: nat)
    requires j < 11
    ensures PLACES[j] == Power2(10 - j)
  {
    assert Power2(0) == 1 && Power2(2) == 4 && Power2(4) == 16 && Power2(6) == 64 && Power2(8) == 256 && Power2(10) == 1024;
  }

  lemma GroupAt(data: Bytes, i: nat, j: nat)
    requires |data| == 33 && i < 24 && j < 11
    ensures |Groups(data)| == 24 && 11 * i + j < |DataBits(data)|
    ensures Groups(data)[i][j] == DataBits(data)[11 * i + j]
  {
    hide DataBits;
    GroupsOfText(data);
    JoinLength(Groups(data), 11);
    JoinAt(Groups(data), 11, i, j);
  }

  lemma {:induction false} JoinAt(groups: seq<seq<bool>>, k: nat, i: nat, j: nat)
    requires Uniform(groups, k) && i < |groups| && j < k
    ensures k * i + j < |Join(groups)| && Join(groups)[k * i + j] == groups[i][j]
    decreases i
  {
    JoinLength(groups, k);
    InGroup(k, i, j, |groups|);
    if i > 0 {
      JoinAt(groups[1..], k, i - 1, j);
      assert k * i + j == k + (k * (i - 1) + j);
    }
  }

  lemma InGroup(k: nat, i: nat, j: nat, n: nat)
    requires i < n && j < k
    ensures k * i + j < k * n
  {
    assert k * n == k * i + k * (n - i);
    AtLeastOnce(k, n - i);
  }

  lemma AtLeastOnce(k: nat, n: nat)
    requires n >= 1
    ensures k * n >= k
  {
    assert k * n == k + k * (n - 1);
  }

  lemma ByteBitAt(x: bv8, b: nat)
    requires b < 8
    ensures ByteBits(x)[b] <==> x & MASKS[b] != 0
  {
    assert b == 0 || b == 1 || b == 2 || b == 3 || b == 4 || b == 5 || b == 6 || b == 7;
  }

  lemma DataBitAt(data: Bytes, a: nat, b: nat)
    requires a < |data| && b < 8
    ensures 8 * a + b < |DataBits(data)|
    ensures DataBits(data)[8 * a + b] <==> data[a] & MASKS[b] != 0
  {
    hide ByteBits;
    JoinAt(AllByteBits(data), 8, a, b);
    ByteBitAt(data[a], b);
  }

  /** Whether the binary digit of n at the place p is one. */
  ghost predicate HasDigit(n: nat, p: nat)
    requires p > 0
  {
    n / p % 2 == 1
  }

  /** The binary digits of a bit string's number are its bits. */
  lemma {:induction false} Digit(bits: seq<bool>, j: nat)
    requires j < |bits|
    ensures HasDigit(Number(bits), Power2(|bits| - 1 - j)) <==> bits[j]
  {
    hide HasDigit, Number, Power2;
    var m := |bits| - 1;
    NumberStep(bits);
    if j == m {
      LastDigit(Number(bits[..m]), bits[m]);
    } else {
      Digit(bits[..m], j);
      Halve(Number(bits[..m]), bits[m], m - 1 - j);
    }
  }

  lemma NumberStep(bits: seq<bool>)
    requires bits != []
    ensures Number(bits) == 2 * Number(bits[..|bits| - 1]) + if bits[|bits| - 1] then 1 else 0
  {
  }

  lemma LastDigit(n: nat, b: bool)
    ensures HasDigit(2 * n + if b then 1 else 0, Power2(0)) <==> b
  {
  }

  lemma Halve(n: nat, b: bool, k: nat)
    ensures HasDigit(2 * n + (if b then 1 else 0), Power2(k + 1)) <==> HasDigit(n, Power2(k))
  {
    var p, d := Power2(k), if b then 1 else 0;
    assert Power2(k + 1) == 2 * p;
    hide Power2;
    var q, r := n / p, n % p;
    assert n == p * q + r;
    assert 2 * n + d == (2 * p) * q + (2 * r + d);
    Quotient(2 * p, q, 2 * r + d);
  }

  lemma Quotient(d: nat, q: nat, r: nat)
    requires r < d
    ensures (d * q + r) / d == q
  {
    var x := d * q + r;
    var p := x / d;
    assert x == d * p + x % d;
    assert d * p - d * q == d * (p - q) == -(d * (q - p));
    if p > q {
      AtLeastOnce(d, p - q);
    } else if p < q {
      AtLeastOnce(d, q - p);
    }
  }

  // ----- the checksum -----

  /** The check value of CRC32C: the checksum of the digits from 1 to 9. */
  lemma CheckValue()
    ensures Crc([0x31, 0x32, 0x33, 0x34, 0x35, 0x36, 0x37, 0x38, 0x39]) == 0xe3069283
  {
    hide Feed;
    var digits: Bytes := [0x31, 0x32, 0x33, 0x34, 0x35, 0x36, 0x37, 0x38, 0x39];
    CheckSteps();
    forall n | 0 <= n < 9 ensures digits[..n + 1][..n] == digits[..n] {
    }
    assert FeedAll(0xffffffff, digits[..1]) == 0x6f0a661c;
    assert FeedAll(0xffffffff, digits[..2]) == 0x8caa3b9f;
    assert FeedAll(0xffffffff, digits[..3]) == 0xef84d04d;
    assert FeedAll(0xffffffff, digits[..4]) == 0x09c50b11;
    assert FeedAll(0xffffffff, digits[..5]) == 0xe72edcca;
    assert FeedAll(0xffffffff, digits[..6]) == 0xbeca8e79;
    assert FeedAll(0xffffffff, digits[..7]) == 0xedbd6815;
    assert FeedAll(0xffffffff, digits[..8]) == 0x9f787f65;
    assert FeedAll(0xffffffff, digits[..9]) == 0x1cf96d7c;
    assert digits[..9] == digits;
  }

  lemma CheckSteps()
    ensures Feed(0xffffffff, 0x31) == 0x6f0a661c
    ensures Feed(0x6f0a661c, 0x32) == 0x8caa3b9f
    ensures Feed(0x8caa3b9f, 0x33) == 0xef84d04d
    ensures Feed(0xef84d04d, 0x34) == 0x09c50b11
    ensures Feed(0x09c50b11, 0x35) == 0xe72edcca
    ensures Feed(0xe72edcca, 0x36) == 0xbeca8e79
    ensures Feed(0xbeca8e79, 0x37) == 0xedbd6815
    ensures Feed(0xedbd6815, 0x38) == 0x9f787f65
    ensures Feed(0x9f787f65, 0x39) == 0x1cf96d7c
  {
  }
}
