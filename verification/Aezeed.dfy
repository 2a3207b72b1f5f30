/** The aezeed cipher seed: its serialisation, its checksummed container and its 24-word form. */
module Aezeed {
  import opened Bits
  import opened Crc32c
  import opened Options

  const CIPHER_SEED_VERSION: bv8 := 0
  const DECIPHERED_SIZE := 19
  const ENCIPHERED_SIZE := 33
  const SALT_OFFSET := 24
  const CHECKSUM_OFFSET := 29
  const NUM_WORDS := 24
  const BITS_PER_WORD := 11

  type Bytes = seq<bv8>

  const DEFAULT_PASSPHRASE: Bytes := [0x61, 0x65, 0x7a, 0x65, 0x65, 0x64]

  datatype SeedError =
    | IncorrectVersion
    | InvalidPass
    | IncorrectMnemonic
    | UnknownMnemonicWord(word: string, index: nat)
    | UnexpectedEnd

  datatype Result<+T> = Success(value: T) | Failure(error: SeedError)

  datatype RawSeed = RawSeed(internalVersion: bv8, birthday: bv16, entropy: Bytes, salt: Bytes)

  type CipherSeed = c: RawSeed | |c.entropy| == 16 && |c.salt| == 5
    witness RawSeed(0, 0, [0, 0, 0, 0, 0, 0, 0, 0, 0, 0, 0, 0, 0, 0, 0, 0], [0, 0, 0, 0, 0])

  /** What the scheme is built from: a word list, a key derivation function and an authenticated cipher. */
  datatype Scheme = Scheme(words: seq<string>,
                           key: (Bytes, Bytes) -> Bytes,
                           encrypt: (Bytes, Bytes, Bytes) -> Bytes,
                           decrypt: (Bytes, Bytes, Bytes) -> Option<Bytes>)
  {
    /** 2048 different words, and a cipher that adds four bytes and takes them off again under the same key and
        associated data. */
    ghost predicate Valid() {
      && IsWordList(words)
      && (forall k, ad, m :: |m| == DECIPHERED_SIZE ==>
                               |encrypt(k, ad, m)| == DECIPHERED_SIZE + 4 && decrypt(k, ad, encrypt(k, ad, m)) == Some(m))
      && (forall k, ad, c :: |c| == DECIPHERED_SIZE + 4 && decrypt(k, ad, c).Some? ==>
                               |decrypt(k, ad, c).value| == DECIPHERED_SIZE)
    }
  }

  // ----- words -----

  ghost predicate IsWordList(words: seq<string>) {
    |words| == 2048 && forall i, j | 0 <= i < j < |words| :: words[i] != words[j]
  }

  function ReverseMap(words: seq<string>): map<string, nat> {
    if words == [] then map[]
    else ReverseMap(words[..|words| - 1])[words[|words| - 1] := |words| - 1]
  }

  method BuildReverseMap(words: seq<string>) returns (reverse: map<string, nat>)
    ensures reverse == ReverseMap(words)
  {
    reverse := map[];
    for i := 0 to |words|
      invariant reverse == ReverseMap(words[..i])
    {
      assert words[..i + 1][..i] == words[..i];
      reverse := reverse[words[i] := i];
    }
    assert words[..|words|] == words;
  }

  lemma {:induction false} ReverseMapKeys(words: seq<string>, w: string)
    ensures w in ReverseMap(words) <==> w in words
  {
    if words != [] {
      ReverseMapKeys(words[..|words| - 1], w);
      assert words == words[..|words| - 1] + [words[|words| - 1]];
    }
  }

  lemma {:induction false} ReverseMapIndex(words: seq<string>, i: nat)
    requires forall j, k | 0 <= j < k < |words| :: words[j] != words[k]
    requires i < |words|
    ensures words[i] in ReverseMap(words) && ReverseMap(words)[words[i]] == i
  {
    var m := |words| - 1;
    if i < m {
      ReverseMapIndex(words[..m], i);
      assert words[..m][i] == words[i];
    }
  }

  /** The position of a word; a word that is not listed reads as zero. */
  function Index(words: seq<string>, w: string): nat {
    var reverse := ReverseMap(words);
    if w in reverse then reverse[w] else 0
  }

  lemma IndexOfListed(words: seq<string>, w: string)
    requires IsWordList(words) && w in words
    ensures Index(words, w) < 2048 && words[Index(words, w)] == w
  {
    var i :| 0 <= i < |words| && words[i] == w;
    ReverseMapIndex(words, i);
  }

  function Groups(data: Bytes): (groups: seq<seq<bool>>)
    ensures Uniform(groups, BITS_PER_WORD)
  {
    Split(DataBits(data), BITS_PER_WORD)
  }

  /** The 24 words of a container: every eleven bits select one. */
  function WordsOf(words: seq<string>, data: Bytes): seq<string>
    requires |words| == 2048
  {
    var groups := Groups(data);
    seq(|groups|, i requires 0 <= i < |groups| => WordOf(words, groups[i]))
  }

  function WordOf(words: seq<string>, group: seq<bool>): string
    requires |words| == 2048 && |group| == BITS_PER_WORD
  {
    ElevenBits(group);
    words[Number(group)]
  }

  function WordBits(words: seq<string>, mnemonic: seq<string>): (groups: seq<seq<bool>>)
    ensures |groups| == |mnemonic| && Uniform(groups, BITS_PER_WORD)
  {
    seq(|mnemonic|, i requires 0 <= i < |mnemonic| => NumberBits(Index(words, mnemonic[i]), BITS_PER_WORD))
  }

  /** The container that a mnemonic spells. */
  function TextOf(words: seq<string>, mnemonic: seq<string>): Bytes {
    BitsData(Join(WordBits(words, mnemonic)))
  }

  lemma GroupsOfText(data: Bytes)
    requires |data| == ENCIPHERED_SIZE
    ensures |Groups(data)| == NUM_WORDS && Join(Groups(data)) == DataBits(data)
  {
    DataOfBits(data);
    JoinSplit(DataBits(data), BITS_PER_WORD, NUM_WORDS);
  }

  lemma TextLength(words: seq<string>, mnemonic: seq<string>)
    requires |mnemonic| == NUM_WORDS
    ensures |TextOf(words, mnemonic)| == ENCIPHERED_SIZE
    ensures DataBits(TextOf(words, mnemonic)) == Join(WordBits(words, mnemonic))
  {
    JoinLength(WordBits(words, mnemonic), BITS_PER_WORD);
    BitsOfData(Join(WordBits(words, mnemonic)), ENCIPHERED_SIZE);
  }

  /** Spelling a container and reading it back gives the same bytes. */
  lemma TextOfWords(words: seq<string>, data: Bytes)
    requires IsWordList(words) && |data| == ENCIPHERED_SIZE
    ensures |WordsOf(words, data)| == NUM_WORDS
    ensures forall w | w in WordsOf(words, data) :: w in words
    ensures TextOf(words, WordsOf(words, data)) == data
  {
    var groups, mnemonic := Groups(data), WordsOf(words, data);
    GroupsOfText(data);
    forall i | 0 <= i < |groups| ensures WordBits(words, mnemonic)[i] == groups[i] {
      ElevenBits(groups[i]);
      ReverseMapIndex(words, Number(groups[i]));
      BitsOfNumber(groups[i]);
    }
    assert WordBits(words, mnemonic) == groups;
    forall i | 0 <= i < |mnemonic| ensures mnemonic[i] in words {
      ElevenBits(groups[i]);
    }
    DataOfBits(data);
  }

  /** Reading listed words and spelling them again gives the same words. */
  lemma WordsOfText(words: seq<string>, mnemonic: seq<string>)
    requires IsWordList(words) && |mnemonic| == NUM_WORDS
    requires forall w | w in mnemonic :: w in words
    ensures WordsOf(words, TextOf(words, mnemonic)) == mnemonic
  {
    TextLength(words, mnemonic);
    SplitJoin(WordBits(words, mnemonic), BITS_PER_WORD);
    forall i | 0 <= i < NUM_WORDS ensures WordOf(words, WordBits(words, mnemonic)[i]) == mnemonic[i] {
      IndexOfListed(words, mnemonic[i]);
      Below2048(Index(words, mnemonic[i]));
    }
  }

  method CipherTextToMnemonic(words: seq<string>, cipherText: Bytes) returns (mnemonic: Option<seq<string>>)
    requires |words| == 2048 && |cipherText| == ENCIPHERED_SIZE
    ensures mnemonic == Some(WordsOf(words, cipherText))
  {
    var cipherBits := new BitReader(cipherText);
    var spelled := [];
    GroupsOfText(cipherText);
    ghost var groups := Groups(cipherText);
    for i := 0 to NUM_WORDS
      invariant cipherBits.rest == Join(groups[i..])
      invariant spelled == WordsOf(words, cipherText)[..i]
    {
      JoinLength(groups[i..], BITS_PER_WORD);
      assert groups[i..][1..] == groups[i + 1..];
      ElevenBits(groups[i]);
      var index := cipherBits.ReadBits(BITS_PER_WORD);
      if index.None? {
        return None;
      }
      spelled := spelled + [words[index.value]];
    }
    assert WordsOf(words, cipherText)[..NUM_WORDS] == WordsOf(words, cipherText);
    return Some(spelled);
  }

  method MnemonicToCipherText(words: seq<string>, mnemonic: seq<string>) returns (cipherText: Bytes)
    requires |mnemonic| == NUM_WORDS
    ensures cipherText == TextOf(words, mnemonic)
  {
    var cipherBits := new BitWriter();
    var reverse := BuildReverseMap(words);
    ghost var groups := WordBits(words, mnemonic);
    for i := 0 to |mnemonic|
      invariant cipherBits.written == Join(groups[..i])
    {
      var word := mnemonic[i];
      var index := if word in reverse then reverse[word] else 0;
      cipherBits.WriteBits(index, BITS_PER_WORD);
      JoinAppend(groups[..i], groups[i]);
      assert groups[..i + 1] == groups[..i] + [groups[i]];
    }
    assert groups[..|mnemonic|] == groups;
    return cipherBits.Bytes();
  }

  lemma {:induction false} JoinAppend(groups: seq<seq<bool>>, group: seq<bool>)
    ensures Join(groups + [group]) == Join(groups) + group
  {
    if groups == [] {
      assert [group][1..] == [];
    } else {
      JoinAppend(groups[1..], group);
      assert (groups + [group])[1..] == groups[1..] + [group];
    }
  }

  // ----- the container -----

  function PutUint16(v: bv16): (data: Bytes)
    ensures |data| == 2
  {
    [(v >> 8) as bv8, (v & 0xff) as bv8]
  }

  function Uint16(data: Bytes): bv16
    requires |data| >= 2
  {
    ((data[0] as bv16) << 8) | (data[1] as bv16)
  }

  lemma Uint16Put(v: bv16)
    ensures Uint16(PutUint16(v)) == v
  {
  }

  function PutUint32(v: bv32): (data: Bytes)
    ensures |data| == 4
  {
    [(v >> 24) as bv8, ((v >> 16) & 0xff) as bv8, ((v >> 8) & 0xff) as bv8, (v & 0xff) as bv8]
  }

  function Uint32(data: Bytes): bv32
    requires |data| >= 4
  {
    ((data[0] as bv32) << 24) | ((data[1] as bv32) << 16) | ((data[2] as bv32) << 8) | (data[3] as bv32)
  }

  lemma Uint32Put(v: bv32)
    ensures Uint32(PutUint32(v)) == v
  {
  }

  /** version || birthday || entropy */
  function Encode(c: CipherSeed): (data: Bytes)
    ensures |data| == DECIPHERED_SIZE
  {
    [c.internalVersion] + PutUint16(c.birthday) + c.entropy
  }

  function Decode(data: Bytes, salt: Bytes): Result<CipherSeed>
    requires |salt| == 5
  {
    if |data| < DECIPHERED_SIZE then Failure(UnexpectedEnd)
    else Success(RawSeed(data[0], Uint16(data[1..]), data[3..DECIPHERED_SIZE], salt))
  }

  lemma DecodeEncode(c: CipherSeed)
    ensures Decode(Encode(c), c.salt) == Success(c)
  {
    hide Uint16, PutUint16;
    var data := Encode(c);
    Uint16Put(c.birthday);
    assert data[1..] == PutUint16(c.birthday) + c.entropy;
    Uint16Prefix(PutUint16(c.birthday), c.entropy);
    assert data[3..DECIPHERED_SIZE] == c.entropy;
  }

  lemma Uint16Prefix(a: Bytes, b: Bytes)
    requires |a| == 2
    ensures Uint16(a + b) == Uint16(a)
  {
  }

  function EncodeAD(version: bv8, salt: Bytes): Bytes {
    [version] + salt
  }

  function ExtractAD(data: Bytes): Bytes
    requires |data| == ENCIPHERED_SIZE
  {
    [data[0]] + data[SALT_OFFSET..CHECKSUM_OFFSET]
  }

  function Passphrase(pass: Bytes): Bytes {
    if |pass| == 0 then DEFAULT_PASSPHRASE else pass
  }

  /** Everything before the checksum: version || ciphertext || salt */
  function Body(sch: Scheme, c: CipherSeed, pass: Bytes): Bytes {
    [CIPHER_SEED_VERSION]
    + sch.encrypt(sch.key(Passphrase(pass), c.salt), EncodeAD(CIPHER_SEED_VERSION, c.salt), Encode(c))
    + c.salt
  }

  function Enciphered(sch: Scheme, c: CipherSeed, pass: Bytes): Bytes {
    Body(sch, c, pass) + PutUint32(Crc(Body(sch, c, pass)))
  }

  method CopyInto(target: array<bv8>, at: nat, source: Bytes)
    requires at + |source| <= target.Length
    modifies target
    ensures target[..] == old(target[..at]) + source + old(target[at + |source|..])
  {
    for i := 0 to |source|
      invariant target[..at] == old(target[..at]) && target[at + |source|..] == old(target[at + |source|..])
      invariant target[at..at + i] == source[..i]
    {
      target[at + i] := source[i];
      assert source[..i + 1] == source[..i] + [source[i]];
    }
    assert source[..|source|] == source;
    assert target[..] == target[..at] + target[at..at + |source|] + target[at + |source|..];
  }

  method Encipher(sch: Scheme, c: CipherSeed, pass: Bytes) returns (data: Bytes)
    requires sch.Valid()
    ensures data == Enciphered(sch, c, pass) && |data| == ENCIPHERED_SIZE
  {
    hide Crc, PutUint32, Encode;
    var cipherSeedBytes := new bv8[ENCIPHERED_SIZE](_ => 0);
    var passphrase := pass;
    if |passphrase| == 0 {
      passphrase := DEFAULT_PASSPHRASE;
    }
    var key := sch.key(passphrase, c.salt);
    var ad := EncodeAD(CIPHER_SEED_VERSION, c.salt);
    var cipherText := sch.encrypt(key, ad, Encode(c));
    cipherSeedBytes[0] := CIPHER_SEED_VERSION;
    CopyInto(cipherSeedBytes, 1, cipherText);
    CopyInto(cipherSeedBytes, SALT_OFFSET, c.salt);
    assert cipherSeedBytes[..CHECKSUM_OFFSET] == Body(sch, c, pass);
    var checkSum := Checksum(cipherSeedBytes[..CHECKSUM_OFFSET]);
    CopyInto(cipherSeedBytes, CHECKSUM_OFFSET, PutUint32(checkSum));
    return cipherSeedBytes[..];
  }

  /** The version is known and the checksum is that of the bytes before it. */
  predicate Intact(data: Bytes)
    requires |data| == ENCIPHERED_SIZE
  {
    data[0] == CIPHER_SEED_VERSION && Crc(data[..CHECKSUM_OFFSET]) == Uint32(data[CHECKSUM_OFFSET..])
  }

  /** Takes a container apart: the plaintext seed and the salt. */
  function Deciphered(sch: Scheme, data: Bytes, passphrase: Bytes): Result<(Bytes, Bytes)>
    requires |data| == ENCIPHERED_SIZE
  {
    if data[0] != CIPHER_SEED_VERSION then Failure(IncorrectVersion)
    else if !Intact(data) then Failure(IncorrectMnemonic)
    else
      var salt := data[SALT_OFFSET..CHECKSUM_OFFSET];
      match sch.decrypt(sch.key(passphrase, salt), ExtractAD(data), data[1..SALT_OFFSET])
      case None => Failure(InvalidPass)
      case Some(plain) => Success((plain, salt))
  }

  method DecipherCipherSeed(sch: Scheme, data: Bytes, passphrase: Bytes) returns (r: Result<(Bytes, Bytes)>)
    requires |data| == ENCIPHERED_SIZE
    ensures r == Deciphered(sch, data, passphrase)
  {
    if data[0] != CIPHER_SEED_VERSION {
      return Failure(IncorrectVersion);
    }
    var salt, cipherSeed, checksum := data[SALT_OFFSET..SALT_OFFSET + 5], data[1..SALT_OFFSET], data[CHECKSUM_OFFSET..];
    var freshChecksum := Checksum(data[..CHECKSUM_OFFSET]);
    if freshChecksum != Uint32(checksum) {
      return Failure(IncorrectMnemonic);
    }
    var plain := sch.decrypt(sch.key(passphrase, salt), ExtractAD(data), cipherSeed);
    if plain.None? {
      return Failure(InvalidPass);
    }
    return Success((plain.value, salt));
  }

  function FirstUnknown(words: seq<string>, mnemonic: seq<string>): (i: nat)
    ensures i <= |mnemonic|
    ensures forall j | 0 <= j < i :: mnemonic[j] in words
    ensures i < |mnemonic| ==> mnemonic[i] !in words
  {
    if mnemonic == [] || mnemonic[0] !in words then 0 else 1 + FirstUnknown(words, mnemonic[1..])
  }

  function DecipheredMnemonic(sch: Scheme, mnemonic: seq<string>, pass: Bytes): Result<(Bytes, Bytes)>
    requires |mnemonic| == NUM_WORDS
  {
    var i := FirstUnknown(sch.words, mnemonic);
    if i < NUM_WORDS then Failure(UnknownMnemonicWord(mnemonic[i], i))
    else
      TextLength(sch.words, mnemonic);
      Deciphered(sch, TextOf(sch.words, mnemonic), Passphrase(pass))
  }

  method Decipher(sch: Scheme, mnemonic: seq<string>, pass: Bytes) returns (r: Result<(Bytes, Bytes)>)
    requires |mnemonic| == NUM_WORDS
    ensures r == DecipheredMnemonic(sch, mnemonic, pass)
  {
    var wordDict: set<string> := {};
    for i := 0 to |sch.words|
      invariant wordDict == set j | 0 <= j < i :: sch.words[j]
    {
      wordDict := wordDict + {sch.words[i]};
    }
    for i := 0 to |mnemonic|
      invariant forall j | 0 <= j < i :: mnemonic[j] in sch.words
    {
      if mnemonic[i] !in wordDict {
        return Failure(UnknownMnemonicWord(mnemonic[i], i));
      }
    }
    var passphrase := pass;
    if |passphrase| == 0 {
      passphrase := DEFAULT_PASSPHRASE;
    }
    TextLength(sch.words, mnemonic);
    var cipherText := MnemonicToCipherText(sch.words, mnemonic);
    r := DecipherCipherSeed(sch, cipherText, passphrase);
  }

  function ToMnemonic(sch: Scheme, c: CipherSeed, pass: Bytes): seq<string>
    requires |sch.words| == 2048
  {
    WordsOf(sch.words, Enciphered(sch, c, pass))
  }

  function ToCipherSeed(sch: Scheme, mnemonic: seq<string>, pass: Bytes): Result<CipherSeed>
    requires |mnemonic| == NUM_WORDS
  {
    match DecipheredMnemonic(sch, mnemonic, pass)
    case Failure(e) => Failure(e)
    case Success((plain, salt)) =>
      DecipheredSalt(sch, mnemonic, pass);
      Decode(plain, salt)
  }

  lemma DecipheredSalt(sch: Scheme, mnemonic: seq<string>, pass: Bytes)
    requires |mnemonic| == NUM_WORDS
    ensures DecipheredMnemonic(sch, mnemonic, pass).Success? ==> |DecipheredMnemonic(sch, mnemonic, pass).value.1| == 5
  {
    TextLength(sch.words, mnemonic);
  }

  function ChangePass(sch: Scheme, mnemonic: seq<string>, oldPass: Bytes, newPass: Bytes): Result<seq<string>>
    requires |mnemonic| == NUM_WORDS && |sch.words| == 2048
  {
    match ToCipherSeed(sch, mnemonic, oldPass)
    case Failure(e) => Failure(e)
    case Success(c) => Success(ToMnemonic(sch, c, newPass))
  }

  // ----- round trips -----

  /** What encipher puts into a container, decipher takes out again. */
  lemma DecipherEncipher(sch: Scheme, c: CipherSeed, pass: Bytes)
    requires sch.Valid()
    ensures |Enciphered(sch, c, pass)| == ENCIPHERED_SIZE
    ensures Deciphered(sch, Enciphered(sch, c, pass), Passphrase(pass)) == Success((Encode(c), c.salt))
  {
    hide Crc, Uint32, PutUint32, Encode;
    var body, data := Body(sch, c, pass), Enciphered(sch, c, pass);
    assert |body| == CHECKSUM_OFFSET;
    assert data[..CHECKSUM_OFFSET] == body && data[CHECKSUM_OFFSET..] == PutUint32(Crc(body));
    Uint32Put(Crc(body));
    assert data[SALT_OFFSET..CHECKSUM_OFFSET] == c.salt;
    assert ExtractAD(data) == EncodeAD(CIPHER_SEED_VERSION, c.salt);
    assert data[1..SALT_OFFSET]
        == sch.encrypt(sch.key(Passphrase(pass), c.salt), EncodeAD(CIPHER_SEED_VERSION, c.salt), Encode(c));
  }

  lemma AllKnown(words: seq<string>, mnemonic: seq<string>)
    requires forall w | w in mnemonic :: w in words
    ensures FirstUnknown(words, mnemonic) == |mnemonic|
  {
    assert forall k | 0 <= k < |mnemonic| :: mnemonic[k] in mnemonic;
  }

  /** A mnemonic gives back the seed it was made from, under the same passphrase or the same default. */
  lemma SeedRoundTrip(sch: Scheme, c: CipherSeed, pass: Bytes, pass': Bytes)
    requires sch.Valid() && Passphrase(pass) == Passphrase(pass')
    ensures |ToMnemonic(sch, c, pass)| == NUM_WORDS
    ensures ToCipherSeed(sch, ToMnemonic(sch, c, pass), pass') == Success(c)
  {
    hide Deciphered, Enciphered, Encode, Decode, TextOf, WordsOf;
    DecipherEncipher(sch, c, pass);
    TextOfWords(sch.words, Enciphered(sch, c, pass));
    AllKnown(sch.words, ToMnemonic(sch, c, pass));
    DecodeEncode(c);
  }

  /** Changing the passphrase succeeds exactly when the old one opens the mnemonic, and keeps every field of the seed;
      otherwise it reports the same error. */
  lemma ChangePassKeepsSeed(sch: Scheme, mnemonic: seq<string>, oldPass: Bytes, newPass: Bytes)
    requires sch.Valid() && |mnemonic| == NUM_WORDS
    ensures match ToCipherSeed(sch, mnemonic, oldPass)
            case Failure(e) => ChangePass(sch, mnemonic, oldPass, newPass) == Failure(e)
            case Success(c) =>
              && ChangePass(sch, mnemonic, oldPass, newPass).Success?
              && |ChangePass(sch, mnemonic, oldPass, newPass).value| == NUM_WORDS
              && ToCipherSeed(sch, ChangePass(sch, mnemonic, oldPass, newPass).value, newPass) == Success(c)
  {
    hide ToMnemonic, DecipheredMnemonic;
    match ToCipherSeed(sch, mnemonic, oldPass)
    case Failure(e) =>
    case Success(c) => SeedRoundTrip(sch, c, newPass, newPass);
  }

  /** Changing the passphrase and changing it back gives the same words. */
  lemma ChangePassBack(sch: Scheme, c: CipherSeed, pass: Bytes, other: Bytes)
    requires sch.Valid()
    ensures |ToMnemonic(sch, c, pass)| == NUM_WORDS == |ToMnemonic(sch, c, other)|
    ensures ChangePass(sch, ToMnemonic(sch, c, pass), pass, other) == Success(ToMnemonic(sch, c, other))
    ensures ChangePass(sch, ToMnemonic(sch, c, other), other, pass) == Success(ToMnemonic(sch, c, pass))
  {
    hide ToMnemonic, ToCipherSeed;
    SeedRoundTrip(sch, c, pass, pass);
    SeedRoundTrip(sch, c, other, other);
  }
}
