/** Shares of an AMP root seed: byte-wise XOR, splitting and merging, and the children derived from them. */
module Shares {
  import opened Options

  type Bytes = seq<bv8>
  type Share = s: Bytes | |s| == 32 witness seq(32, _ => 0)
  const ZERO: Share := Filled(0)

  function Filled(b: bv8): Share {
    seq(32, _ => b)
  }

  /** SHA-256, or any other function with 32-byte results. */
  type Digest = Bytes -> Share

  datatype ChildDesc = ChildDesc(share: Share, index: bv32)
  datatype Child = Child(desc: ChildDesc, preimage: Share, hash: Share)

  // ----- XOR -----

  function Xored(x: Share, y: Share): Share {
    seq(32, i requires 0 <= i < 32 => x[i] ^ y[i])
  }

  lemma XorCancels(x: Share, y: Share)
    ensures Xored(Xored(x, y), y) == x && Xored(x, Xored(x, y)) == y
  {
  }

  lemma XorCommutes(x: Share, y: Share)
    ensures Xored(x, y) == Xored(y, x)
  {
  }

  lemma XorAssociates(x: Share, y: Share, z: Share)
    ensures Xored(Xored(x, y), z) == Xored(x, Xored(y, z))
  {
  }

  lemma XorZero(x: Share, y: Share)
    ensures Xored(x, ZERO) == Xored(ZERO, x) == x
    ensures Xored(x, y) == x <==> y == ZERO
  {
    if Xored(x, y) == x {
      XorCancels(x, y);
      assert forall i | 0 <= i < 32 :: x[i] ^ x[i] == 0;
    }
  }

  /** Stores the XOR of x and y in z, which may be one of them. */
  method Xor(z: array<bv8>, x: array<bv8>, y: array<bv8>)
    requires z.Length == x.Length == y.Length == 32
    modifies z
    ensures z[..] == Xored(old(x[..]), old(y[..]))
  {
    for i := 0 to 32
      invariant forall k | i <= k < 32 :: x[k] == old(x[k]) && y[k] == old(y[k])
      invariant forall k | 0 <= k < i :: z[k] == old(x[k]) ^ old(y[k])
    {
      z[i] := x[i] ^ y[i];
    }
  }

  // ----- derivation -----

  function BE32(n: bv32): Bytes {
    [(n >> 24) as bv8, ((n >> 16) & 0xff) as bv8, ((n >> 8) & 0xff) as bv8, (n & 0xff) as bv8]
  }

  function FromBE32(b: Bytes): bv32
    requires |b| == 4
  {
    (b[0] as bv32 << 24) | (b[1] as bv32 << 16) | (b[2] as bv32 << 8) | b[3] as bv32
  }

  lemma BE32RoundTrip(n: bv32)
    ensures FromBE32(BE32(n)) == n
  {
  }

  /** What is hashed to get the preimage of a child. */
  function Seed(root: Share, desc: ChildDesc): Bytes {
    root + desc.share + BE32(desc.index)
  }

  function DeriveChild(sha: Digest, root: Share, desc: ChildDesc): Child {
    var preimage := sha(Seed(root, desc));
    Child(desc, preimage, sha(preimage))
  }

  /** The most significant byte comes first. */
  lemma BE32BigEndian(n: bv32)
    ensures |BE32(n)| == 4
    ensures ((BE32(n)[0] as bv32) << 24) | ((BE32(n)[1] as bv32) << 16) | ((BE32(n)[2] as bv32) << 8) | (BE32(n)[3] as bv32)
            == n
  {
  }

  /** The child belongs to the root: its preimage is the digest of root, share and index, and its hash is the digest of its
      preimage, so that whoever reveals the preimage can settle what was sent with the hash. */
  ghost predicate Genuine(sha: Digest, root: Share, child: Child) {
    && child.preimage == sha(root + child.desc.share + BE32(child.desc.index))
    && child.hash == sha(child.preimage)
  }

  lemma DerivedIsGenuine(sha: Digest, root: Share, desc: ChildDesc)
    ensures DeriveChild(sha, root, desc).desc == desc
    ensures Genuine(sha, root, DeriveChild(sha, root, desc))
  {
    assert root + desc.share + BE32(desc.index) == Seed(root, desc);
  }

  /** And it is the only child of the root with that share and index. */
  lemma GenuineIsDerived(sha: Digest, root: Share, child: Child)
    ensures Genuine(sha, root, child) <==> child == DeriveChild(sha, root, child.desc)
  {
    DerivedIsGenuine(sha, root, child.desc);
  }

  /** Different roots, shares or indices never hash the same bytes. */
  lemma SeedInjective(r: Share, d: ChildDesc, s: Share, e: ChildDesc)
    ensures Seed(r, d) == Seed(s, e) <==> r == s && d == e
  {
    hide BE32, FromBE32;
    if Seed(r, d) == Seed(s, e) {
      assert r == Seed(r, d)[..32] && s == Seed(s, e)[..32];
      assert d.share == Seed(r, d)[32..64] && e.share == Seed(s, e)[32..64];
      assert BE32(d.index) == Seed(r, d)[64..] && BE32(e.index) == Seed(s, e)[64..];
      BE32RoundTrip(d.index);
      BE32RoundTrip(e.index);
    }
  }

  // ----- sharers -----

  /** A node of the tree of shares; every operation makes new nodes. */
  datatype SeedSharer = SeedSharer(root: Share, curr: Share) {

    /** The draw of the left share may fail. */
    function Split(left: Option<Share>): Option<(SeedSharer, SeedSharer)> {
      if curr == ZERO || left.None? then None
      else Some((SeedSharer(root, left.value), SeedSharer(root, Xored(curr, left.value))))
    }

    function Merge(child: Child): SeedSharer {
      SeedSharer(root, Xored(curr, child.desc.share))
    }

    function Zero(): SeedSharer {
      SeedSharer(root, ZERO)
    }

    function ChildAt(sha: Digest, index: bv32): Child {
      DeriveChild(sha, root, ChildDesc(curr, index))
    }
  }

  /** Both halves keep the root and their shares make up the parent's, so that merging a child of the left half into the
      right half, whatever its index, gives the parent back; as does merging a child of the parent into its zero node. */
  lemma SplitMerges(sharer: SeedSharer, left: Option<Share>, sha: Digest, index: bv32)
    ensures sharer.Split(left).None? <==> sharer.curr == ZERO || left.None?
    ensures var halves := sharer.Split(left);
            halves.Some? ==> halves.value.0.root == halves.value.1.root == sharer.root
                             && Xored(halves.value.0.curr, halves.value.1.curr) == sharer.curr
                             && halves.value.1.Merge(halves.value.0.ChildAt(sha, index)) == sharer
    ensures sharer.Zero().Merge(sharer.ChildAt(sha, index)) == sharer
  {
    XorZero(sharer.curr, ZERO);
    if left.Some? {
      XorCommutes(sharer.curr, left.value);
      XorCancels(sharer.curr, left.value);
      XorCancels(left.value, sharer.curr);
    }
  }

  // ----- the receiver -----

  function XorOf(descs: seq<ChildDesc>): Share {
    if descs == [] then ZERO else Xored(XorOf(descs[..|descs| - 1]), descs[|descs| - 1].share)
  }

  method ReconstructChildren(sha: Digest, descs: seq<ChildDesc>) returns (children: seq<Child>)
    ensures |children| == |descs|
    ensures forall i | 0 <= i < |descs| :: children[i] == DeriveChild(sha, XorOf(descs), descs[i])
    ensures forall i | 0 <= i < |descs| :: children[i].desc == descs[i] && Genuine(sha, XorOf(descs), children[i])
  {
    hide XorOf, Seed, DeriveChild, Genuine;
    var root := new bv8[32](_ => 0);
    XorOfNone();
    assert root[..] == ZERO;
    for i := 0 to |descs|
      invariant root[..] == XorOf(descs[..i])
    {
      var share := new bv8[32](k requires 0 <= k < 32 => descs[i].share[k]);
      assert share[..] == descs[i].share;
      XorOfPrefix(descs, i);
      Xor(root, root, share);
    }
    assert descs[..|descs|] == descs;
    children := [];
    for i := 0 to |descs|
      invariant |children| == i
      invariant forall k | 0 <= k < i :: children[k] == DeriveChild(sha, XorOf(descs), descs[k])
    {
      children := children + [DeriveChild(sha, root[..], descs[i])];
    }
    forall i | 0 <= i < |descs| ensures children[i].desc == descs[i] && Genuine(sha, XorOf(descs), children[i]) {
      DerivedIsGenuine(sha, XorOf(descs), descs[i]);
    }
  }

  lemma XorOfNone()
    ensures XorOf([]) == ZERO
  {
  }

  lemma XorOfPrefix(descs: seq<ChildDesc>, i: nat)
    requires i < |descs|
    ensures XorOf(descs[..i + 1]) == Xored(XorOf(descs[..i]), descs[i].share)
  {
    assert descs[..i + 1][..i] == descs[..i];
  }
}
