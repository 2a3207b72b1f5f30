/** The shard tracker object: the sharer and the map of tracked children, updated in place. */
module ShardTracker {
  import opened Options
  import opened ShardState
  import opened Shares

  datatype MPP = MPP(totalAmt: nat, paymentAddr: Share)
  datatype AMP = AMP(rootShare: Share, setID: Share, childIndex: bv32)
  datatype Shard = Shard(child: Child, mpp: MPP, amp: AMP)

  class Tracker {
    const sha: Digest
    const setID: Share
    const paymentAddr: Share
    const totalAmt: nat
    var sharer: SeedSharer
    var shards: map<Pid, Child>

    ghost function State(): State
      reads this
    {
      ShardState.State(sharer, shards)
    }

    constructor (sha: Digest, root: Share, setID: Share, payAddr: Share, totalAmt: nat)
      ensures State() == Start(root)
      ensures this.sha == sha && this.setID == setID && this.paymentAddr == payAddr && this.totalAmt == totalAmt
    {
      this.sha, this.setID, this.paymentAddr, this.totalAmt := sha, setID, payAddr, totalAmt;
      sharer, shards := SeedSharer(root, root), map[];
    }

    /** The records sent with the shard carry the share and index tracked for it. */
    method NewShard(pid: Pid, last: bool, index: Option<bv32>, left: Option<Share>) returns (shard: Option<Shard>)
      modifies this
      ensures State() == Step(sha, old(State()), New(pid, last, index, left))
      ensures shard.Some? <==> Succeeds(old(State()), New(pid, last, index, left))
      ensures shard.Some? ==> pid in shards && shard.value.child == shards[pid]
      ensures shard.Some? ==> ChildDesc(shard.value.amp.rootShare, shard.value.amp.childIndex) == shards[pid].desc
      ensures shard.Some? ==> shard.value.child.preimage
                              == sha(sharer.root + shard.value.amp.rootShare + BE32(shard.value.amp.childIndex))
      ensures shard.Some? ==> shard.value.child.hash == sha(shard.value.child.preimage)
      ensures shard.Some? ==> shard.value.amp.setID == setID && shard.value.mpp == MPP(totalAmt, paymentAddr)
    {
      if index.None? {
        return None;
      }
      var child: Child;
      if last {
        child := sharer.ChildAt(sha, index.value);
        sharer := sharer.Zero();
      } else {
        var halves := sharer.Split(left);
        if halves.None? {
          return None;
        }
        sharer := halves.value.1;
        child := halves.value.0.ChildAt(sha, index.value);
      }
      shards := shards[pid := child];
      DerivedIsGenuine(sha, sharer.root, child.desc);
      return Some(Shard(child, MPP(totalAmt, paymentAddr), AMP(child.desc.share, setID, child.desc.index)));
    }

    method CancelShard(pid: Pid) returns (ok: bool)
      modifies this
      ensures State() == Step(sha, old(State()), Cancel(pid))
      ensures ok <==> pid in old(shards)
    {
      if pid !in shards {
        return false;
      }
      var c := shards[pid];
      shards := shards - {pid};
      sharer := sharer.Merge(c);
      return true;
    }

    /** With the invariant, the hash is the one the receiver will derive from the shard. */
    method GetHash(pid: Pid) returns (hash: Option<Share>)
      ensures hash.Some? <==> pid in shards
      ensures Derived(sha, State()) && hash.Some? ==> hash.value == DeriveChild(sha, sharer.root, shards[pid].desc).hash
      ensures Derived(sha, State()) && hash.Some? ==> hash.value == sha(shards[pid].preimage)
    {
      hide DeriveChild;
      if pid !in shards {
        return None;
      }
      GenuineIsDerived(sha, sharer.root, shards[pid]);
      assert Derived(sha, State()) ==> State().shards[pid] == DeriveChild(sha, sharer.root, shards[pid].desc);
      return Some(shards[pid].hash);
    }
  }
}
