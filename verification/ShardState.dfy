/** The steps of the AMP shard tracker: whatever is split, cancelled and split again, the shares out and the share left make up the
    root. */
module ShardState {
  import opened Options
  import opened Shares

  type Pid = nat

  datatype State = State(sharer: SeedSharer, shards: map<Pid, Child>)

  /** The index and the left share are drawn at random, and a draw may fail. */
  datatype Event =
    | New(pid: Pid, last: bool, index: Option<bv32>, left: Option<Share>)
    | Cancel(pid: Pid)

  // ----- the operations -----

  predicate Succeeds(s: State, e: Event) {
    match e
    case New(pid, last, index, left) => index.Some? && (last || s.sharer.Split(left).Some?)
    case Cancel(pid) => pid in s.shards
  }

  /** An operation that fails changes nothing. */
  function Step(sha: Digest, s: State, e: Event): State {
    if !Succeeds(s, e) then s
    else match e
      case New(pid, last, index, left) =>
        if last then
          State(s.sharer.Zero(), s.shards[pid := s.sharer.ChildAt(sha, index.value)])
        else
          var (l, r) := s.sharer.Split(left).value;
          State(r, s.shards[pid := l.ChildAt(sha, index.value)])
      case Cancel(pid) => State(s.sharer.Merge(s.shards[pid]), s.shards - {pid})
  }

  // ----- the XOR of the shares that are out -----

  ghost function Outstanding(shards: map<Pid, Child>): Share {
    if shards == map[] then ZERO
    else
      var pid :| pid in shards;
      Xored(shards[pid].desc.share, Outstanding(shards - {pid}))
  }

  /** It does not matter which shard is taken first. */
  lemma {:induction false} TakeOut(shards: map<Pid, Child>, pid: Pid)
    requires pid in shards
    ensures Outstanding(shards) == Xored(shards[pid].desc.share, Outstanding(shards - {pid}))
    decreases |shards|
  {
    hide Xored;
    var first :| first in shards && Outstanding(shards) == Xored(shards[first].desc.share, Outstanding(shards - {first}));
    if first != pid {
      var a, b, rest := shards[pid].desc.share, shards[first].desc.share, Outstanding(shards - {pid} - {first});
      TakeOut(shards - {first}, pid);
      TakeOut(shards - {pid}, first);
      assert shards - {first} - {pid} == shards - {pid} - {first};
      assert Outstanding(shards - {first}) == Xored(a, rest);
      assert Outstanding(shards - {pid}) == Xored(b, rest);
      XorAssociates(b, a, rest);
      XorAssociates(a, b, rest);
      XorCommutes(a, b);
    }
  }

  lemma PutIn(shards: map<Pid, Child>, pid: Pid, child: Child)
    ensures Outstanding(shards[pid := child]) == Xored(child.desc.share, Outstanding(shards - {pid}))
  {
    TakeOut(shards[pid := child], pid);
    assert shards[pid := child] - {pid} == shards - {pid};
  }

  // ----- conservation -----

  ghost predicate Conserved(s: State) {
    Xored(s.sharer.curr, Outstanding(s.shards)) == s.sharer.root
  }

  ghost predicate Derived(sha: Digest, s: State) {
    forall pid | pid in s.shards :: s.shards[pid] == DeriveChild(sha, s.sharer.root, s.shards[pid].desc)
  }

  ghost predicate Inv(sha: Digest, s: State) {
    Conserved(s) && Derived(sha, s)
  }

  /** The id is not tracked already; reusing one loses the share it stands for, unless that share is zero. */
  ghost predicate LosesNothing(s: State, e: Event) {
    e.New? && Succeeds(s, e) ==> e.pid !in s.shards || s.shards[e.pid].desc.share == ZERO
  }

  /** A share moves from one side to the other. */
  lemma Move(curr: Share, out: Share, share: Share)
    ensures Xored(Xored(curr, share), Xored(share, out)) == Xored(curr, out)
  {
    hide Xored;
    XorAssociates(Xored(curr, share), share, out);
    XorCancels(curr, share);
  }

  /** A new shard takes its share from the current one. */
  lemma NewMoves(sha: Digest, s: State, e: Event)
    requires e.New? && Succeeds(s, e)
    ensures var t := Step(sha, s, e);
            Xored(t.sharer.curr, Outstanding(t.shards)) == Xored(s.sharer.curr, Outstanding(s.shards - {e.pid}))
  {
    hide Xored;
    var t, out := Step(sha, s, e), Outstanding(s.shards - {e.pid});
    if e.last {
      PutIn(s.shards, e.pid, s.sharer.ChildAt(sha, e.index.value));
      XorZero(Xored(s.sharer.curr, out), ZERO);
    } else {
      var share := e.left.value;
      PutIn(s.shards, e.pid, DeriveChild(sha, s.sharer.root, ChildDesc(share, e.index.value)));
      Move(s.sharer.curr, out, share);
    }
  }

  /** From any conserving state, a new shard keeps the shares making up the root exactly when it loses nothing. */
  lemma NewConservesExactly(sha: Digest, s: State, e: Event)
    requires Conserved(s) && e.New?
    ensures Conserved(Step(sha, s, e)) <==> LosesNothing(s, e)
  {
    hide Xored, Step, Outstanding;
    StepKeepsRoot(sha, s, e);
    if Succeeds(s, e) {
      var out := Outstanding(s.shards - {e.pid});
      NewMoves(sha, s, e);
      if e.pid in s.shards {
        var lost := s.shards[e.pid].desc.share;
        TakeOut(s.shards, e.pid);
        XorAssociates(s.sharer.curr, out, lost);
        XorCommutes(out, lost);
        XorZero(Xored(s.sharer.curr, out), lost);
      } else {
        assert s.shards - {e.pid} == s.shards;
      }
    }
  }

  lemma StepKeepsRoot(sha: Digest, s: State, e: Event)
    ensures Step(sha, s, e).sharer.root == s.sharer.root
    ensures !Succeeds(s, e) ==> Step(sha, s, e) == s
  {
  }

  lemma CancelConserves(sha: Digest, s: State, e: Event)
    requires Conserved(s) && e.Cancel?
    ensures Conserved(Step(sha, s, e))
  {
    hide Xored;
    if Succeeds(s, e) {
      TakeOut(s.shards, e.pid);
      XorAssociates(s.sharer.curr, s.shards[e.pid].desc.share, Outstanding(s.shards - {e.pid}));
    }
  }

  lemma StepInv(sha: Digest, s: State, e: Event)
    requires Inv(sha, s) && LosesNothing(s, e)
    ensures Inv(sha, Step(sha, s, e)) && Step(sha, s, e).sharer.root == s.sharer.root
  {
    if e.New? {
      NewConservesExactly(sha, s, e);
    } else {
      CancelConserves(sha, s, e);
    }
  }

  /** Cancelling a shard just made, the last one too, gives the tracker back as it was: it can be split again. */
  lemma CancelUndoesNew(sha: Digest, s: State, e: Event)
    requires e.New? && Succeeds(s, e) && e.pid !in s.shards
    ensures Step(sha, Step(sha, s, e), Cancel(e.pid)) == s
  {
    hide Xored, Seed;
    SplitMerges(s.sharer, e.left, sha, e.index.value);
    var t := Step(sha, s, e);
    assert t.shards - {e.pid} == s.shards;
  }

  /** A new shard is made exactly if its index could be drawn and, unless it is the last one, the current share is not
      zero and a left share could be drawn. It gets the whole current share or the one drawn; the rest stays. */
  lemma NewEffect(sha: Digest, s: State, pid: Pid, last: bool, index: Option<bv32>, left: Option<Share>)
    ensures var t := Step(sha, s, New(pid, last, index, left));
            if index.Some? && (last || (s.sharer.curr != ZERO && left.Some?)) then
              && pid in t.shards && t.shards == s.shards[pid := t.shards[pid]]
              && t.shards[pid].desc == ChildDesc(if last then s.sharer.curr else left.value, index.value)
              && Genuine(sha, s.sharer.root, t.shards[pid])
              && t.sharer.root == s.sharer.root
              && t.sharer.curr == if last then ZERO else Xored(s.sharer.curr, left.value)
            else t == s
    ensures Succeeds(s, New(pid, last, index, left))
            <==> index.Some? && (last || (s.sharer.curr != ZERO && left.Some?))
  {
    hide DeriveChild, Genuine;
    if index.Some? {
      DerivedIsGenuine(sha, s.sharer.root, ChildDesc(s.sharer.curr, index.value));
      if left.Some? {
        DerivedIsGenuine(sha, s.sharer.root, ChildDesc(left.value, index.value));
      }
    }
  }

  /** A tracked shard is given up, and its share goes back into the current one. */
  lemma CancelEffect(sha: Digest, s: State, pid: Pid)
    ensures var t := Step(sha, s, Cancel(pid));
            if pid in s.shards then
              && t.shards == s.shards - {pid}
              && t.sharer.root == s.sharer.root && t.sharer.curr == Xored(s.sharer.curr, s.shards[pid].desc.share)
            else t == s
    ensures Succeeds(s, Cancel(pid)) <==> pid in s.shards
  {
  }

  // ----- runs -----

  function Start(root: Share): State {
    State(SeedSharer(root, root), map[])
  }

  function After(sha: Digest, s: State, events: seq<Event>): State
    decreases |events|
  {
    if events == [] then s else After(sha, Step(sha, s, events[0]), events[1..])
  }

  /** Every new shard has an id that is not tracked at that time. */
  ghost predicate FreshIds(sha: Digest, s: State, events: seq<Event>)
    decreases |events|
  {
    events == [] || ((events[0].New? ==> events[0].pid !in s.shards) && FreshIds(sha, Step(sha, s, events[0]), events[1..]))
  }

  lemma {:induction false} RunInv(sha: Digest, s: State, events: seq<Event>)
    requires Inv(sha, s) && FreshIds(sha, s, events)
    ensures Inv(sha, After(sha, s, events)) && After(sha, s, events).sharer.root == s.sharer.root
    decreases |events|
  {
    hide Inv, Step;
    if events != [] {
      StepInv(sha, s, events[0]);
      RunInv(sha, Step(sha, s, events[0]), events[1..]);
    }
  }

  /** Whatever the draws, failed ones included: the current share and the shares out make up the root. */
  lemma EveryRunConserves(sha: Digest, root: Share, events: seq<Event>)
    requires FreshIds(sha, Start(root), events)
    ensures var s := After(sha, Start(root), events);
            s.sharer.root == root && Xored(s.sharer.curr, Outstanding(s.shards)) == root && Derived(sha, s)
  {
    XorZero(root, ZERO);
    RunInv(sha, Start(root), events);
  }

  /** In every run, fresh ids or not, every tracked child has the preimage and the hash that belong to the root. */
  lemma {:induction false} EveryRunTracksGenuine(sha: Digest, root: Share, s: State, events: seq<Event>)
    requires s.sharer.root == root && forall pid | pid in s.shards :: Genuine(sha, root, s.shards[pid])
    ensures var t := After(sha, s, events);
            t.sharer.root == root && forall pid | pid in t.shards :: Genuine(sha, root, t.shards[pid])
    decreases |events|
  {
    hide Step, Genuine;
    if events != [] {
      match events[0] {
        case New(pid, last, index, left) => NewEffect(sha, s, pid, last, index, left);
        case Cancel(pid) => CancelEffect(sha, s, pid);
      }
      EveryRunTracksGenuine(sha, root, Step(sha, s, events[0]), events[1..]);
    }
  }

  // ----- the receiver -----

  /** An order in which the shards reach the receiver. */
  ghost predicate Lists(order: seq<Pid>, shards: map<Pid, Child>) {
    && (forall pid :: pid in order <==> pid in shards)
    && (forall i, j | 0 <= i < j < |order| :: order[i] != order[j])
  }

  ghost function Descs(order: seq<Pid>, shards: map<Pid, Child>): (descs: seq<ChildDesc>)
    requires forall pid | pid in order :: pid in shards
    ensures |descs| == |order| && forall i | 0 <= i < |order| :: descs[i] == shards[order[i]].desc
  {
    seq(|order|, i requires 0 <= i < |order| => assert order[i] in order; shards[order[i]].desc)
  }

  lemma {:induction false} ReceivedIsOutstanding(order: seq<Pid>, shards: map<Pid, Child>)
    requires Lists(order, shards)
    ensures XorOf(Descs(order, shards)) == Outstanding(shards)
    decreases |order|
  {
    hide Xored, Lists;
    if order == [] {
      NothingListed(shards);
    } else {
      var n := |order| - 1;
      var pid, init, rest := order[n], order[..n], shards - {order[n]};
      LastListed(order, shards);
      ReceivedIsOutstanding(init, rest);
      TakeOut(shards, pid);
      XorCommutes(shards[pid].desc.share, Outstanding(rest));
    }
  }

  lemma NothingListed(shards: map<Pid, Child>)
    requires Lists([], shards)
    ensures shards == map[]
  {
    assert forall pid: Pid :: pid !in [];
  }

  lemma LastListed(order: seq<Pid>, shards: map<Pid, Child>)
    requires Lists(order, shards) && order != []
    ensures var n := |order| - 1;
            && order[n] in shards && Lists(order[..n], shards - {order[n]})
            && Descs(order, shards)[..n] == Descs(order[..n], shards - {order[n]})
  {
    var n := |order| - 1;
    assert order == order[..n] + [order[n]];
    assert order[n] !in order[..n];
  }

  /** In whatever order the shards arrive, the receiver finds the root exactly when the current share is zero. */
  lemma RootRecoveredExactly(sha: Digest, s: State, order: seq<Pid>)
    requires Inv(sha, s) && Lists(order, s.shards)
    ensures XorOf(Descs(order, s.shards)) == s.sharer.root <==> s.sharer.curr == ZERO
  {
    var out := Outstanding(s.shards);
    ReceivedIsOutstanding(order, s.shards);
    XorCommutes(s.sharer.curr, out);
    XorZero(out, s.sharer.curr);
  }

  /** When the current share is zero the receiver derives the very children the sender tracks; otherwise it hashes other
      bytes than the sender did for every one of them. */
  lemma ChildrenRecovered(sha: Digest, s: State, order: seq<Pid>, i: nat)
    requires Inv(sha, s) && Lists(order, s.shards) && i < |order|
    ensures var descs := Descs(order, s.shards);
            s.sharer.curr == ZERO ==> order[i] in s.shards && DeriveChild(sha, XorOf(descs), descs[i]) == s.shards[order[i]]
    ensures var descs := Descs(order, s.shards);
            Seed(XorOf(descs), descs[i]) == Seed(s.sharer.root, descs[i]) <==> s.sharer.curr == ZERO
  {
    hide Seed, XorOf;
    assert order[i] in order;
    var descs := Descs(order, s.shards);
    RootRecoveredExactly(sha, s, order);
    SeedInjective(XorOf(descs), descs[i], s.sharer.root, descs[i]);
  }

  lemma {:induction false} AfterAppend(sha: Digest, s: State, events: seq<Event>, e: Event)
    ensures After(sha, s, events + [e]) == Step(sha, After(sha, s, events), e)
    ensures FreshIds(sha, s, events + [e]) ==> FreshIds(sha, s, events)
    decreases |events|
  {
    hide Step;
    if events == [] {
      assert events + [e] == [e] && [e][1..] == [];
    } else {
      assert (events + [e])[1..] == events[1..] + [e];
      AfterAppend(sha, Step(sha, s, events[0]), events[1..], e);
    }
  }

  /** However often shards were split off and cancelled before, last ones included: once a last shard is out, the receiver
      of all shards, in any order, has the sender's root and the sender's preimages and hashes. */
  lemma LastShardCompletes(sha: Digest, root: Share, events: seq<Event>, last: Event, order: seq<Pid>)
    requires last.New? && last.last && last.index.Some?
    requires FreshIds(sha, Start(root), events + [last])
    requires Lists(order, After(sha, Start(root), events + [last]).shards)
    ensures var shards := After(sha, Start(root), events + [last]).shards;
            var descs := Descs(order, shards);
            XorOf(descs) == root
            && forall i | 0 <= i < |order| :: DeriveChild(sha, XorOf(descs), descs[i]) == shards[order[i]]
  {
    hide Xored, XorOf, Seed, After;
    var s := After(sha, Start(root), events + [last]);
    AfterAppend(sha, Start(root), events, last);
    assert s.sharer.curr == ZERO;
    assert Inv(sha, s) && s.sharer.root == root by {
      XorZero(root, ZERO);
      RunInv(sha, Start(root), events + [last]);
    }
    RootRecoveredExactly(sha, s, order);
    forall i | 0 <= i < |order|
      ensures order[i] in s.shards
      ensures DeriveChild(sha, XorOf(Descs(order, s.shards)), Descs(order, s.shards)[i]) == s.shards[order[i]]
    {
      ChildrenRecovered(sha, s, order, i);
    }
  }

  /** And so each preimage that the receiver then derives has the digest that was sent as the hash of that shard. */
  lemma RevealedPreimageSettles(sha: Digest, root: Share, events: seq<Event>, last: Event, order: seq<Pid>, i: nat)
    requires last.New? && last.last && last.index.Some?
    requires FreshIds(sha, Start(root), events + [last])
    requires Lists(order, After(sha, Start(root), events + [last]).shards) && i < |order|
    ensures var shards := After(sha, Start(root), events + [last]).shards;
            var descs := Descs(order, shards);
            && order[i] in shards
            && var child := DeriveChild(sha, XorOf(descs), descs[i]);
               sha(child.preimage) == shards[order[i]].hash
               && child.preimage == sha(root + descs[i].share + BE32(descs[i].index))
  {
    hide After, XorOf, FreshIds, DeriveChild, BE32;
    var shards := After(sha, Start(root), events + [last]).shards;
    var descs := Descs(order, shards);
    assert order[i] in order;
    LastShardCompletes(sha, root, events, last, order);
    DerivedIsGenuine(sha, XorOf(descs), descs[i]);
  }
}
