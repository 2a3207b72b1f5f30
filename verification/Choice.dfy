/** Weighted random choice, with the random draws as parameters and exact reals for floating point. */
module Choice {
  import opened Options
  import opened Sets

  type NodeID = seq<bv8>

  datatype NodeScore = NodeScore(nodeID: NodeID, score: real)

  /** Undrawn: the choice still waits for its draw. */
  datatype Outcome = Chosen(index: nat) | NoPositive | Unable | Undrawn

  ghost function Total(w: seq<real>): real {
    if w == [] then 0.0 else Total(w[..|w| - 1]) + w[|w| - 1]
  }

  ghost predicate NonNegative(w: seq<real>) {
    forall i | 0 <= i < |w| :: w[i] >= 0.0
  }

  lemma {:induction false} TotalMonotone(w: seq<real>, i: nat, j: nat)
    requires NonNegative(w) && i <= j <= |w|
    ensures Total(w[..i]) <= Total(w[..j])
    decreases j - i
  {
    if i < j {
      TotalMonotone(w, i, j - 1);
      assert w[..j][..j - 1] == w[..j - 1];
    }
  }

  lemma TotalStep(w: seq<real>, i: nat)
    requires i < |w|
    ensures Total(w[..i + 1]) == Total(w[..i]) + w[i]
  {
    assert w[..i + 1][..i] == w[..i];
  }

  lemma {:induction false} PositiveTotal(w: seq<real>)
    requires NonNegative(w)
    ensures Total(w) >= 0.0
    ensures Total(w) > 0.0 <==> exists i :: 0 <= i < |w| && w[i] > 0.0
  {
    if w != [] {
      var m := |w| - 1;
      PositiveTotal(w[..m]);
      if Total(w[..m]) > 0.0 {
        var i :| 0 <= i < m && w[..m][i] > 0.0;
        assert w[i] > 0.0;
      }
      forall i | 0 <= i < |w| && w[i] > 0.0 ensures Total(w) > 0.0 {
        if i < m {
          assert w[..m][i] > 0.0;
        }
      }
    }
  }

  /** The index that a draw selects: the one whose own interval holds the scaled draw; zero selects the first. */
  ghost predicate Selects(w: seq<real>, draw: real, i: nat) {
    && i < |w|
    && (draw > 0.0 ==> Total(w[..i]) < draw * Total(w) <= Total(w[..i]) + w[i])
    && (draw == 0.0 ==> i == 0)
  }

  lemma ScaledDraw(draw: real, sum: real, r: real)
    requires 0.0 <= draw < 1.0 && sum > 0.0 && r == draw * sum
    ensures 0.0 <= r < sum
    ensures r > 0.0 <==> draw > 0.0
  {
  }

  /** Draws an index with probability proportional to its weight. */
  method WeightedChoice(w: array<real>, draw: Option<real>) returns (choice: Outcome)
    requires NonNegative(w[..]) && (draw.Some? ==> 0.0 <= draw.value < 1.0)
    ensures choice == NoPositive <==> Total(w[..]) <= 0.0
    ensures choice == Undrawn <==> Total(w[..]) > 0.0 && draw.None?
    ensures Total(w[..]) > 0.0 && draw.Some? ==> choice.Chosen? && Selects(w[..], draw.value, choice.index)
  {
    var sum := 0.0;
    for i := 0 to w.Length
      invariant sum == Total(w[..][..i])
    {
      TotalStep(w[..], i);
      sum := sum + w[i];
    }
    assert w[..][..w.Length] == w[..];
    if sum <= 0.0 {
      return NoPositive;
    }
    if draw.None? {
      return Undrawn;
    }
    var r := draw.value * sum;
    ghost var target := r;
    ScaledDraw(draw.value, sum, target);
    for i := 0 to w.Length
      invariant r == target - Total(w[..][..i])
      invariant i > 0 ==> r > 0.0 && draw.value > 0.0
    {
      TotalStep(w[..], i);
      r := r - w[i];
      if r <= 0.0 {
        return Chosen(i);
      }
      TotalMonotone(w[..], 0, i + 1);
    }
    return Unable;
  }

  /** Different draws in (0, 1) select by disjoint intervals, so the selected index is unique. */
  lemma SelectsOne(w: seq<real>, draw: real, i: nat, j: nat)
    requires NonNegative(w) && 0.0 <= draw < 1.0
    ensures Selects(w, draw, i) && Selects(w, draw, j) ==> i == j
  {
    if i < j < |w| {
      TotalMonotone(w, i + 1, j);
      TotalStep(w, i);
    } else if j < i < |w| {
      TotalMonotone(w, j + 1, i);
      TotalStep(w, j);
    }
  }

  /** The selected weight is positive exactly when the draw is not zero or the first weight is positive: a draw of zero
      always takes the first index, whatever its weight. */
  lemma SelectedPositiveExactly(w: seq<real>, draw: real, i: nat)
    requires NonNegative(w) && 0.0 <= draw < 1.0 && Total(w) > 0.0 && Selects(w, draw, i)
    ensures w[i] > 0.0 <==> draw > 0.0 || w[0] > 0.0
  {
    if draw == 0.0 {
      assert i == 0;
    }
  }

  /** A draw of zero selects a node without any weight although another has some. */
  lemma ZeroDrawSelectsWeightless()
    ensures NonNegative([0.0, 1.0]) && Total([0.0, 1.0]) > 0.0
    ensures Selects([0.0, 1.0], 0.0, 0) && [0.0, 1.0][0] == 0.0
  {
    assert [0.0, 1.0][..1] == [0.0];
    assert Total([0.0]) == 0.0;
  }

  // ----- choosing several -----

  ghost function Positive(s: map<NodeID, NodeScore>): set<NodeID> {
    set k | k in s && s[k].score > 0.0
  }

  /** The nodes not chosen yet that still have weight. */
  ghost function Left(ids: seq<NodeID>, scores: seq<real>): set<NodeID> {
    set i | 0 <= i < |ids| && i < |scores| && scores[i] > 0.0 :: ids[i]
  }

  ghost predicate DistinctIds(ids: seq<NodeID>) {
    forall i, j | 0 <= i < j < |ids| :: ids[i] != ids[j]
  }

  /** scores[i] is the score of ids[i] until it is chosen, and zero from then on; only a draw of zero can have chosen a
      node without weight, the first one. */
  ghost predicate Tracks(s: map<NodeID, NodeScore>, ids: seq<NodeID>, scores: seq<real>, chosen: map<NodeID, NodeScore>,
                         zeroDrawn: bool) {
    && |ids| == |scores| && DistinctIds(ids)
    && (forall k | k in s :: k in ids)
    && (forall i | 0 <= i < |ids| :: ids[i] in s && scores[i] == if ids[i] in chosen then 0.0 else s[ids[i]].score)
    && (forall k | k in chosen :: k in s && chosen[k] == s[k])
    && (forall k | k in chosen :: s[k].score > 0.0 || (zeroDrawn && ids != [] && k == ids[0]))
    && (zeroDrawn ==> ids != [] && ids[0] in chosen)
  }

  lemma LeftOver(s: map<NodeID, NodeScore>, ids: seq<NodeID>, scores: seq<real>, chosen: map<NodeID, NodeScore>,
                 zeroDrawn: bool)
    requires Tracks(s, ids, scores, chosen, zeroDrawn)
    ensures Left(ids, scores) == Positive(s) - chosen.Keys
  {
    var left, positive := Left(ids, scores), Positive(s);
    forall k ensures k in left <==> k in positive && k !in chosen {
      if k in positive {
        var i :| 0 <= i < |ids| && ids[i] == k;
        assert scores[i] == if ids[i] in chosen then 0.0 else s[k].score;
      }
    }
  }

  function Min(a: nat, b: nat): nat {
    if a <= b then a else b
  }

  /** The generator's range. */
  ghost predicate InUnit(draws: seq<real>) {
    forall d | 0 <= d < |draws| :: 0.0 <= draws[d] < 1.0
  }

  /** How many of the draws are not zero. */
  ghost function NonZero(draws: seq<real>): (n: nat)
    ensures n <= |draws|
  {
    if draws == [] then 0
    else NonZero(draws[..|draws| - 1]) + if draws[|draws| - 1] > 0.0 then 1 else 0
  }

  method CopyScores(s: map<NodeID, NodeScore>) returns (ids: seq<NodeID>, scores: array<real>)
    ensures fresh(scores) && scores.Length == |s|
    ensures Tracks(s, ids, scores[..], map[], false)
  {
    scores := new real[|s|];
    ids := [];
    var left := s.Keys;
    var i := 0;
    while left != {}
      invariant left <= s.Keys && i + |left| == |s| && |ids| == i
      invariant DistinctIds(ids) && forall k | k in s :: k in left <==> k !in ids
      invariant forall j | 0 <= j < i :: ids[j] in s && scores[j] == s[ids[j]].score
    {
      var k :| k in left;
      scores[i] := s[k].score;
      ids := ids + [k];
      left := left - {k};
      i := i + 1;
    }
  }

  /** What the loop has achieved with the draws used so far: every draw that is not zero has added a node with weight, and
      all draws of zero together at most the first node. */
  ghost predicate Progress(s: map<NodeID, NodeScore>, chosen: map<NodeID, NodeScore>, draws: seq<real>) {
    && NonZero(draws) <= |chosen.Keys * Positive(s)| <= |chosen|
    && |chosen| <= NonZero(draws) + (if NonZero(draws) < |draws| then 1 else 0)
  }

  /** Picks nodes one by one, each with its original score object. The draws are the ones that the generator yields, zero
      included; finished tells whether the loop has ended with them. If none of those used is zero, it ends with the smaller
      of n and the number of positive scores, all positive. Draws of zero add at most the first node, weight or not; it ends
      in any case once enough draws are not zero, but never while all of them are and two nodes are called for. */
  method ChooseN(n: nat, s: map<NodeID, NodeScore>, draws: seq<real>)
    returns (chosen: map<NodeID, NodeScore>, used: nat, finished: bool, ghost order: seq<NodeID>)
    requires forall k | k in s :: s[k].score >= 0.0
    requires InUnit(draws)
    ensures used <= |draws| && |chosen| <= n
    ensures forall k | k in chosen :: k in s && chosen[k] == s[k]
    ensures forall k | k in chosen :: s[k].score > 0.0 || (NonZero(draws[..used]) < used && order != [] && k == order[0])
    ensures Progress(s, chosen, draws[..used])
    ensures finished ==> |chosen| == n || Positive(s) <= chosen.Keys
    ensures Positive(s) == {} ==> chosen == map[] && finished
    ensures finished && NonZero(draws[..used]) == used ==> |chosen| == Min(n, |Positive(s)|)
    ensures !finished ==> used == |draws| && |chosen| < n && !(Positive(s) <= chosen.Keys)
    ensures NonZero(draws) >= Min(n, |Positive(s)|) ==> finished
    ensures NonZero(draws) == 0 && Min(n, |Positive(s)|) >= 2 ==> !finished
  {
    hide Total, Positive, Selects, Progress, NonZero, Tracks;
    var rem := |s|;
    var ids, scores := CopyScores(s);
    order, chosen, used, finished := ids, map[], 0, false;
    NoProgress(s, draws);
    while |chosen| < n && rem > 0 && !finished
      invariant rem == |s| && used <= |draws| && |chosen| <= n
      invariant |scores[..]| == |ids| == |s|
      invariant Tracks(s, ids, scores[..], chosen, NonZero(draws[..used]) < used)
      invariant Progress(s, chosen, draws[..used])
      invariant finished ==> Positive(s) <= chosen.Keys
      invariant Positive(s) == {} ==> chosen == map[]
      decreases |draws| - used, !finished
    {
      ghost var before, taken, zero := scores[..], chosen, NonZero(draws[..used]) < used;
      TrackedNonNegative(s, ids, before, chosen, zero);
      NobodyLeft(s, ids, before, chosen, zero);
      var choice := WeightedChoice(scores, if used < |draws| then Some(draws[used]) else None);
      if choice == Undrawn {
        Summary(n, s, chosen, draws, used, finished);
        SomeTracked(s, ids, scores[..], chosen, NonZero(draws[..used]) < used);
        return;
      }
      if choice == NoPositive {
        finished := true;
      } else {
        SelectedIndex(before, draws[used], choice.index);
        chosen := chosen[ids[choice.index] := s[ids[choice.index]]];
        scores[choice.index] := 0.0;
        used := used + 1;
        PickTracked(s, ids, before, taken, draws, used - 1, choice.index);
        assert scores[..] == before[choice.index := 0.0];
      }
    }
    NothingPositive(s, chosen);
    finished := true;
    Summary(n, s, chosen, draws, used, finished);
    SomeTracked(s, ids, scores[..], chosen, NonZero(draws[..used]) < used);
  }

  lemma NoProgress(s: map<NodeID, NodeScore>, draws: seq<real>)
    ensures NonZero(draws[..0]) == 0
    ensures Progress(s, map[], draws[..0])
  {
    var none: map<NodeID, NodeScore> := map[];
    assert none.Keys * Positive(s) == {};
  }

  lemma NothingPositive(s: map<NodeID, NodeScore>, chosen: map<NodeID, NodeScore>)
    ensures |s| == 0 ==> Positive(s) <= chosen.Keys
  {
    if |s| == 0 {
      assert Positive(s) == {};
    }
  }

  lemma TrackedNonNegative(s: map<NodeID, NodeScore>, ids: seq<NodeID>, scores: seq<real>, chosen: map<NodeID, NodeScore>,
                           zero: bool)
    requires Tracks(s, ids, scores, chosen, zero) && forall k | k in s :: s[k].score >= 0.0
    ensures NonNegative(scores)
    ensures forall i | 0 <= i < |ids| :: ids[i] in s
  {
  }

  lemma SomeTracked(s: map<NodeID, NodeScore>, ids: seq<NodeID>, scores: seq<real>, chosen: map<NodeID, NodeScore>,
                    zero: bool)
    requires Tracks(s, ids, scores, chosen, zero)
    ensures forall k | k in chosen :: k in s && chosen[k] == s[k]
    ensures forall k | k in chosen :: s[k].score > 0.0 || (zero && ids != [] && k == ids[0])
  {
  }

  lemma NobodyLeft(s: map<NodeID, NodeScore>, ids: seq<NodeID>, scores: seq<real>, chosen: map<NodeID, NodeScore>,
                   zero: bool)
    requires Tracks(s, ids, scores, chosen, zero) && NonNegative(scores)
    ensures Total(scores) <= 0.0 <==> Positive(s) <= chosen.Keys
  {
    hide Positive;
    PositiveTotal(scores);
    LeftOver(s, ids, scores, chosen, zero);
    var positive := Positive(s);
    assert Left(ids, scores) == {} <==> positive <= chosen.Keys by {
      assert positive <= chosen.Keys + (positive - chosen.Keys);
    }
    if i :| 0 <= i < |scores| && scores[i] > 0.0 {
      assert ids[i] in Left(ids, scores);
    } else {
      assert Left(ids, scores) == {};
    }
  }

  lemma SelectedIndex(w: seq<real>, draw: real, i: nat)
    requires NonNegative(w) && 0.0 <= draw < 1.0 && Total(w) > 0.0 && Selects(w, draw, i)
    ensures i < |w|
    ensures draw > 0.0 ==> w[i] > 0.0
    ensures draw == 0.0 ==> i == 0
  {
    SelectedPositiveExactly(w, draw, i);
  }

  lemma PickTracked(s: map<NodeID, NodeScore>, ids: seq<NodeID>, scores: seq<real>, chosen: map<NodeID, NodeScore>,
                    draws: seq<real>, d: nat, i: nat)
    requires d < |draws| && i < |ids| && draws[d] >= 0.0
    requires Tracks(s, ids, scores, chosen, NonZero(draws[..d]) < d) && Progress(s, chosen, draws[..d])
    requires draws[d] > 0.0 ==> scores[i] > 0.0
    requires draws[d] == 0.0 ==> i == 0
    ensures ids[i] in s
    ensures Tracks(s, ids, scores[i := 0.0], chosen[ids[i] := s[ids[i]]], NonZero(draws[..d + 1]) < d + 1)
    ensures Progress(s, chosen[ids[i] := s[ids[i]]], draws[..d + 1])
    ensures |chosen[ids[i] := s[ids[i]]]| <= |chosen| + 1
  {
    hide Positive, NonZero;
    NonZeroStep(draws, d);
    PickScores(s, ids, scores, chosen, NonZero(draws[..d]) < d, draws[d], i);
    PickProgress(s, chosen, ids[i]);
  }

  lemma NonZeroStep(draws: seq<real>, d: nat)
    requires d < |draws|
    ensures NonZero(draws[..d + 1]) == NonZero(draws[..d]) + if draws[d] > 0.0 then 1 else 0
  {
    assert draws[..d + 1][..d] == draws[..d];
  }

  lemma PickScores(s: map<NodeID, NodeScore>, ids: seq<NodeID>, scores: seq<real>, chosen: map<NodeID, NodeScore>,
                   zero: bool, draw: real, i: nat)
    requires Tracks(s, ids, scores, chosen, zero) && i < |ids| && draw >= 0.0
    requires draw > 0.0 ==> scores[i] > 0.0
    requires draw == 0.0 ==> i == 0
    ensures ids[i] in s && (draw > 0.0 ==> ids[i] !in chosen && ids[i] in Positive(s))
    ensures zero && draw == 0.0 ==> ids[i] in chosen
    ensures Tracks(s, ids, scores[i := 0.0], chosen[ids[i] := s[ids[i]]], zero || draw == 0.0)
  {
    var next, after := chosen[ids[i] := s[ids[i]]], scores[i := 0.0];
    forall j | 0 <= j < |ids| ensures after[j] == if ids[j] in next then 0.0 else s[ids[j]].score {
      assert ids[j] == ids[i] <==> j == i;
    }
  }

  lemma PickProgress(s: map<NodeID, NodeScore>, chosen: map<NodeID, NodeScore>, k: NodeID)
    requires k in s
    ensures var next := chosen[k := s[k]];
            && |next| == |chosen| + (if k in chosen then 0 else 1)
            && |next.Keys * Positive(s)| == |chosen.Keys * Positive(s)| + (if k in Positive(s) && k !in chosen then 1 else 0)
            && |next.Keys * Positive(s)| <= |next|
  {
    hide Positive;
    assert chosen[k := s[k]].Keys == chosen.Keys + {k};
    AddOne(chosen.Keys, Positive(s), k);
  }

  /** What the counts mean once the loop has stopped. */
  lemma Summary(n: nat, s: map<NodeID, NodeScore>, chosen: map<NodeID, NodeScore>, draws: seq<real>, used: nat,
                finished: bool)
    requires used <= |draws| && |chosen| <= n && Progress(s, chosen, draws[..used])
    requires if finished then |chosen| == n || Positive(s) <= chosen.Keys
             else used == |draws| && |chosen| < n && !(Positive(s) <= chosen.Keys)
    ensures finished && NonZero(draws[..used]) == used ==> |chosen| == Min(n, |Positive(s)|)
    ensures NonZero(draws) >= Min(n, |Positive(s)|) ==> finished
    ensures NonZero(draws) == 0 && Min(n, |Positive(s)|) >= 2 ==> !finished
  {
    hide Positive, NonZero;
    PartSize(chosen.Keys, Positive(s));
    NonZeroPrefix(draws, used);
    assert used == |draws| ==> draws[..used] == draws;
  }

  lemma {:induction false} NonZeroPrefix(draws: seq<real>, d: nat)
    requires d <= |draws|
    ensures NonZero(draws[..d]) <= NonZero(draws)
    decreases |draws| - d
  {
    if d < |draws| {
      NonZeroStep(draws, d);
      NonZeroPrefix(draws, d + 1);
    } else {
      assert draws[..d] == draws;
    }
  }
}
