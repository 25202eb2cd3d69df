/**
  Pods that spread over hostnames: the estimator may put them on nodes already in the cluster and then
  counts those nodes as new ones. For every input where this can happen there is a scheduler under
  which it does, so the condition for a count within the permissions is exact.
 */
module Spreading {
  import opened Wrappers
  import opened Snapshots
  import opened Limiter
  import opened Estimation
  import Estimator

  /** The only node that is ever added under the scheduler below. */
  const ADDED := Simulated(0)

  /** Spreading is satisfied on the added node only once node `x` of the cluster took a pod beyond its first `k`. */
  predicate Unbalanced(c: Cluster, t: NodeInfo, x: NodeName, k: nat) {
    ADDED in c && x in c && |c[ADDED].pods| > |t.pods| && |c[x].pods| <= k
  }

  /** Every pod fits everywhere, except that a spreading one is rejected by an added node while it is unbalanced. */
  function Check(c: Cluster, p: Pod, n: NodeName, t: NodeInfo, x: NodeName, k: nat): Verdict {
    if n == ADDED && p.spec.hostSpread && Unbalanced(c, t, x, k) then Rejected(true) else Fits
  }

  function Pick(c: Cluster, p: Pod, names: set<NodeName>, t: NodeInfo, x: NodeName, k: nat): Choice {
    if ADDED in names && ADDED in c && Check(c, p, ADDED, t, x, k) == Fits then On(ADDED)
    else if x in names && x in c && x != ADDED then On(x)
    else if names <= {ADDED} then Nowhere
    else ChoiceBroken
  }

  /** The scheduler; its clock stands still at the start of the estimation. */
  function Spreader(t: NodeInfo, x: NodeName, k: nat, start: int): World {
    World((c: Cluster, p: Pod, n: NodeName) => Check(c, p, n, t, x, k),
          (c: Cluster, p: Pod, names: set<NodeName>) => Pick(c, p, names, t, x, k),
          (asked: nat) => start)
  }

  lemma SpreaderIsSound(t: NodeInfo, x: NodeName, k: nat, start: int)
    ensures Spreader(t, x, k, start).Sound()
  {
  }

  /** One node was added and carries pods; no other node gained any. */
  ghost predicate Solo(e: Est, t: NodeInfo, x: NodeName, k: nat) {
    && e.newNodes == {ADDED} && e.last == Some(ADDED) && e.withPods == {ADDED} && e.budget.nodes == 1
    && x != ADDED && Unbalanced(e.cluster, t, x, k) && |e.cluster[x].pods| == k
  }

  /** The added node and node `x` of the cluster carry pods of the estimation: two are counted, one was granted. */
  ghost predicate Over(e: Est, x: NodeName, k: nat) {
    && e.newNodes == {ADDED} && e.last == Some(ADDED) && e.withPods == {ADDED, x} && e.budget.nodes == 1
    && x != ADDED && ADDED in e.cluster && x in e.cluster && |e.cluster[x].pods| > k
  }

  /** Where the estimation stands after some pods, given whether one of them spread. */
  ghost predicate Stands(e: Est, t: NodeInfo, x: NodeName, k: nat, over: bool) {
    if over then Over(e, x, k) else Solo(e, t, x, k)
  }

  lemma PlaceStands(e: Est, t: NodeInfo, x: NodeName, k: nat, over: bool, p: Pod)
    requires Stands(e, t, x, k, over)
    ensures ADDED in e.cluster && Stands(Place(e, p, ADDED), t, x, k, over)
  {
  }

  /** One pod tried on the added nodes: it stays there, unless it spreads and the node is unbalanced. */
  lemma ExistingStep(w: World, t: NodeInfo, x: NodeName, k: nat, e: Est, over: bool, p: Pod, start: int)
    requires w == Spreader(t, x, k, start) && Stands(e, t, x, k, over)
    ensures w.pick(e.cluster, p, e.newNodes) == if over || !p.spec.hostSpread then On(ADDED) else Nowhere
  {
  }

  /** The pods tried on the added nodes: those before the first that spreads, or all. */
  lemma {:induction false} ExistingStands(w: World, t: NodeInfo, x: NodeName, k: nat, e: Est, over: bool,
      pods: seq<Pod>, start: int)
    requires w == Spreader(t, x, k, start) && w.Sound() && Stands(e, t, x, k, over)
    ensures var r := OnExisting(w, e, pods);
      && r.Rest? && Stands(r.e, t, x, k, over)
      && (over || !Spreads(pods) ==> r.pods == [])
      && (!over && Spreads(pods) ==> Spreads(r.pods))
    decreases |pods|
  {
    if pods != [] {
      var p := pods[0];
      ExistingStep(w, t, x, k, e, over, p, start);
      SpreadsSplit([p], pods[1..]);
      assert [p] + pods[1..] == pods && [p][0] == p;
      if over || !p.spec.hostSpread {
        PlaceStands(e, t, x, k, over, p);
        ExistingStands(w, t, x, k, Place(e, p, ADDED), over, pods[1..], start);
      }
    }
  }

  /** One pod tried on the last node: a spreading pod that it rejects goes to node `x`. */
  lemma LastStep(w: World, t: NodeInfo, x: NodeName, k: nat, e: Est, over: bool, p: Pod, start: int)
    requires w == Spreader(t, x, k, start) && w.Sound() && Stands(e, t, x, k, over)
    ensures var r := TryLast(w, e, p); r.Placed? && Stands(r.e, t, x, k, over || p.spec.hostSpread)
  {
    PlaceStands(e, t, x, k, over, p);
    if !over && p.spec.hostSpread {
      assert ADDED !in e.cluster.Keys - {ADDED};
      assert TryLast(w, e, p) == Placed(Place(e, p, x));
    }
  }

  lemma {:induction false} NewStands(w: World, t: NodeInfo, x: NodeName, k: nat, e: Est, over: bool, pods: seq<Pod>,
      start: int)
    requires w == Spreader(t, x, k, start) && w.Sound() && Stands(e, t, x, k, over)
    ensures var s := OnNew(w, t, e, pods); s.Step? && s.more && Stands(s.e, t, x, k, over || Spreads(pods))
    decreases |pods|
  {
    if pods != [] {
      var p := pods[0];
      LastStep(w, t, x, k, e, over, p, start);
      SpreadsSplit([p], pods[1..]);
      assert [p] + pods[1..] == pods && [p][0] == p;
      var e1 := TryLast(w, e, p).e;
      NewStands(w, t, x, k, e1, over || p.spec.hostSpread, pods[1..], start);
      assert OnNew(w, t, e, pods) == OnNew(w, t, e1, pods[1..]);
    }
  }

  /** One group after the first pod; the fast path gets nothing to do once two nodes are counted. */
  lemma RoundStands(w: World, t: NodeInfo, x: NodeName, k: nat, e: Est, over: bool, pods: seq<Pod>, fast: bool,
      start: int)
    requires w == Spreader(t, x, k, start) && w.Sound() && Stands(e, t, x, k, over) && (fast ==> over)
    ensures var s := Round(w, t, e, pods, fast, true); s.Step? && s.more && Stands(s.e, t, x, k, over || Spreads(pods))
  {
    ExistingStands(w, t, x, k, e, over, pods, start);
    var r := OnExisting(w, e, pods);
    if !fast {
      NewStands(w, t, x, k, r.e, over, r.pods, start);
      if !over && !Spreads(pods) {
        assert !Spreads(r.pods);
      }
    }
  }

  lemma {:induction false} PackStands(w: World, t: NodeInfo, x: NodeName, k: nat, e: Est, over: bool,
      groups: seq<seq<Pod>>, fast: bool, start: int)
    requires w == Spreader(t, x, k, start) && w.Sound() && Stands(e, t, x, k, over)
    requires over || Spreads(SlowPods(groups, fast))
    ensures var s := Pack(w, t, e, groups, fast, true); s.Step? && Over(s.e, x, k)
    decreases |groups|
  {
    if groups != [] {
      var last := fast && |groups| == 1;
      RoundStands(w, t, x, k, e, over, groups[0], last, start);
      if !last {
        SpreadsSplit(groups[0], SlowPods(groups[1..], fast));
      }
      var s := Round(w, t, e, groups[0], last, true);
      PackStands(w, t, x, k, s.e, over || Spreads(groups[0]), groups[1..], fast, start);
    }
  }

  /** The first pod opens a node. */
  lemma FirstStands(w: World, t: NodeInfo, x: NodeName, c: Cluster, b: Budget, pods: seq<Pod>)
    requires x in c && w == Spreader(t, x, |c[x].pods|, b.start) && w.Sound() && pods != []
    requires b.nodes == 0 && b.maxNodes >= 0 && b.maxDuration >= 0 && forall n :: n in c ==> n.Existing?
    ensures var s := Round(w, t, Start(c, b), pods, false, true);
      s.Step? && s.more && Stands(s.e, t, x, |c[x].pods|, Spreads(pods[1..]))
  {
    var e, p, k := Start(c, b), pods[0], |c[x].pods|;
    assert OnExisting(w, e, pods) == Rest(e, pods);
    var e2 := AddNode(Ask(w, e), t).value;
    assert Granted(w, e) && AddNode(Ask(w, e), t).Some? && Try(w, e2, p, ADDED) == Fits;
    var e3 := Place(e2, p, ADDED);
    assert OnNewNext(w, t, e, p) == Go(e3);
    assert e3.cluster[ADDED].pods == t.pods + [p];
    NewStands(w, t, x, k, e3, false, pods[1..], b.start);
  }

  /** From the start: empty groups change nothing, and a late spreading pod makes two nodes count. */
  lemma {:induction false} StartOver(w: World, t: NodeInfo, x: NodeName, c: Cluster, b: Budget, groups: seq<seq<Pod>>,
      fast: bool)
    requires x in c && w == Spreader(t, x, |c[x].pods|, b.start) && w.Sound()
    requires b.nodes == 0 && b.maxNodes >= 0 && b.maxDuration >= 0 && forall n :: n in c ==> n.Existing?
    requires SpreadsLate(groups, fast)
    ensures var s := Pack(w, t, Start(c, b), groups, fast, true); s.Step? && Over(s.e, x, |c[x].pods|)
    decreases |groups|
  {
    var e, group, rest := Start(c, b), groups[0], SlowPods(groups[1..], fast);
    if group == [] {
      assert group + rest == rest;
      assert Round(w, t, e, group, false, true) == Step(e, true);
      StartOver(w, t, x, c, b, groups[1..], fast);
    } else {
      assert (group + rest)[1..] == group[1..] + rest;
      SpreadsSplit(group[1..], rest);
      FirstStands(w, t, x, c, b, group);
      var s := Round(w, t, e, group, false, true);
      PackStands(w, t, x, |c[x].pods|, s.e, Spreads(group[1..]), groups[1..], fast, b.start);
    }
  }

  /** What the estimate counts: nothing on an error. */
  function Count(s: Step): nat {
    if s.Step? then |s.e.withPods| else 0
  }

  /**
    A pod that spreads late makes some scheduler count two nodes for one permission, whatever else
    there is to pack: it goes to a node already in the cluster, which then counts as a new one.
   */
  lemma SpreadingOvercounts(t: NodeInfo, x: NodeName, c: Cluster, b: Budget, groups: seq<seq<Pod>>, fast: bool)
    requires b.nodes == 0 && x in c && (forall n :: n in c ==> n.Existing?)
    requires b.maxNodes >= 0 && b.maxDuration >= 0 && SpreadsLate(groups, fast)
    ensures var w := Spreader(t, x, |c[x].pods|, b.start);
      w.Sound() && var s := Pack(w, t, Start(c, b), groups, fast, true); Count(s) == 2 && s.e.budget.nodes == 1
  {
    SpreaderIsSound(t, x, |c[x].pods|, b.start);
    StartOver(Spreader(t, x, |c[x].pods|, b.start), t, x, c, b, groups, fast);
  }

  /** Two spreading pods and one empty node of the cluster: two nodes are counted for one permission. */
  lemma TwoPodsOvercount()
    ensures var t, c, b := NodeInfo(1, 0, false, []), map[Existing(0) := NodeInfo(1, 0, false, [])],
        Budget(0, 0, 0, 0, 0);
      var pods := [Pod(1, Spec(1, 0, true, 0)), Pod(2, Spec(1, 0, true, 0))]; var w := Spreader(t, Existing(0), 0, 0);
      w.Sound() && Count(Pack(w, t, Start(c, b), [pods], false, true)) == 2
  {
    var t, c, b := NodeInfo(1, 0, false, []), map[Existing(0) := NodeInfo(1, 0, false, [])], Budget(0, 0, 0, 0, 0);
    var pods := [Pod(1, Spec(1, 0, true, 0)), Pod(2, Spec(1, 0, true, 0))];
    assert SlowPods([pods], false) == pods + SlowPods([pods][1..], false) == pods;
    assert pods[1..][0] == pods[1];
    SpreadingOvercounts(t, Existing(0), c, b, [pods], false);
  }

  /**
    For a limiter that granted nothing yet and a cluster of existing nodes: the count stays within the
    permissions under every scheduler if and only if the cluster is empty, the limiter never grants
    anything, or no pod outside the fast group spreads over hostnames after the first one.
   */
  lemma CountExactlyWhen(t: NodeInfo, c: Cluster, b: Budget, groups: seq<seq<Pod>>, fast: bool)
    requires b.nodes == 0 && forall n :: n in c ==> n.Existing?
    ensures (forall w: World :: w.Sound() ==> WithinPermissions(w, t, c, b, groups, fast))
      <==> Estimator.CannotOvercount(c, b, groups, fast)
  {
    if Estimator.CannotOvercount(c, b, groups, fast) {
      forall w: World | w.Sound() ensures WithinPermissions(w, t, c, b, groups, fast) {
        Estimator.CountWithinPermissions(w, t, c, b, groups, fast);
      }
    } else {
      var x :| x in c;
      SpreadingOvercounts(t, x, c, b, groups, fast);
      assert !WithinPermissions(Spreader(t, x, |c[x].pods|, b.start), t, c, b, groups, fast);
    }
  }

  ghost predicate WithinPermissions(w: World, t: NodeInfo, c: Cluster, b: Budget, groups: seq<seq<Pod>>, fast: bool)
    requires w.Sound()
  {
    var s := Pack(w, t, Start(c, b), groups, fast, true);
    Count(s) <= s.e.budget.nodes
  }
}
