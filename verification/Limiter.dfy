/**
  The threshold-based estimation limiter: how the node and duration limits of several
  thresholds are folded into one budget, and how permissions are drawn from it.
 */
module Limiter {
  import opened Wrappers

  /** What the thresholds read of a node group; a missing target is a failing TargetSize call. */
  datatype NodeGroup = NodeGroup(target: Option<int>, maxSize: int)

  datatype Context = Context(similar: seq<NodeGroup>, clusterMax: int, currentNodes: int)

  datatype Threshold =
    | StaticThreshold(maxNodes: int, maxDuration: int)
    | SngCapacityThreshold
    | ClusterCapacityThreshold

  function FreeCapacity(g: NodeGroup): (c: nat)
    ensures g.target.None? ==> c == 0
    ensures g.target.Some? && g.target.value + c > g.maxSize ==> c == 0
    ensures g.target.Some? && g.target.value <= g.maxSize ==> g.target.value + c == g.maxSize
  {
    if g.target.Some? && g.maxSize - g.target.value > 0 then g.maxSize - g.target.value else 0
  }

  function SumFree(gs: seq<NodeGroup>): nat {
    if gs == [] then 0 else SumFree(gs[..|gs|-1]) + FreeCapacity(gs[|gs|-1])
  }

  /** The node limit a threshold reports: negative forbids nodes, zero sets no limit. */
  ghost function NodeLimit(t: Threshold, g: NodeGroup, ctx: Option<Context>): int {
    match t
    case StaticThreshold(n, _) => n
    case SngCapacityThreshold =>
      if ctx.None? then 0
      else
        var free := FreeCapacity(g) + SumFree(ctx.value.similar);
        if free == 0 then -1 else free
    case ClusterCapacityThreshold =>
      if ctx.None? || ctx.value.clusterMax == 0 then 0
      else if ctx.value.clusterMax < 0 || ctx.value.clusterMax <= ctx.value.currentNodes then -1
      else ctx.value.clusterMax - ctx.value.currentNodes
  }

  function DurationLimit(t: Threshold): int {
    if t.StaticThreshold? then t.maxDuration else 0
  }

  method ComputeNodeLimit(t: Threshold, g: NodeGroup, ctx: Option<Context>) returns (limit: int)
    ensures limit == NodeLimit(t, g, ctx)
  {
    match t
    case StaticThreshold(n, _) =>
      limit := n;
    case SngCapacityThreshold =>
      if ctx.None? {
        return 0;
      }
      var similar := ctx.value.similar;
      var total := FreeCapacity(g);
      for i := 0 to |similar|
        invariant total == FreeCapacity(g) + SumFree(similar[..i])
      {
        assert similar[..i+1][..i] == similar[..i];
        total := total + FreeCapacity(similar[i]);
      }
      assert similar[..|similar|] == similar;
      limit := if total <= 0 then -1 else total;
    case ClusterCapacityThreshold =>
      if ctx.None? || ctx.value.clusterMax == 0 {
        limit := 0;
      } else if ctx.value.clusterMax < 0 || ctx.value.clusterMax <= ctx.value.currentNodes {
        limit := -1;
      } else {
        limit := ctx.value.clusterMax - ctx.value.currentNodes;
      }
  }

  function MinLimit(base: int, target: int): int {
    if base < 0 || target < 0 then -1
    else if (base == 0 || base > target) && target > 0 then target
    else base
  }

  /** The running limit after the given threshold limits, in that order, starting from "no limit". */
  function Fold(limits: seq<int>): int {
    if limits == [] then 0 else MinLimit(Fold(limits[..|limits|-1]), limits[|limits|-1])
  }

  /** The meaning of a folded limit, without reference to any order. */
  ghost predicate IsFolded(limits: multiset<int>, m: int) {
    if exists l :: l in limits && l < 0 then m == -1
    else if exists l :: l in limits && l > 0 then m > 0 && m in limits && forall l :: l in limits && l > 0 ==> m <= l
    else m == 0
  }

  lemma {:induction false} FoldMeaning(limits: seq<int>)
    ensures IsFolded(multiset(limits), Fold(limits))
  {
    if limits != [] {
      var init, x := limits[..|limits|-1], limits[|limits|-1];
      FoldMeaning(init);
      assert limits == init + [x];
      assert x in multiset(limits);
      assert forall l :: l in multiset(limits) <==> l in multiset(init) || l == x;
    }
  }

  lemma FoldIgnoresOrder(a: seq<int>, b: seq<int>)
    requires multiset(a) == multiset(b)
    ensures Fold(a) == Fold(b)
  {
    FoldMeaning(a);
    FoldMeaning(b);
  }

  const ZERO_TIME := 0

  /** The limiter's fields as a value; `asked` counts permission requests and indexes the clock. */
  datatype Budget = Budget(maxNodes: int, maxDuration: int, nodes: nat, start: int, asked: nat) {
    predicate Grants(now: int) {
      && !(maxNodes < 0 || (maxNodes > 0 && nodes >= maxNodes))
      && !(maxDuration < 0 || (maxDuration > 0 && start != ZERO_TIME && now > start + maxDuration))
    }

    /** The budget after one permission request. */
    function Next(now: int): Budget {
      this.(asked := asked + 1, nodes := if Grants(now) then nodes + 1 else nodes)
    }

    /** Permissions handed out never exceed the folded node limit. */
    ghost predicate Within() {
      && (maxNodes < 0 ==> nodes == 0)
      && (maxNodes > 0 ==> nodes <= maxNodes)
    }
  }

  ghost function NodeLimits(ts: seq<Threshold>, g: NodeGroup, ctx: Option<Context>): seq<int> {
    seq(|ts|, i requires 0 <= i < |ts| => NodeLimit(ts[i], g, ctx))
  }

  function DurationLimits(ts: seq<Threshold>): seq<int> {
    seq(|ts|, i requires 0 <= i < |ts| => DurationLimit(ts[i]))
  }

  /** The budget with which an estimation starts. */
  ghost function Started(ts: seq<Threshold>, g: NodeGroup, ctx: Option<Context>, now: int): Budget {
    Budget(Fold(NodeLimits(ts, g, ctx)), Fold(DurationLimits(ts)), 0, now, 0)
  }

  /** The thresholds the autoscaler is built with. */
  function DefaultThresholds(maxNodes: int, maxDuration: int): seq<Threshold> {
    [StaticThreshold(maxNodes, maxDuration), SngCapacityThreshold, ClusterCapacityThreshold]
  }

  /** With the default thresholds, the permissions granted respect all three limits. */
  lemma DefaultLimits(maxNodes: int, maxDuration: int, g: NodeGroup, ctx: Option<Context>, b: Budget)
    requires b.maxNodes == Fold(NodeLimits(DefaultThresholds(maxNodes, maxDuration), g, ctx))
    requires b.Within() && b.nodes > 0
    ensures maxNodes > 0 ==> b.nodes <= maxNodes
    ensures maxNodes >= 0
    ensures ctx.Some? ==> b.nodes <= FreeCapacity(g) + SumFree(ctx.value.similar)
    ensures ctx.Some? && ctx.value.clusterMax > 0 ==> ctx.value.currentNodes + b.nodes <= ctx.value.clusterMax
    ensures ctx.Some? ==> ctx.value.clusterMax >= 0
  {
    var ts := DefaultThresholds(maxNodes, maxDuration);
    var limits := NodeLimits(ts, g, ctx);
    FoldMeaning(limits);
    assert limits[0] == maxNodes && limits[1] == NodeLimit(SngCapacityThreshold, g, ctx)
        && limits[2] == NodeLimit(ClusterCapacityThreshold, g, ctx);
    assert limits[0] in multiset(limits) && limits[1] in multiset(limits) && limits[2] in multiset(limits);
  }

  /** With the default thresholds a number of nodes is within the folded limit exactly when it is within all three. */
  lemma DefaultLimitsExactly(maxNodes: int, maxDuration: int, g: NodeGroup, ctx: Option<Context>, n: nat)
    requires n > 0
    ensures var m := Started(DefaultThresholds(maxNodes, maxDuration), g, ctx, 0).maxNodes;
      (m == 0 || n <= m) <==>
        && maxNodes >= 0 && (maxNodes > 0 ==> n <= maxNodes)
        && (ctx.Some? ==> n <= FreeCapacity(g) + SumFree(ctx.value.similar))
        && (ctx.Some? ==> ctx.value.clusterMax >= 0)
        && (ctx.Some? && ctx.value.clusterMax > 0 ==> ctx.value.currentNodes + n <= ctx.value.clusterMax)
  {
    var ts := DefaultThresholds(maxNodes, maxDuration);
    var limits := NodeLimits(ts, g, ctx);
    FoldMeaning(limits);
    assert limits[0] == maxNodes && limits[1] == NodeLimit(SngCapacityThreshold, g, ctx)
        && limits[2] == NodeLimit(ClusterCapacityThreshold, g, ctx);
    assert limits == [limits[0], limits[1], limits[2]];
    assert forall l :: l in multiset(limits) <==> l == limits[0] || l == limits[1] || l == limits[2];
  }

  /** The default thresholds set no duration limit but the static one; a negative one forbids everything. */
  lemma DefaultDuration(maxNodes: int, maxDuration: int, g: NodeGroup, ctx: Option<Context>)
    ensures Started(DefaultThresholds(maxNodes, maxDuration), g, ctx, 0).maxDuration ==
      if maxDuration < 0 then -1 else maxDuration
  {
    var limits := DurationLimits(DefaultThresholds(maxNodes, maxDuration));
    assert limits == [maxDuration, 0, 0];
    FoldMeaning(limits);
  }

  /** The budget after `k` requests at the given times. */
  ghost function AfterAsks(b: Budget, k: nat, clock: nat -> int): Budget {
    if k == 0 then b else AfterAsks(b, k - 1, clock).Next(clock(k - 1))
  }

  /** Without a duration limit exactly the first requests, up to the node limit, are granted. */
  lemma {:induction false} FirstAsksAreGranted(b: Budget, k: nat, clock: nat -> int)
    requires b.maxDuration == 0 && b.nodes == 0
    ensures var r := AfterAsks(b, k, clock);
      && r.maxNodes == b.maxNodes && r.maxDuration == 0
      && r.nodes == if b.maxNodes < 0 then 0 else if b.maxNodes == 0 || k <= b.maxNodes then k else b.maxNodes
  {
    if k > 0 {
      FirstAsksAreGranted(b, k - 1, clock);
    }
  }

  class ThresholdBasedLimiter {
    const thresholds: seq<Threshold>
    var maxDuration: int
    var maxNodes: int
    var nodes: nat
    var start: int
    var asked: nat

    constructor (thresholds: seq<Threshold>)
      ensures this.thresholds == thresholds && View() == Budget(0, 0, 0, ZERO_TIME, 0)
    {
      this.thresholds := thresholds;
      maxDuration, maxNodes, nodes, start, asked := 0, 0, 0, ZERO_TIME, 0;
    }

    ghost function View(): Budget reads this { Budget(maxNodes, maxDuration, nodes, start, asked) }

    method StartEstimation(g: NodeGroup, ctx: Option<Context>, now: int)
      modifies this
      ensures View() == Started(thresholds, g, ctx, now)
    {
      start, nodes, maxNodes, maxDuration, asked := now, 0, 0, 0, 0;
      ghost var nodeLimits, durations := NodeLimits(thresholds, g, ctx), DurationLimits(thresholds);
      for i := 0 to |thresholds|
        invariant start == now && nodes == 0 && asked == 0
        invariant maxNodes == Fold(nodeLimits[..i])
        invariant maxDuration == Fold(durations[..i])
      {
        assert nodeLimits[..i+1][..i] == nodeLimits[..i] && durations[..i+1][..i] == durations[..i];
        var limit := ComputeNodeLimit(thresholds[i], g, ctx);
        maxNodes := MinLimit(maxNodes, limit);
        maxDuration := MinLimit(maxDuration, DurationLimit(thresholds[i]));
      }
      assert nodeLimits[..|thresholds|] == nodeLimits && durations[..|thresholds|] == durations;
    }

    method PermissionToAddNode(now: int) returns (granted: bool)
      modifies this
      ensures granted == old(View()).Grants(now)
      ensures View() == old(View()).Next(now)
      ensures granted <==>
        && (maxNodes == 0 || old(nodes) < maxNodes)
        && (maxDuration == 0 || (maxDuration > 0 && (start == ZERO_TIME || now - start <= maxDuration)))
      ensures nodes == old(nodes) + (if granted then 1 else 0) && asked == old(asked) + 1
      ensures unchanged(`maxNodes, `maxDuration, `start)
    {
      asked := asked + 1;
      if maxNodes < 0 || (maxNodes > 0 && nodes >= maxNodes) {
        return false;
      }
      var timeDefined := maxDuration > 0 && start != ZERO_TIME;
      if maxDuration < 0 || (timeDefined && now > start + maxDuration) {
        return false;
      }
      nodes := nodes + 1;
      granted := true;
    }
  }
}
