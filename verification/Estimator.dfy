/**
  The bin-packing node estimator itself: loops over pods and groups that change the estimation
  state, the forked snapshot and the limiter, proved to compute the functions of Estimation.
 */
module Estimator {
  import opened Wrappers
  import opened Integers
  import opened Snapshots
  import opened Limiter
  import opened Estimation
  import opened Packing
  import opened Completeness

  /** Rounding the quotient up counts the portions. */
  lemma CeilDivRounds(n: nat, k: nat)
    requires k > 0
    ensures CeilDiv(n, k) == if k * (n / k) < n then n / k + 1 else n / k
  {
    if n > 0 {
      CeilDivBounds(n, k);
      QuotientBetween(n, k, CeilDiv(n, k));
    }
  }

  lemma QuotientBetween(n: nat, k: nat, c: nat)
    requires k > 0 && c > 0 && k * (c - 1) < n <= k * c
    ensures c == if k * (n / k) < n then n / k + 1 else n / k
  {
    DivisionFloors(n, k, c - 1);
    DivisionFloors(n, k, c);
    DivisionFloors(n, k, c + 1);
    assert (c + 1) * k == c * k + k;
    assert n / k == if n == k * c then c else c - 1;
  }

  class EstimationState {
    var scheduledPods: seq<Pod>
    var newNodeNameIndex: nat
    var lastNodeName: Option<NodeName>
    var newNodeNames: set<NodeName>
    var newNodesWithPods: set<NodeName>
    ghost var homes: seq<NodeName>

    constructor ()
      ensures scheduledPods == [] && newNodeNameIndex == 0 && lastNodeName == None
      ensures newNodeNames == {} && newNodesWithPods == {} && homes == []
    {
      scheduledPods, newNodeNameIndex, lastNodeName := [], 0, None;
      newNodeNames, newNodesWithPods, homes := {}, {}, [];
    }

    method TrackScheduledPod(p: Pod, n: NodeName)
      modifies this
      ensures scheduledPods == old(scheduledPods) + [p] && homes == old(homes) + [n]
      ensures newNodesWithPods == old(newNodesWithPods) + {n}
      ensures unchanged(`newNodeNameIndex, `lastNodeName, `newNodeNames)
    {
      newNodesWithPods := newNodesWithPods + {n};
      scheduledPods := scheduledPods + [p];
      homes := homes + [n];
    }
  }

  /** The groups with group `i` moved to the end; a negative index moves nothing. */
  function MovedLast<T>(s: seq<T>, i: int): seq<T>
    requires i < |s|
  {
    if i < 0 then s else s[..i] + s[i+1..] + [s[i]]
  }

  lemma MovedLastPermutes<T>(s: seq<T>, i: int)
    requires i < |s|
    ensures multiset(MovedLast(s, i)) == multiset(s)
    ensures i >= 0 ==> MovedLast(s, i)[|s|-1] == s[i] && MovedLast(s, i)[..|s|-1] == s[..i] + s[i+1..]
    ensures i < 0 ==> MovedLast(s, i) == s
  {
    if i >= 0 {
      assert s == s[..i] + [s[i]] + s[i+1..];
    }
  }

  /** Closing the gap and writing the saved group at the end, in the slice's own array. */
  method MoveLast<T>(a: array<T>, i: int)
    requires 0 <= i < a.Length
    modifies a
    ensures a[..] == MovedLast(old(a[..]), i)
  {
    var saved := a[i];
    ghost var s := a[..];
    for k := i to a.Length - 1
      invariant a.Length == |s|
      invariant forall m :: 0 <= m < i ==> a[m] == s[m]
      invariant forall m :: i <= m < k ==> a[m] == s[m+1]
      invariant forall m :: k <= m < a.Length ==> a[m] == s[m]
    {
      a[k] := a[k+1];
    }
    a[a.Length-1] := saved;
  }

  class BinpackingNodeEstimator {
    const clusterSnapshot: ClusterSnapshot
    const limiter: ThresholdBasedLimiter
    const fastpathBinpackingEnabled: bool

    constructor (snapshot: ClusterSnapshot, limiter: ThresholdBasedLimiter, fastpath: bool)
      ensures clusterSnapshot == snapshot && this.limiter == limiter && fastpathBinpackingEnabled == fastpath
    {
      clusterSnapshot, this.limiter, fastpathBinpackingEnabled := snapshot, limiter, fastpath;
    }

    ghost predicate Ready()
      reads clusterSnapshot
    {
      clusterSnapshot.Valid() && clusterSnapshot.w.Sound()
    }

    ghost function View(s: EstimationState): Est
      requires Ready()
      reads clusterSnapshot, limiter, s
    {
      Est(clusterSnapshot.Top(), limiter.View(), s.scheduledPods, s.homes, s.newNodeNameIndex,
          s.lastNodeName, s.newNodeNames, s.newNodesWithPods)
    }

    method TryToScheduleOnExistingNodes(s: EstimationState, pods: seq<Pod>) returns (rest: seq<Pod>, ok: bool)
      requires Ready()
      modifies clusterSnapshot, s
      ensures Ready() && clusterSnapshot.Below() == old(clusterSnapshot.Below())
      ensures var r := OnExisting(clusterSnapshot.w, old(View(s)), pods);
        View(s) == r.e && ok == r.Rest? && (ok ==> rest == r.pods)
    {
      var index := 0;
      while index < |pods|
        invariant 0 <= index <= |pods| && Ready() && clusterSnapshot.Below() == old(clusterSnapshot.Below())
        invariant OnExisting(clusterSnapshot.w, View(s), pods[index..]) ==
            OnExisting(clusterSnapshot.w, old(View(s)), pods)
      {
        assert pods[index..][1..] == pods[index+1..];
        var r := clusterSnapshot.SchedulePodOnAnyNodeMatching(pods[index], s.newNodeNames);
        match r {
          case ChoiceBroken => return [], false;
          case Nowhere => break;
          case On(n) => s.TrackScheduledPod(pods[index], n);
        }
        index := index + 1;
      }
      return pods[index..], true;
    }

    method AddNewNodeToSnapshot(s: EstimationState, t: NodeInfo) returns (ok: bool)
      requires Ready()
      modifies clusterSnapshot, s
      ensures Ready() && clusterSnapshot.Below() == old(clusterSnapshot.Below())
      ensures var r := AddNode(old(View(s)), t);
        ok == r.Some? && View(s) == if ok then r.value else old(View(s))
    {
      var name := Simulated(s.newNodeNameIndex);
      ok := clusterSnapshot.AddNodeInfo(name, t);
      if ok {
        s.newNodeNameIndex := s.newNodeNameIndex + 1;
        s.lastNodeName := Some(name);
        s.newNodeNames := s.newNodeNames + {name};
      }
    }

    /** The attempt on the node added last, with the search elsewhere for hostname spreading. */
    method TryOnLastNode(s: EstimationState, p: Pod) returns (found: bool, ok: bool)
      requires Ready()
      modifies clusterSnapshot, s
      ensures Ready() && clusterSnapshot.Below() == old(clusterSnapshot.Below())
      ensures var a := TryLast(clusterSnapshot.w, old(View(s)), p);
        ok == !a.AttemptError? && found == a.Placed? && View(s) == if found then a.e else old(View(s))
    {
      if s.lastNodeName.None? {
        return false, true;
      }
      var last := s.lastNodeName.value;
      var v := clusterSnapshot.SchedulePod(p, last);
      if v == Fits {
        s.TrackScheduledPod(p, last);
        return true, true;
      }
      if v == Broken {
        return false, false;
      }
      if p.spec.hostSpread && v.topology {
        var r := clusterSnapshot.SchedulePodOnAnyNodeMatching(p, clusterSnapshot.Top().Keys - {last});
        if r == ChoiceBroken {
          return false, false;
        }
        if r.On? {
          s.TrackScheduledPod(p, r.node);
          return true, true;
        }
      }
      return false, true;
    }

    method TryToScheduleOnNewNodes(s: EstimationState, t: NodeInfo, pods: seq<Pod>) returns (more: bool, ok: bool)
      requires Ready()
      modifies clusterSnapshot, limiter, s
      ensures Ready() && clusterSnapshot.Below() == old(clusterSnapshot.Below())
      ensures var r := OnNew(clusterSnapshot.w, t, old(View(s)), pods);
        View(s) == r.e && ok == r.Step? && (ok ==> more == r.more)
    {
      for i := 0 to |pods|
        invariant Ready() && clusterSnapshot.Below() == old(clusterSnapshot.Below())
        invariant OnNew(clusterSnapshot.w, t, View(s), pods[i..]) == OnNew(clusterSnapshot.w, t, old(View(s)), pods)
      {
        assert pods[i..][0] == pods[i] && pods[i..][1..] == pods[i+1..];
        var found, fine := TryOnLastNode(s, pods[i]);
        if !fine {
          return false, false;
        }
        if !found {
          if s.lastNodeName.Some? && s.lastNodeName.value !in s.newNodesWithPods {
            return true, true;
          }
          var granted := limiter.PermissionToAddNode(clusterSnapshot.w.clock(limiter.asked));
          if !granted {
            return false, true;
          }
          var added := AddNewNodeToSnapshot(s, t);
          if !added {
            return false, false;
          }
          var v := clusterSnapshot.SchedulePod(pods[i], s.lastNodeName.value);
          if v == Broken {
            return false, false;
          }
          if v != Fits {
            return true, true;
          }
          s.TrackScheduledPod(pods[i], s.lastNodeName.value);
        }
      }
      return true, true;
    }

    /** Schedules pods on the given node until one is rejected; `i` counts them. */
    method FillLastNode(s: EstimationState, n: NodeName, pods: seq<Pod>) returns (i: nat, ok: bool)
      requires Ready()
      modifies clusterSnapshot, s
      ensures Ready() && clusterSnapshot.Below() == old(clusterSnapshot.Below())
      ensures var r := Fill(clusterSnapshot.w, old(View(s)), n, pods);
        View(s) == r.e && ok == r.Rest? && i <= |pods| && (ok ==> r.pods == pods[i..])
    {
      i := 0;
      while i < |pods|
        invariant 0 <= i <= |pods| && Ready() && clusterSnapshot.Below() == old(clusterSnapshot.Below())
        invariant Fill(clusterSnapshot.w, View(s), n, pods[i..]) == Fill(clusterSnapshot.w, old(View(s)), n, pods)
      {
        assert pods[i..][1..] == pods[i+1..];
        var v := clusterSnapshot.SchedulePod(pods[i], n);
        if v == Broken {
          return i, false;
        }
        if v != Fits {
          return i, true;
        }
        s.TrackScheduledPod(pods[i], n);
        i := i + 1;
      }
      ok := true;
    }

    method TrackPods(s: EstimationState, pods: seq<Pod>, n: NodeName)
      requires Ready()
      modifies s
      ensures View(s) == TrackAll(old(View(s)), pods, n)
    {
      for k := 0 to |pods|
        invariant TrackAll(View(s), pods[k..], n) == TrackAll(old(View(s)), pods, n)
      {
        assert pods[k..][1..] == pods[k+1..];
        s.TrackScheduledPod(pods[k], n);
      }
    }

    /** The nodes needed for all pods, rounded up. */
    method ScaleUpSize(n: nat, podsPerNode: nat) returns (size: nat)
      requires podsPerNode > 0
      ensures size == CeilDiv(n, podsPerNode)
    {
      size := n / podsPerNode;
      CeilDivRounds(n, podsPerNode);
      if podsPerNode * size < n {
        size := size + 1;
      }
    }

    /** Fills the node and pretends to add copies of it for the remaining pods. */
    method FillAndPretend(s: EstimationState, n: NodeName, pods: seq<Pod>) returns (more: bool, ok: bool)
      requires Ready() && |pods| > 0
      modifies clusterSnapshot, limiter, s
      ensures Ready() && clusterSnapshot.Below() == old(clusterSnapshot.Below())
      ensures var r := AfterOpening(clusterSnapshot.w, old(View(s)), n, pods);
        View(s) == r.e && ok == r.Step? && (ok ==> more == r.more)
    {
      var i, filled := FillLastNode(s, n, pods);
      if !filled {
        return false, false;
      }
      var podsPerNode := i;
      if podsPerNode == 0 {
        return true, true;
      }
      var scaleUpSize := ScaleUpSize(|pods|, podsPerNode);
      more := PretendNodes(s, n, pods[i..], podsPerNode, scaleUpSize);
      ok := true;
    }

    method TryFastPath(s: EstimationState, t: NodeInfo, pods: seq<Pod>) returns (more: bool, ok: bool)
      requires Ready()
      modifies clusterSnapshot, limiter, s
      ensures Ready() && clusterSnapshot.Below() == old(clusterSnapshot.Below())
      ensures var r := FastPath(clusterSnapshot.w, t, old(View(s)), pods);
        View(s) == r.e && ok == r.Step? && (ok ==> more == r.more)
    {
      if |pods| == 0 {
        return true, true;
      }
      var granted := limiter.PermissionToAddNode(clusterSnapshot.w.clock(limiter.asked));
      if !granted {
        return false, true;
      }
      var added := AddNewNodeToSnapshot(s, t);
      if !added {
        return false, false;
      }
      more, ok := FillAndPretend(s, s.lastNodeName.value, pods);
    }

    /** Marks the remaining pods on nodes that are not simulated, while the limiter permits. */
    method PretendNodes(s: EstimationState, n: NodeName, pods: seq<Pod>, podsPerNode: nat, scaleUpSize: nat)
        returns (more: bool)
      requires Ready()
      modifies limiter, s
      ensures var r := Pretend(clusterSnapshot.w, old(View(s)), n, pods, podsPerNode, 1, scaleUpSize);
        r.Step? && View(s) == r.e && more == r.more
    {
      var i, j := 0, 1;
      while j < scaleUpSize
        invariant 0 <= i <= |pods| && 1 <= j
        invariant Pretend(clusterSnapshot.w, View(s), n, pods[i..], podsPerNode, j, scaleUpSize)
               == Pretend(clusterSnapshot.w, old(View(s)), n, pods, podsPerNode, 1, scaleUpSize)
      {
        var granted := limiter.PermissionToAddNode(clusterSnapshot.w.clock(limiter.asked));
        if !granted {
          return false;
        }
        var k := if podsPerNode < |pods| - i then podsPerNode else |pods| - i;
        assert pods[i..][..k] == pods[i..i+k] && pods[i..][k..] == pods[i+k..];
        TrackPods(s, pods[i..i+k], Fake(n, j));
        i, j := i + k, j + 1;
      }
      more := true;
    }

    /**
      `groups` is the slice returned by the pod orderer and `best` the index chosen for the fast
      path, or -1. The snapshot is left as it was on every exit.
     */
    method Estimate(groups: array<seq<Pod>>, best: int, t: NodeInfo, g: NodeGroup, ctx: Option<Context>, now: int)
      returns (count: nat, pods: seq<Pod>)
      requires Ready() && -1 <= best < groups.Length
      modifies clusterSnapshot, limiter, groups
      ensures clusterSnapshot.stack == old(clusterSnapshot.stack)
      ensures groups[..] == MovedLast(old(groups[..]), if fastpathBinpackingEnabled then best else -1)
      ensures var start := Start(old(clusterSnapshot.Top()), Started(limiter.thresholds, g, ctx, now));
        var r := Pack(clusterSnapshot.w, t, start, groups[..], fastpathBinpackingEnabled && best != -1, true);
        && limiter.View() == r.e.budget
        && (if r.Step? then count == |r.e.withPods| && pods == r.e.scheduled else count == 0 && pods == [])
        && limiter.asked <= limiter.nodes + 1
        && (r.Step? && limiter.asked == limiter.nodes ==> Complete(clusterSnapshot.w, t, groups[..], pods))
    {
      limiter.StartEstimation(g, ctx, now);
      var useFastpathOnLast := false;
      if fastpathBinpackingEnabled && best != -1 {
        MoveLast(groups, best);
        useFastpathOnLast := true;
      }
      clusterSnapshot.Fork();
      EstimateIsComplete(clusterSnapshot.w, t, clusterSnapshot.Top(), limiter.View(), groups[..], useFastpathOnLast);
      var s := new EstimationState();
      var ok := PackGroups(s, groups[..], t, useFastpathOnLast);
      clusterSnapshot.Revert();
      if !ok {
        return 0, [];
      }
      return |s.newNodesWithPods|, s.scheduledPods;
    }

    /** The loop over the groups. */
    method PackGroups(s: EstimationState, groups: seq<seq<Pod>>, t: NodeInfo, fast: bool) returns (ok: bool)
      requires Ready()
      modifies clusterSnapshot, limiter, s
      ensures Ready() && clusterSnapshot.Below() == old(clusterSnapshot.Below())
      ensures var r := Pack(clusterSnapshot.w, t, old(View(s)), groups, fast, true);
        ok == r.Step? && View(s) == r.e
    {
      var more := true;
      for i := 0 to |groups|
        invariant Ready() && clusterSnapshot.Below() == old(clusterSnapshot.Below())
        invariant Pack(clusterSnapshot.w, t, View(s), groups[i..], fast, more) ==
            Pack(clusterSnapshot.w, t, old(View(s)), groups, fast, true)
      {
        assert groups[i..][0] == groups[i] && groups[i..][1..] == groups[i+1..];
        var rest, fine := TryToScheduleOnExistingNodes(s, groups[i]);
        if !fine {
          return false;
        }
        if more {
          if i == |groups| - 1 && fast {
            more, fine := TryFastPath(s, t, rest);
          } else {
            more, fine := TryToScheduleOnNewNodes(s, t, rest);
          }
          if !fine {
            return false;
          }
        }
      }
      ok := true;
    }
  }

  // ----- what the estimate guarantees -----

  lemma StartFacts(c: Cluster, b: Budget, t: NodeInfo)
    requires b.nodes == 0
    ensures Inv(Start(c, b), c.Keys) && Inv(Start(c, b), {}) && Ledger(Start(c, b), t, c.Keys)
  {
  }

  /** The count cannot exceed the permissions: there is no node to spread to, none is ever added, or no pod spreads
      late. */
  ghost predicate CannotOvercount(c: Cluster, b: Budget, groups: seq<seq<Pod>>, fast: bool) {
    c == map[] || b.maxNodes < 0 || b.maxDuration < 0 || !SpreadsLate(groups, fast)
  }

  /** For any pods, the counted nodes that were not in the cluster never outnumber the permissions granted. */
  lemma CountWithinPermissions(w: World, t: NodeInfo, c: Cluster, b: Budget, groups: seq<seq<Pod>>, fast: bool)
    requires w.Sound() && b.nodes == 0
    ensures var r := Pack(w, t, Start(c, b), groups, fast, true).e;
      && |r.withPods - c.Keys| <= r.budget.nodes && r.budget.maxNodes == b.maxNodes && r.budget.Within()
      && r.withPods == Carrying(r.homes) && |r.homes| == |r.scheduled|
      && (CannotOvercount(c, b, groups, fast) || NeverTopology(w) ==> |r.withPods| <= r.budget.nodes)
  {
    StartFacts(c, b, NodeInfo(0, 0, false, []));
    PackCounts(w, t, Start(c, b), groups, fast, true, c.Keys);
    if CannotOvercount(c, b, groups, fast) || NeverTopology(w) {
      CountBounded(w, t, c, b, groups, fast);
    }
  }

  lemma CountBounded(w: World, t: NodeInfo, c: Cluster, b: Budget, groups: seq<seq<Pod>>, fast: bool)
    requires w.Sound() && b.nodes == 0 && (CannotOvercount(c, b, groups, fast) || NeverTopology(w))
    ensures var r := Pack(w, t, Start(c, b), groups, fast, true).e; |r.withPods| <= r.budget.nodes
  {
    if b.maxNodes < 0 || b.maxDuration < 0 {
      PackIdle(w, t, Start(c, b), groups, fast, true);
    } else {
      StartFacts(c, b, NodeInfo(0, 0, false, []));
      PackCounts(w, t, Start(c, b), groups, fast, true, {});
      var r := Pack(w, t, Start(c, b), groups, fast, true).e;
      assert r.withPods - {} == r.withPods;
    }
  }

  /** With the default thresholds, a positive count respects the static limit, the free capacity of
      the similar groups and the cluster maximum. */
  lemma CountWithinDefaultLimits(
    w: World, t: NodeInfo, c: Cluster, groups: seq<seq<Pod>>, fast: bool,
    maxNodes: int, maxDuration: int, g: NodeGroup, ctx: Option<Context>, now: int)
    requires w.Sound()
    requires CannotOvercount(c, Started(DefaultThresholds(maxNodes, maxDuration), g, ctx, now), groups, fast)
    ensures var b := Started(DefaultThresholds(maxNodes, maxDuration), g, ctx, now);
      var count := |Pack(w, t, Start(c, b), groups, fast, true).e.withPods|;
      count > 0 ==>
        && maxNodes >= 0 && (maxNodes > 0 ==> count <= maxNodes)
        && (ctx.Some? ==> count <= FreeCapacity(g) + SumFree(ctx.value.similar))
        && (ctx.Some? && ctx.value.clusterMax > 0 ==> ctx.value.currentNodes + count <= ctx.value.clusterMax)
  {
    var b := Started(DefaultThresholds(maxNodes, maxDuration), g, ctx, now);
    CountWithinPermissions(w, t, c, b, groups, fast);
    var r := Pack(w, t, Start(c, b), groups, fast, true).e;
    if |r.withPods| > 0 {
      DefaultLimits(maxNodes, maxDuration, g, ctx, r.budget);
    }
  }

  /** Each group contributes a prefix, and no counted node outside the cluster exceeds the template. */
  lemma EstimateStaysWithinTemplate(w: World, t: NodeInfo, c: Cluster, b: Budget, groups: seq<seq<Pod>>, fast: bool,
      spec: Spec)
    requires w.Sound() && RoomSound(w) && b.nodes == 0 && forall n :: n in c ==> n.Existing?
    requires fast && groups != [] ==> Uniform(groups[|groups|-1], spec)
    ensures var r := Pack(w, t, Start(c, b), groups, fast, true);
      Capped(r.e, t, c.Keys) && (r.Step? ==> Prefixes(groups, r.e.scheduled))
  {
    StartFacts(c, b, t);
    PackCapped(w, t, Start(c, b), groups, fast, true, c.Keys, spec);
    var r := Pack(w, t, Start(c, b), groups, fast, true);
    if r.Step? {
      PackSchedulesPrefixes(w, t, Start(c, b), groups, fast, true);
      assert r.e.scheduled[0..] == r.e.scheduled;
    }
  }
}
