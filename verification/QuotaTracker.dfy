/**
  The resource quota tracker and what builds it: the per-node-group resource cache, the usage
  calculation over all nodes, the headrooms for maximum and minimum limits, and consumption.
 */
module QuotaTracker {
  import opened Wrappers
  import opened Integers
  import opened QuotaTracking

  datatype GroupLookup = NoGroup | InGroup(id: string) | LookupFailed

  datatype ResourceTarget = ResourceTarget(kind: string, count: int)

  /** A node; missing custom resources stand for a failing lookup. */
  datatype Node = Node(name: string, group: GroupLookup, cpu: nat, memory: nat, custom: Option<seq<ResourceTarget>>,
      excluded: bool)

  datatype Quota = Quota(id: string, appliesTo: Node -> bool, limits: Resources)

  function Get(m: Resources, r: string): int {
    if r in m then m[r] else 0
  }

  function AddTargets(m: Resources, targets: seq<ResourceTarget>): Resources {
    if targets == [] then m
    else
      var init, t := AddTargets(m, targets[..|targets|-1]), targets[|targets|-1];
      if t.kind != "" && t.count > 0 then init[t.kind := t.count] else init
  }

  /** All resources of a node: cores, memory, one node, and its custom resources. */
  function NodeResources(node: Node): Option<Resources> {
    if node.custom.None? then None
    else Some(AddTargets(map["cpu" := node.cpu, "memory" := node.memory, "nodes" := 1], node.custom.value))
  }

  lemma {:induction false} NodeResourcesNonNegative(node: Node)
    ensures NodeResources(node).Some? ==> NonNegative(NodeResources(node).value) && "nodes" in NodeResources(node).value
  {
    if node.custom.Some? {
      AddTargetsKeeps(map["cpu" := node.cpu, "memory" := node.memory, "nodes" := 1], node.custom.value);
    }
  }

  lemma {:induction false} AddTargetsKeeps(m: Resources, targets: seq<ResourceTarget>)
    requires NonNegative(m) && "nodes" in m
    ensures NonNegative(AddTargets(m, targets)) && "nodes" in AddTargets(m, targets)
  {
    if targets != [] {
      AddTargetsKeeps(m, targets[..|targets|-1]);
    }
  }

  /** A custom resource that is counted. */
  predicate Counts(t: ResourceTarget) {
    t.kind != "" && t.count > 0
  }

  /** Target `j` is the last counted one of its kind. */
  ghost predicate LastOfKind(targets: seq<ResourceTarget>, r: string, j: nat) {
    && j < |targets| && Counts(targets[j]) && targets[j].kind == r
    && forall k :: j < k < |targets| ==> !(Counts(targets[k]) && targets[k].kind == r)
  }

  ghost predicate NoneOfKind(targets: seq<ResourceTarget>, r: string) {
    forall k :: 0 <= k < |targets| ==> !(Counts(targets[k]) && targets[k].kind == r)
  }

  lemma {:induction false} AddTargetsMeans(m: Resources, targets: seq<ResourceTarget>, r: string, j: nat)
    ensures LastOfKind(targets, r, j) ==> r in AddTargets(m, targets) && AddTargets(m, targets)[r] == targets[j].count
    ensures NoneOfKind(targets, r) ==>
      (r in AddTargets(m, targets) <==> r in m) && (r in m ==> AddTargets(m, targets)[r] == m[r])
  {
    if targets != [] {
      var init, t := targets[..|targets|-1], targets[|targets|-1];
      AddTargetsMeans(m, init, r, j);
      if Counts(t) && t.kind == r {
        assert !NoneOfKind(targets, r) && (LastOfKind(targets, r, j) ==> j == |targets| - 1);
      } else {
        assert LastOfKind(targets, r, j) ==> LastOfKind(init, r, j);
        assert NoneOfKind(targets, r) ==> NoneOfKind(init, r);
      }
    }
  }

  /**
    Cores, memory and the node itself count under their names unless a custom resource of the same name
    takes their place; of several custom resources of a name the last counts.
   */
  lemma NodeResourcesMean(node: Node, r: string, j: nat)
    requires node.custom.Some?
    ensures NodeResources(node).Some?
    ensures var all, targets := NodeResources(node).value, node.custom.value;
      && (LastOfKind(targets, r, j) ==> r in all && all[r] == targets[j].count)
      && (NoneOfKind(targets, "cpu") ==> "cpu" in all && all["cpu"] == node.cpu)
      && (NoneOfKind(targets, "memory") ==> "memory" in all && all["memory"] == node.memory)
      && (NoneOfKind(targets, "nodes") ==> "nodes" in all && all["nodes"] == 1)
      && (NoneOfKind(targets, r) && r != "cpu" && r != "memory" && r != "nodes" ==> r !in all)
  {
    var m: Resources := map["cpu" := node.cpu, "memory" := node.memory, "nodes" := 1];
    AddTargetsMeans(m, node.custom.value, r, j);
    AddTargetsMeans(m, node.custom.value, "cpu", j);
    AddTargetsMeans(m, node.custom.value, "memory", j);
    AddTargetsMeans(m, node.custom.value, "nodes", j);
  }

  method ComputeNodeResources(node: Node) returns (r: Option<Resources>)
    ensures r == NodeResources(node)
  {
    var m := map["cpu" := node.cpu, "memory" := node.memory, "nodes" := 1];
    if node.custom.None? {
      return None;
    }
    var targets := node.custom.value;
    var all: Resources := m;
    for i := 0 to |targets|
      invariant all == AddTargets(m, targets[..i])
    {
      assert targets[..i+1][..i] == targets[..i];
      if targets[i].kind != "" && targets[i].count > 0 {
        all := all[targets[i].kind := targets[i].count];
      }
    }
    assert targets[..|targets|] == targets;
    return Some(all);
  }

  /** What the cache answers: the entry of the group, or the resources of the node itself. */
  function ResourcesFor(cached: map<string, Resources>, node: Node, group: Option<string>): Option<Resources> {
    if group.Some? && group.value in cached then Some(cached[group.value]) else NodeResources(node)
  }

  /** The resources of the first node seen of each node group. */
  class NodeResourcesCache {
    var resources: map<string, Resources>

    /** No entry is negative. */
    ghost predicate Sane()
      reads this
    {
      forall g :: g in resources ==> NonNegative(resources[g])
    }

    constructor ()
      ensures resources == map[]
    {
      resources := map[];
    }

    method TotalNodeResources(node: Node, group: Option<string>) returns (r: Option<Resources>)
      modifies this
      ensures r == ResourcesFor(old(resources), node, group)
      ensures group.Some? && group.value in old(resources) ==> r == Some(old(resources)[group.value])
      ensures !(group.Some? && group.value in old(resources)) ==> r == NodeResources(node)
      ensures resources == if group.Some? && r.Some? then old(resources)[group.value := r.value] else old(resources)
      ensures old(Sane()) ==> Sane() && (r.Some? ==> NonNegative(r.value))
    {
      NodeResourcesNonNegative(node);
      if group.Some? && group.value in resources {
        return Some(resources[group.value]);
      }
      r := ComputeNodeResources(node);
      if r.Some? && group.Some? {
        resources := resources[group.value := r.value];
      }
    }
  }

  // ----- usage -----

  function GroupOf(node: Node): Option<string> {
    if node.group.InGroup? then Some(node.group.id) else None
  }

  /** Direct sum, without the cache, over the first `n` nodes that are tracked and to which the quota applies. */
  ghost function DirectUsage(nodes: seq<Node>, q: Quota, r: string, n: nat): int
    requires n <= |nodes|
  {
    if n == 0 then 0 else DirectUsage(nodes, q, r, n - 1) + Contribution(nodes[n-1], q, r)
  }

  /** What one node adds to the usage of a quota. */
  ghost function Contribution(node: Node, q: Quota, r: string): int {
    if !node.excluded && q.appliesTo(node) && NodeResources(node).Some? then Get(NodeResources(node).value, r) else 0
  }

  /** Tracked nodes of one group have the same resources. */
  ghost predicate Uniform(nodes: seq<Node>) {
    forall a, b :: a in nodes && b in nodes && !a.excluded && !b.excluded && a.group.InGroup? && a.group == b.group ==>
      NodeResources(a) == NodeResources(b)
  }

  /** The cache agrees with every tracked node. */
  ghost predicate Agrees(cached: map<string, Resources>, nodes: seq<Node>) {
    forall a :: a in nodes && !a.excluded && a.group.InGroup? && a.group.id in cached ==>
        NodeResources(a) == Some(cached[a.group.id])
  }

  ghost predicate DistinctIds(quotas: seq<Quota>) {
    forall i, j :: 0 <= i < j < |quotas| ==> quotas[i].id != quotas[j].id
  }

  method AddTo(usage: Resources, delta: Resources) returns (u: Resources)
    ensures forall r :: Get(u, r) == Get(usage, r) + Get(delta, r)
  {
    u := usage;
    var todo := delta.Keys;
    while todo != {}
      invariant todo <= delta.Keys
      invariant forall r :: Get(u, r) == Get(usage, r) + if r in todo then 0 else Get(delta, r)
      decreases todo
    {
      var r :| r in todo;
      todo := todo - {r};
      u := u[r := Get(u, r) + delta[r]];
    }
  }

  type Usages = map<string, Resources>

  /** What a node adds under an identifier: its amount once for each of the first `k` quotas that have it and apply. */
  ghost function Adds(quotas: seq<Quota>, id: string, node: Node, amount: int, k: nat): int
    requires k <= |quotas|
  {
    if k == 0 then 0
    else Adds(quotas, id, node, amount, k - 1) + if quotas[k-1].id == id && quotas[k-1].appliesTo(node) then amount
        else 0
  }

  /** What the first `n` nodes add under an identifier, without the cache. */
  ghost function UsageUnder(nodes: seq<Node>, quotas: seq<Quota>, id: string, r: string, n: nat): int
    requires n <= |nodes|
  {
    if n == 0 then 0
    else UsageUnder(nodes, quotas, id, r, n - 1) + Adds(quotas, id, nodes[n-1], Tracked(nodes[n-1], r), |quotas|)
  }

  /** The amount of a resource on a tracked node. */
  ghost function Tracked(node: Node, r: string): int {
    if !node.excluded && NodeResources(node).Some? then Get(NodeResources(node).value, r) else 0
  }

  /** Without a shared identifier a node adds its amount once, if the quota applies. */
  lemma {:induction false} AddsOnce(quotas: seq<Quota>, j: nat, node: Node, amount: int, k: nat)
    requires DistinctIds(quotas) && j < |quotas| && k <= |quotas|
    ensures Adds(quotas, quotas[j].id, node, amount, k) == if j < k && quotas[j].appliesTo(node) then amount else 0
  {
    if k > 0 {
      AddsOnce(quotas, j, node, amount, k - 1);
    }
  }

  lemma {:induction false} AddsNothing(quotas: seq<Quota>, id: string, node: Node, k: nat)
    requires k <= |quotas|
    ensures Adds(quotas, id, node, 0, k) == 0
  {
    if k > 0 {
      AddsNothing(quotas, id, node, k - 1);
    }
  }

  /** Without shared identifiers the usage under one is the direct sum of its quota. */
  lemma {:induction false} UsageUnderIsDirect(nodes: seq<Node>, quotas: seq<Quota>, j: nat, r: string, n: nat)
    requires DistinctIds(quotas) && j < |quotas| && n <= |nodes|
    ensures UsageUnder(nodes, quotas, quotas[j].id, r, n) == DirectUsage(nodes, quotas[j], r, n)
  {
    if n > 0 {
      UsageUnderIsDirect(nodes, quotas, j, r, n - 1);
      AddsOnce(quotas, j, nodes[n-1], Tracked(nodes[n-1], r), |quotas|);
    }
  }

  /** Adds one node's resources for every quota that applies to it, under the quota's identifier. */
  method AddNode(usages: Usages, quotas: seq<Quota>, node: Node, delta: Resources) returns (u: Usages)
    requires forall q :: q in quotas ==> q.id in usages
    ensures u.Keys == usages.Keys
    ensures forall id, r :: id in u ==>
      Get(u[id], r) == Get(usages[id], r) + Adds(quotas, id, node, Get(delta, r), |quotas|)
  {
    u := usages;
    for i := 0 to |quotas|
      invariant u.Keys == usages.Keys
      invariant forall id, r :: id in u ==>
          Get(u[id], r) == Get(usages[id], r) + Adds(quotas, id, node, Get(delta, r), i)
    {
      assert quotas[i] in quotas;
      if quotas[i].appliesTo(node) {
        var sum := AddTo(u[quotas[i].id], delta);
        u := u[quotas[i].id := sum];
      }
    }
  }

  /** The usage under every identifier is the direct one. */
  ghost predicate UsagesAre(u: Usages, nodes: seq<Node>, quotas: seq<Quota>, n: nat)
    requires n <= |nodes|
  {
    forall id, r :: id in u ==> Get(u[id], r) == UsageUnder(nodes, quotas, id, r, n)
  }

  /** A tracked node whose group or custom resources cannot be looked up. */
  ghost predicate Unmeasurable(node: Node) {
    !node.excluded && (node.group.LookupFailed? || node.custom.None?)
  }

  ghost predicate SomeUnmeasurable(nodes: seq<Node>, n: nat)
    requires n <= |nodes|
  {
    exists i :: 0 <= i < n && Unmeasurable(nodes[i])
  }

  /** The cache after the first `n` nodes: a tracked node fills the entry of its group if there is none. */
  ghost function CacheAfter(cached: map<string, Resources>, nodes: seq<Node>, n: nat): map<string, Resources>
    requires n <= |nodes|
  {
    if n == 0 then cached
    else
      var before, node := CacheAfter(cached, nodes, n - 1), nodes[n-1];
      if node.excluded || !node.group.InGroup? || node.group.id in before || node.custom.None? then before
      else before[node.group.id := NodeResources(node).value]
  }

  /** Node `i` is the first tracked one of its group. */
  ghost predicate FirstInGroup(nodes: seq<Node>, i: nat) {
    && i < |nodes| && !nodes[i].excluded && nodes[i].group.InGroup? && nodes[i].custom.Some?
    && forall j :: 0 <= j < i ==> nodes[j].excluded || nodes[j].group != nodes[i].group || nodes[j].custom.None?
  }

  /** An empty cache ends with the resources of the first tracked node of every group. */
  lemma {:induction false} CacheHoldsFirst(nodes: seq<Node>, n: nat, i: nat)
    requires n <= |nodes| && FirstInGroup(nodes, i)
    ensures var id, c := nodes[i].group.id, CacheAfter(map[], nodes, n);
      (id in c <==> i < n) && (i < n ==> Some(c[id]) == NodeResources(nodes[i]))
  {
    if n > 0 {
      CacheHoldsFirst(nodes, n - 1, i);
    }
  }

  /** Despite the cache, the usage of every quota is the direct sum when groups are uniform. */
  method CalculateUsages(cache: NodeResourcesCache, nodes: seq<Node>, quotas: seq<Quota>) returns (u: Option<Usages>)
    modifies cache
    ensures u.Some? ==> forall q :: q in quotas ==> q.id in u.value
    ensures u.None? ==> SomeUnmeasurable(nodes, |nodes|)
    ensures Uniform(nodes) && old(Agrees(cache.resources, nodes)) ==> (u.None? <==> SomeUnmeasurable(nodes, |nodes|))
    ensures u.Some? && Uniform(nodes) && old(Agrees(cache.resources, nodes)) ==>
      Agrees(cache.resources, nodes) && UsagesAre(u.value, nodes, quotas, |nodes|)
    ensures u.Some? && Uniform(nodes) && old(Agrees(cache.resources, nodes)) && DistinctIds(quotas) ==>
      forall q, r :: q in quotas ==> Get(u.value[q.id], r) == DirectUsage(nodes, q, r, |nodes|)
    ensures old(cache.Sane()) ==> cache.Sane()
    ensures u.Some? ==> cache.resources == CacheAfter(old(cache.resources), nodes, |nodes|)
  {
    var usages: Usages := map[];
    for i := 0 to |quotas|
      invariant forall j :: 0 <= j < i ==> quotas[j].id in usages
      invariant forall id :: id in usages ==> usages[id] == map[]
      invariant cache.resources == old(cache.resources)
    {
      usages := usages[quotas[i].id := map[]];
    }
    ghost var regular := Uniform(nodes) && Agrees(cache.resources, nodes);
    for k := 0 to |nodes|
      invariant forall q :: q in quotas ==> q.id in usages
      invariant regular ==> Agrees(cache.resources, nodes) && UsagesAre(usages, nodes, quotas, k)
      invariant regular ==> !SomeUnmeasurable(nodes, k)
      invariant cache.resources == CacheAfter(old(cache.resources), nodes, k)
      invariant old(cache.Sane()) ==> cache.Sane()
    {
      var node := nodes[k];
      ghost var prior := usages;
      if node.excluded {
        forall id, r | id in usages ensures Adds(quotas, id, node, Tracked(node, r), |quotas|) == 0 {
          AddsNothing(quotas, id, node, |quotas|);
        }
      } else {
        if node.group.LookupFailed? {
          assert Unmeasurable(nodes[k]);
          return None;
        }
        ghost var before := cache.resources;
        var delta := cache.TotalNodeResources(node, GroupOf(node));
        if delta.None? {
          assert Unmeasurable(nodes[k]);
          return None;
        }
        assert regular ==> delta == NodeResources(node);
        if regular && node.group.InGroup? {
          StillAgrees(before, nodes, node, delta.value);
        }
        usages := AddNode(usages, quotas, node, delta.value);
      }
    }
    if regular && DistinctIds(quotas) {
      forall q, r | q in quotas ensures Get(usages[q.id], r) == DirectUsage(nodes, q, r, |nodes|) {
        var j :| 0 <= j < |quotas| && quotas[j] == q;
        UsageUnderIsDirect(nodes, quotas, j, r, |nodes|);
      }
    }
    return Some(usages);
  }

  lemma StillAgrees(cached: map<string, Resources>, nodes: seq<Node>, node: Node, resources: Resources)
    requires Uniform(nodes) && Agrees(cached, nodes) && node in nodes && !node.excluded && node.group.InGroup?
    requires NodeResources(node) == Some(resources)
    ensures Agrees(cached[node.group.id := resources], nodes)
  {
  }

  // ----- headroom -----

  /** Headroom to a limit: what may still be added below a maximum, or removed above a minimum. */
  function HeadroomTo(limit: int, usage: int, isMin: bool): int {
    if isMin then Max0(usage - limit) else Max0(limit - usage)
  }

  /** The headroom leads exactly to the limit: up to a maximum, down to a minimum, and nowhere from beyond it. */
  ghost predicate LeadsTo(limit: int, usage: int, isMin: bool, left: int) {
    && left >= 0
    && (!isMin ==> if usage <= limit then usage + left == limit else left == 0)
    && (isMin ==> if usage >= limit then usage - left == limit else left == 0)
  }

  /**
    What a run takes of a headroom with which a tracker starts: a maximum is reached from below, or a minimum from
    above, exactly when nothing of the headroom is left, and never passed.
   */
  lemma ConsumedToTheLimit(h: Headrooms, qs: seq<Request>, i: nat, r: string, limit: int, usage: int, isMin: bool)
    requires Representable(h) && (forall k :: 0 <= k < |qs| ==> Bounded(qs[k])) && i < |h| && r in h[i]
    requires LeadsTo(limit, usage, isMin, h[i][r])
    ensures |RunAll(h, qs)| == |h| && r in RunAll(h, qs)[i]
    ensures var taken, left := Taken(h, qs, i, r), RunAll(h, qs)[i][r];
      && (!isMin && usage <= limit ==> usage + taken <= limit && (usage + taken == limit <==> left == 0))
      && (isMin && usage >= limit ==> usage - taken >= limit && (usage - taken == limit <==> left == 0))
      && ((if isMin then usage < limit else usage > limit) ==> taken == 0)
  {
    RunConserves(h, qs, i, r);
  }

  method CalculateHeadroom(limits: Resources, usage: Resources, isMin: bool) returns (left: Resources)
    ensures left.Keys == limits.Keys
    ensures forall r :: r in limits ==> left[r] == HeadroomTo(limits[r], Get(usage, r), isMin)
    ensures forall r :: r in limits ==> LeadsTo(limits[r], Get(usage, r), isMin, left[r])
  {
    left := map[];
    var todo := limits.Keys;
    while todo != {}
      invariant todo <= limits.Keys && left.Keys == limits.Keys - todo
      invariant forall r :: r in left ==> left[r] == HeadroomTo(limits[r], Get(usage, r), isMin)
      decreases todo
    {
      var r :| r in todo;
      todo := todo - {r};
      left := left[r := HeadroomTo(limits[r], Get(usage, r), isMin)];
    }
  }

  class QuotaStatus {
    const quota: Quota
    var limitsLeft: Resources

    constructor (quota: Quota, left: Resources)
      ensures this.quota == quota && limitsLeft == left
    {
      this.quota, limitsLeft := quota, left;
    }
  }

  datatype ExceededQuota = ExceededQuota(id: string, resources: set<string>)

  datatype CheckDeltaResult = CheckDeltaResult(allowedDelta: int, exceeded: seq<ExceededQuota>)

  datatype Consumption = NegativeDelta | ResourcesUnknown | Checked(result: CheckDeltaResult)

  ghost function Lefts(statuses: seq<QuotaStatus>): (h: Headrooms)
    reads statuses
    ensures |h| == |statuses| && forall i :: 0 <= i < |h| ==> h[i] == statuses[i].limitsLeft
  {
    if statuses == [] then [] else Lefts(statuses[..|statuses|-1]) + [statuses[|statuses|-1].limitsLeft]
  }

  ghost function MatchingSet(statuses: seq<QuotaStatus>, node: Node): set<nat> {
    set i: nat | i < |statuses| && statuses[i].quota.appliesTo(node)
  }

  /** The flagged resources of quota `i`. */
  ghost function FlaggedOf(h: Headrooms, matching: set<nat>, delta: Resources, n: int, i: nat): set<string> {
    set r | r in delta && Flagged(h, matching, delta, n, i, r)
  }

  ghost function Indices(matching: seq<nat>): set<nat> {
    set i | i in matching
  }

  class Tracker {
    const statuses: seq<QuotaStatus>
    const cache: NodeResourcesCache

    constructor (statuses: seq<QuotaStatus>, cache: NodeResourcesCache)
      ensures this.statuses == statuses && this.cache == cache
    {
      this.statuses, this.cache := statuses, cache;
    }

    ghost predicate Valid() {
      forall i, j :: 0 <= i < j < |statuses| ==> statuses[i] != statuses[j]
    }

    method MatchingQuotaStatuses(node: Node) returns (matching: seq<nat>)
      ensures Indices(matching) == MatchingSet(statuses, node)
      ensures forall a, b :: 0 <= a < b < |matching| ==> matching[a] < matching[b]
      ensures forall a :: 0 <= a < |matching| ==> matching[a] < |statuses|
    {
      matching := [];
      for i := 0 to |statuses|
        invariant forall k: nat :: k in matching <==> k < i && statuses[k].quota.appliesTo(node)
        invariant forall a, b :: 0 <= a < b < |matching| ==> matching[a] < matching[b]
        invariant forall a :: 0 <= a < |matching| ==> matching[a] < i
      {
        if statuses[i].quota.appliesTo(node) {
          matching := matching + [i];
        }
      }
    }

    /** One quota of the check: the running minimum and the exceeded resources. */
    method CheckOne(delta: Resources, i: nat, ghost matching: set<nat>, n: int, allowed: int)
        returns (m: int, exceeded: set<string>)
      requires i < |statuses| && i in matching
      ensures exceeded == FlaggedOf(Lefts(statuses), matching, delta, n, i)
      ensures m <= allowed && (forall r :: r in exceeded ==> m <= statuses[i].limitsLeft[r] / delta[r])
      ensures m == allowed || exists r :: r in exceeded && m == statuses[i].limitsLeft[r] / delta[r]
    {
      m, exceeded := allowed, {};
      var todo := delta.Keys;
      while todo != {}
        invariant todo <= delta.Keys
        invariant exceeded == FlaggedOf(Lefts(statuses), matching, delta, n, i) - todo
        invariant m <= allowed && (forall r :: r in exceeded ==> m <= statuses[i].limitsLeft[r] / delta[r])
        invariant m == allowed || exists r :: r in exceeded && m == statuses[i].limitsLeft[r] / delta[r]
        decreases todo
      {
        var r :| r in todo;
        todo := todo - {r};
        var left := statuses[i].limitsLeft;
        if delta[r] > 0 && r in left && left[r] < Int64(delta[r] * n) {
          assert Flagged(Lefts(statuses), matching, delta, n, i, r);
          var fit := left[r] / delta[r];
          m := if fit < m then fit else m;
          exceeded := exceeded + {r};
        }
      }
    }

    /** The exceeded quotas among the first `k` matching ones, each with exactly its flagged resources. */
    ghost function ExceededUpTo(h: Headrooms, matching: seq<nat>, delta: Resources, n: int, k: nat): seq<ExceededQuota>
      requires k <= |matching| && forall a :: 0 <= a < |matching| ==> matching[a] < |statuses|
    {
      if k == 0 then []
      else
        var i := matching[k-1];
        var flagged := FlaggedOf(h, Indices(matching), delta, n, i);
        ExceededUpTo(h, matching, delta, n, k - 1) + if flagged == {} then []
            else [ExceededQuota(statuses[i].quota.id, flagged)]
    }

    lemma {:induction false} ExceededEmpty(h: Headrooms, matching: seq<nat>, delta: Resources, n: int, k: nat)
      requires k <= |matching| && forall a :: 0 <= a < |matching| ==> matching[a] < |statuses|
      ensures ExceededUpTo(h, matching, delta, n, k) == [] <==>
              forall a :: 0 <= a < k ==> FlaggedOf(h, Indices(matching), delta, n, matching[a]) == {}
    {
      if k > 0 {
        ExceededEmpty(h, matching, delta, n, k - 1);
      }
    }

    /** One of the two results of the check after the first `k` quotas. */
    ghost predicate ProgressIn(h: Headrooms, matching: seq<nat>, delta: Resources, n: int, k: nat, m: int,
        exceeded: seq<ExceededQuota>, minimum: bool)
      requires k <= |matching| && forall a :: 0 <= a < |matching| ==> matching[a] < |statuses|
    {
      if minimum then CheckedUpTo(h, matching, delta, n, k, m) else exceeded == ExceededUpTo(h, matching, delta, n, k)
    }

    ghost predicate Progress(h: Headrooms, matching: seq<nat>, delta: Resources, n: int, k: nat, m: int,
        exceeded: seq<ExceededQuota>)
      requires k <= |matching| && forall a :: 0 <= a < |matching| ==> matching[a] < |statuses|
    {
      forall minimum: bool :: ProgressIn(h, matching, delta, n, k, m, exceeded, minimum)
    }

    lemma ProgressMeans(h: Headrooms, matching: seq<nat>, delta: Resources, n: int, k: nat, m: int,
        exceeded: seq<ExceededQuota>)
      requires k <= |matching| && forall a :: 0 <= a < |matching| ==> matching[a] < |statuses|
      ensures Progress(h, matching, delta, n, k, m, exceeded) <==>
        CheckedUpTo(h, matching, delta, n, k, m) && exceeded == ExceededUpTo(h, matching, delta, n, k)
    {
      assert ProgressIn(h, matching, delta, n, k, m, exceeded, true) <==> CheckedUpTo(h, matching, delta, n, k, m);
      assert ProgressIn(h, matching, delta, n, k, m, exceeded, false) <==>
        exceeded == ExceededUpTo(h, matching, delta, n, k);
    }

    /** The headrooms of the statuses, one by one. */
    ghost predicate Holds(h: Headrooms)
      reads statuses
    {
      |h| == |statuses| && forall i :: 0 <= i < |h| ==> h[i] == statuses[i].limitsLeft
    }

    /** One more matching quota: the running minimum and the list of exceeded quotas. */
    method CheckNext(delta: Resources, matching: seq<nat>, n: int, k: nat, allowed: int, exceeded: seq<ExceededQuota>,
        ghost h: Headrooms)
        returns (m: int, next: seq<ExceededQuota>)
      requires k < |matching| && (forall a :: 0 <= a < |matching| ==> matching[a] < |statuses|) && Holds(h)
      requires Progress(h, matching, delta, n, k, allowed, exceeded)
      ensures Progress(h, matching, delta, n, k + 1, m, next)
    {
      var i := matching[k];
      var resources;
      ProgressMeans(h, matching, delta, n, k, allowed, exceeded);
      assert Lefts(statuses) == h;
      m, resources := CheckOne(delta, i, Indices(matching), n, allowed);
      CheckedStep(h, matching, delta, n, k, allowed, m);
      next := exceeded;
      if resources != {} {
        next := next + [ExceededQuota(statuses[i].quota.id, resources)];
      }
      ProgressMeans(h, matching, delta, n, k + 1, m, next);
    }

    method CheckInOrder(delta: Resources, matching: seq<nat>, n: int)
        returns (allowed: int, exceeded: seq<ExceededQuota>)
      requires forall a :: 0 <= a < |matching| ==> matching[a] < |statuses|
      ensures Progress(Lefts(statuses), matching, delta, n, |matching|, allowed, exceeded)
    {
      ghost var h := Lefts(statuses);
      allowed, exceeded := n, [];
      ProgressMeans(h, matching, delta, n, 0, n, []);
      for k := 0 to |matching|
        invariant Holds(h) && Progress(h, matching, delta, n, k, allowed, exceeded)
      {
        allowed, exceeded := CheckNext(delta, matching, n, k, allowed, exceeded, h);
      }
    }

    lemma CheckEnds(h: Headrooms, matching: seq<nat>, delta: Resources, n: int, allowed: int)
      requires forall a :: 0 <= a < |matching| ==> matching[a] < |statuses|
      requires CheckedUpTo(h, matching, delta, n, |matching|, allowed)
      ensures Allows(h, Indices(matching), delta, n, allowed)
      ensures ExceededUpTo(h, matching, delta, n, |matching|) != [] <==> AnyFlagged(h, Indices(matching), delta, n)
    {
      CheckedAll(h, matching, delta, n, allowed);
      ExceededEmpty(h, matching, delta, n, |matching|);
    }

    method CheckQuota(delta: Resources, matching: seq<nat>, n: int) returns (result: CheckDeltaResult)
      requires forall a :: 0 <= a < |matching| ==> matching[a] < |statuses|
      ensures Allows(Lefts(statuses), Indices(matching), delta, n, result.allowedDelta)
      ensures result.exceeded != [] <==> AnyFlagged(Lefts(statuses), Indices(matching), delta, n)
      ensures result.exceeded == ExceededUpTo(Lefts(statuses), matching, delta, n, |matching|)
    {
      var allowed, exceeded := CheckInOrder(delta, matching, n);
      ProgressMeans(Lefts(statuses), matching, delta, n, |matching|, allowed, exceeded);
      CheckEnds(Lefts(statuses), matching, delta, n, allowed);
      result := CheckDeltaResult(allowed, exceeded);
    }

    /** All or nothing: the headrooms change only when the whole delta is allowed. */
    method ConsumeQuota(node: Node, group: Option<string>, n: int) returns (c: Consumption)
      requires Valid()
      modifies statuses, cache
      ensures c == NegativeDelta <==> n < 0
      ensures c == ResourcesUnknown <==> n >= 0 && ResourcesFor(old(cache.resources), node, group).None?
      ensures old(cache.Sane()) ==> cache.Sane()
      ensures !c.Checked? ==> Lefts(statuses) == old(Lefts(statuses))
      ensures c.Checked? ==>
        var delta := ResourcesFor(old(cache.resources), node, group);
        && delta.Some?
        && ConsumedAs(old(Lefts(statuses)), Lefts(statuses), MatchingSet(statuses, node), delta.value, n, c.result)
    {
      if n < 0 {
        return NegativeDelta;
      }
      var resources := cache.TotalNodeResources(node, group);
      if resources.None? {
        return ResourcesUnknown;
      }
      var delta := resources.value;
      var matching := MatchingQuotaStatuses(node);
      var result := CheckQuota(delta, matching, n);
      if result.allowedDelta == n {
        Apply(matching, delta, n);
      }
      assert ConsumedAs(old(Lefts(statuses)), Lefts(statuses), MatchingSet(statuses, node), delta, n, result);
      return Checked(result);
    }

    method Apply(matching: seq<nat>, delta: Resources, n: int)
      requires Valid() && forall a :: 0 <= a < |matching| ==> matching[a] < |statuses|
      requires forall a, b :: 0 <= a < b < |matching| ==> matching[a] < matching[b]
      modifies statuses
      ensures Lefts(statuses) == Granted(old(Lefts(statuses)), Indices(matching), delta, n)
    {
      ghost var h := Lefts(statuses);
      for k := 0 to |matching|
        invariant forall i :: 0 <= i < |statuses| ==>
          statuses[i].limitsLeft == if i in matching[..k] then Reduced(h[i], delta, n) else h[i]
      {
        var status := statuses[matching[k]];
        assert matching[k] !in matching[..k] && matching[..k+1] == matching[..k] + [matching[k]];
        var left := ReduceLeft(status.limitsLeft, delta, n);
        status.limitsLeft := left;
      }
      assert matching[..|matching|] == matching;
    }
  }

  method ReduceLeft(left: Resources, delta: Resources, n: int) returns (u: Resources)
    ensures u == Reduced(left, delta, n)
  {
    u := left;
    var todo := delta.Keys;
    while todo != {}
      invariant todo <= delta.Keys && u.Keys == left.Keys
      invariant forall r :: r in left ==>
          u[r] == if r in delta && r !in todo then LeftAfter(left[r], n * delta[r]) else left[r]
      decreases todo
    {
      var r :| r in todo;
      todo := todo - {r};
      if r in u {
        u := u[r := LeftAfter(u[r], n * delta[r])];
      }
    }
  }

  /** The result of a check, and the headrooms after acting on it. */
  ghost predicate ConsumedAs(before: Headrooms, after: Headrooms, matching: set<nat>, delta: Resources, n: int,
      result: CheckDeltaResult) {
    && Allows(before, matching, delta, n, result.allowedDelta)
    && after == (if result.allowedDelta == n then Granted(before, matching, delta, n) else before)
    && (result.exceeded != [] <==> AnyFlagged(before, matching, delta, n))
  }

  /** `m` is the least quotient among the flagged entries of the first `k` matching quotas, or `n`. */
  ghost predicate CheckedUpTo(h: Headrooms, matching: seq<nat>, delta: Resources, n: int, k: nat, m: int) {
    && k <= |matching| && m <= n
    && (forall a, r :: 0 <= a < k && Flagged(h, Indices(matching), delta, n, matching[a], r) ==>
        m <= h[matching[a]][r] / delta[r])
    && (m == n || exists a, r ::
        0 <= a < k && Flagged(h, Indices(matching), delta, n, matching[a], r) && m == h[matching[a]][r] / delta[r])
  }

  lemma CheckedStep(h: Headrooms, matching: seq<nat>, delta: Resources, n: int, k: nat, allowed: int, m: int)
    requires CheckedUpTo(h, matching, delta, n, k, allowed) && k < |matching| && matching[k] < |h|
    requires var i := matching[k]; var flagged := FlaggedOf(h, Indices(matching), delta, n, i);
      && m <= allowed && (forall r :: r in flagged ==> m <= h[i][r] / delta[r])
      && (m == allowed || exists r :: r in flagged && m == h[i][r] / delta[r])
    ensures CheckedUpTo(h, matching, delta, n, k + 1, m)
  {
    var i, s := matching[k], Indices(matching);
    forall a, r | 0 <= a < k + 1 && Flagged(h, s, delta, n, matching[a], r) ensures m <= h[matching[a]][r] / delta[r] {
      if a == k { assert r in FlaggedOf(h, s, delta, n, i); }
    }
    if m != allowed {
      var r :| r in FlaggedOf(h, s, delta, n, i) && m == h[i][r] / delta[r];
      assert Flagged(h, s, delta, n, matching[k], r);
    } else if m != n {
      var a, r :| 0 <= a < k && Flagged(h, s, delta, n, matching[a], r) && allowed == h[matching[a]][r] / delta[r];
      assert 0 <= a < k + 1;
    }
  }

  lemma CheckedAll(h: Headrooms, matching: seq<nat>, delta: Resources, n: int, m: int)
    ensures CheckedUpTo(h, matching, delta, n, |matching|, m) ==> Allows(h, Indices(matching), delta, n, m)
    ensures AnyFlagged(h, Indices(matching), delta, n) <==>
            !(forall a :: 0 <= a < |matching| ==> FlaggedOf(h, Indices(matching), delta, n, matching[a]) == {})
  {
    var s := Indices(matching);
    forall i: nat, r | Flagged(h, s, delta, n, i, r)
      ensures CheckedUpTo(h, matching, delta, n, |matching|, m) ==> m <= h[i][r] / delta[r]
      ensures exists a :: 0 <= a < |matching| && FlaggedOf(h, s, delta, n, matching[a]) != {}
    {
      var a :| 0 <= a < |matching| && matching[a] == i;
      assert r in FlaggedOf(h, s, delta, n, matching[a]);
    }
    forall a | 0 <= a < |matching| && FlaggedOf(h, s, delta, n, matching[a]) != {}
      ensures AnyFlagged(h, s, delta, n)
    {
      var r :| r in FlaggedOf(h, s, delta, n, matching[a]);
      assert Flagged(h, s, delta, n, matching[a], r);
    }
  }

  /** In exact arithmetic, acting on a check is the all-or-nothing consumption. */
  lemma ConsumedIsConsume(before: Headrooms, after: Headrooms, matching: set<nat>, delta: Resources, n: nat,
      result: CheckDeltaResult)
    requires Representable(before) && Bounded(Request(delta, matching, n))
        && ConsumedAs(before, after, matching, delta, n, result)
    ensures after == Consume(before, Request(delta, matching, n))
    ensures result.exceeded != [] <==> result.allowedDelta < n
  {
    assert forall i: nat, r :: Bears(before, matching, delta, i, r) ==> delta[r] * n == n * delta[r];
    NarrowProductsAreSeen(before, matching, delta, n);
    AllowedExactlyWhen(before, matching, delta, n, result.allowedDelta);
  }

  /** One request to a tracker. */
  datatype Call = Call(node: Node, group: Option<string>, nodes: int)

  /** Two answers of one check are the same. */
  lemma AllowsOnce(h: Headrooms, matching: set<nat>, delta: Resources, n: int, m: int)
    requires Allows(h, matching, delta, n, m)
    ensures m == n <==> Allows(h, matching, delta, n, n)
  {
  }

  /** The k-th call made the k-th request. */
  ghost predicate AskedAt(statuses: seq<QuotaStatus>, calls: seq<Call>, results: seq<Consumption>, qs: seq<Request>,
      k: nat)
    requires k < |calls| && k < |results| && k < |qs|
  {
    NonNegative(qs[k].delta) && Asks(statuses, calls[k], results[k], qs[k])
  }

  /** The headrooms of a run of 64-bit requests are those of the abstract run. */
  ghost predicate RunsAsSpecified(h: Headrooms, qs: seq<Request>, g: Headrooms) {
    Representable(h) && (forall k :: 0 <= k < |qs| ==> Bounded(qs[k])) ==> g == RunAll(h, qs)
  }

  /** A tracker driven through calls acts on one request per call; those that were not checked ask for nothing. */
  method ConsumeAll(t: Tracker, calls: seq<Call>) returns (results: seq<Consumption>, qs: seq<Request>)
    requires t.Valid() && t.cache.Sane()
    modifies t.statuses, t.cache
    ensures |results| == |qs| == |calls| && t.cache.Sane()
    ensures forall k :: 0 <= k < |calls| ==> AskedAt(t.statuses, calls, results, qs, k)
    ensures Lefts(t.statuses) == ActAll(old(Lefts(t.statuses)), qs)
    ensures RunsAsSpecified(old(Lefts(t.statuses)), qs, Lefts(t.statuses))
  {
    results, qs := ConsumeInOrder(t, calls);
    if Representable(old(Lefts(t.statuses))) && forall k :: 0 <= k < |qs| ==> Bounded(qs[k]) {
      ActAllIsRunAll(old(Lefts(t.statuses)), qs);
    }
  }

  method ConsumeInOrder(t: Tracker, calls: seq<Call>) returns (results: seq<Consumption>, qs: seq<Request>)
    requires t.Valid() && t.cache.Sane()
    modifies t.statuses, t.cache
    ensures |results| == |qs| == |calls| && t.cache.Sane()
    ensures forall k :: 0 <= k < |calls| ==> AskedAt(t.statuses, calls, results, qs, k)
    ensures Lefts(t.statuses) == ActAll(old(Lefts(t.statuses)), qs)
  {
    results, qs := [], [];
    ghost var h := Lefts(t.statuses);
    for k := 0 to |calls|
      invariant |results| == |qs| == k && t.cache.Sane()
      invariant forall j :: 0 <= j < k ==> AskedAt(t.statuses, calls, results, qs, j)
      invariant Lefts(t.statuses) == ActAll(h, qs)
    {
      var c, q := ConsumeOne(t, calls[k]);
      ActAllSnoc(h, qs, q);
      AskedMore(t.statuses, calls, results, qs, c, q);
      results, qs := results + [c], qs + [q];
    }
  }

  lemma AskedMore(statuses: seq<QuotaStatus>, calls: seq<Call>, results: seq<Consumption>, qs: seq<Request>,
      c: Consumption, q: Request)
    requires |results| == |qs| < |calls| && (forall j :: 0 <= j < |qs| ==> AskedAt(statuses, calls, results, qs, j))
    requires NonNegative(q.delta) && Asks(statuses, calls[|qs|], c, q)
    ensures forall j :: 0 <= j < |qs| + 1 ==> AskedAt(statuses, calls, results + [c], qs + [q], j)
  {
    forall j | 0 <= j < |qs| ensures AskedAt(statuses, calls, results + [c], qs + [q], j) {
      assert AskedAt(statuses, calls, results, qs, j);
    }
  }

  /** The request that a call makes, and its result. */
  ghost predicate Asks(statuses: seq<QuotaStatus>, call: Call, c: Consumption, q: Request) {
    if c.Checked? then q.matching == MatchingSet(statuses, call.node) && q.nodes == call.nodes else q == NOTHING
  }

  method ConsumeOne(t: Tracker, call: Call) returns (c: Consumption, q: Request)
    requires t.Valid() && t.cache.Sane()
    modifies t.statuses, t.cache
    ensures t.cache.Sane() && NonNegative(q.delta) && Asks(t.statuses, call, c, q)
    ensures Lefts(t.statuses) == Acted(old(Lefts(t.statuses)), q)
  {
    ghost var before := Lefts(t.statuses);
    var cached := t.cache.resources;
    c := t.ConsumeQuota(call.node, call.group, call.nodes);
    NothingActs(before);
    q := NOTHING;
    if c.Checked? {
      NodeResourcesNonNegative(call.node);
      var delta := ResourcesFor(cached, call.node, call.group).value;
      var matching := set i: nat | i < |t.statuses| && t.statuses[i].quota.appliesTo(call.node);
      q := Request(delta, matching, call.nodes);
      AllowsOnce(before, matching, delta, call.nodes, c.result.allowedDelta);
    }
  }

  /** The numbers of the quotas and of the nodes under them are natural 64-bit ones. */
  ghost predicate SmallNumbers(nodes: seq<Node>, quotas: seq<Quota>) {
    forall i, r :: 0 <= i < |quotas| && r in quotas[i].limits ==>
      0 <= quotas[i].limits[r] < TWO_63 && 0 <= UsageUnder(nodes, quotas, quotas[i].id, r, |nodes|) < TWO_63
  }

  /** A headroom is the distance between the limit and the direct sum over the nodes, and leads exactly there. */
  ghost predicate StartsAt(h: Headrooms, nodes: seq<Node>, quotas: seq<Quota>, isMin: bool, i: nat, r: string)
    requires i < |h| == |quotas| && r in quotas[i].limits && r in h[i]
  {
    var limit, usage := quotas[i].limits[r], UsageUnder(nodes, quotas, quotas[i].id, r, |nodes|);
    && h[i][r] == HeadroomTo(limit, usage, isMin) && LeadsTo(limit, usage, isMin, h[i][r])
    && (DistinctIds(quotas) ==> LeadsTo(limit, DirectUsage(nodes, quotas[i], r, |nodes|), isMin, h[i][r]))
  }

  /** The headrooms of a new tracker. */
  ghost predicate StartsAsMeasured(h: Headrooms, nodes: seq<Node>, quotas: seq<Quota>, isMin: bool) {
    && |h| == |quotas| && (forall i :: 0 <= i < |h| ==> h[i].Keys == quotas[i].limits.Keys && NonNegative(h[i]))
    && (Uniform(nodes) ==>
          && (forall i, r :: 0 <= i < |h| && r in quotas[i].limits ==> StartsAt(h, nodes, quotas, isMin, i, r))
          && (SmallNumbers(nodes, quotas) ==> Representable(h)))
  }

  lemma MeasuredStart(h: Headrooms, usages: Usages, nodes: seq<Node>, quotas: seq<Quota>, isMin: bool)
    requires |h| == |quotas| && (forall q :: q in quotas ==> q.id in usages)
    requires forall i :: 0 <= i < |h| ==> h[i].Keys == quotas[i].limits.Keys
    requires forall i, r :: 0 <= i < |h| && r in quotas[i].limits ==>
      quotas[i] in quotas && h[i][r] == HeadroomTo(quotas[i].limits[r], Get(usages[quotas[i].id], r), isMin)
    requires Uniform(nodes) ==> UsagesAre(usages, nodes, quotas, |nodes|)
    ensures StartsAsMeasured(h, nodes, quotas, isMin)
  {
    if Uniform(nodes) {
      forall i, r | 0 <= i < |h| && r in quotas[i].limits ensures StartsAt(h, nodes, quotas, isMin, i, r) {
        assert quotas[i] in quotas;
        if DistinctIds(quotas) {
          UsageUnderIsDirect(nodes, quotas, i, r, |nodes|);
        }
      }
      if SmallNumbers(nodes, quotas) {
        RepresentableStart(h, nodes, quotas, isMin);
      }
    }
  }

  /** Headrooms between natural 64-bit numbers are natural 64-bit numbers. */
  lemma RepresentableStart(h: Headrooms, nodes: seq<Node>, quotas: seq<Quota>, isMin: bool)
    requires |h| == |quotas| && SmallNumbers(nodes, quotas)
    requires forall i :: 0 <= i < |h| ==> h[i].Keys == quotas[i].limits.Keys
    requires forall i, r :: 0 <= i < |h| && r in quotas[i].limits ==> StartsAt(h, nodes, quotas, isMin, i, r)
    ensures Representable(h)
  {
    forall i: nat, r | i < |h| && r in h[i] ensures 0 <= h[i][r] < TWO_63 {
      assert StartsAt(h, nodes, quotas, isMin, i, r);
    }
  }

  /** Builds a tracker; each headroom is the distance of the direct usage to the limit. */
  method NewQuotasTracker(nodes: seq<Node>, quotas: seq<Quota>, isMin: bool) returns (t: Tracker?)
    ensures t == null ==> SomeUnmeasurable(nodes, |nodes|)
    ensures Uniform(nodes) ==> (t == null <==> SomeUnmeasurable(nodes, |nodes|))
    ensures t != null ==> t.Valid() && |t.statuses| == |quotas| && t.cache.Sane()
    ensures t != null ==> forall i :: 0 <= i < |quotas| ==> t.statuses[i].quota == quotas[i]
    ensures t != null ==> t.cache.resources == CacheAfter(map[], nodes, |nodes|)
    ensures t != null ==> StartsAsMeasured(Lefts(t.statuses), nodes, quotas, isMin)
  {
    var cache := new NodeResourcesCache();
    var usages := CalculateUsages(cache, nodes, quotas);
    if usages.None? {
      return null;
    }
    var statuses := StatusesFor(quotas, usages.value, isMin);
    forall i, r | 0 <= i < |quotas| && r in quotas[i].limits
      ensures quotas[i] in quotas
        && Lefts(statuses)[i][r] == HeadroomTo(quotas[i].limits[r], Get(usages.value[quotas[i].id], r), isMin)
    {
    }
    MeasuredStart(Lefts(statuses), usages.value, nodes, quotas, isMin);
    t := new Tracker(statuses, cache);
  }

  /** One status per quota. */
  method StatusesFor(quotas: seq<Quota>, usages: Usages, isMin: bool) returns (statuses: seq<QuotaStatus>)
    requires forall q :: q in quotas ==> q.id in usages
    ensures |statuses| == |quotas|
    ensures forall j :: 0 <= j < |quotas| ==> fresh(statuses[j]) && statuses[j].quota == quotas[j]
    ensures forall j, k :: 0 <= j < k < |quotas| ==> statuses[j] != statuses[k]
    ensures forall j :: 0 <= j < |quotas| ==> statuses[j].limitsLeft.Keys == quotas[j].limits.Keys
    ensures forall j, r :: 0 <= j < |quotas| && r in quotas[j].limits ==>
      statuses[j].limitsLeft[r] == HeadroomTo(quotas[j].limits[r], Get(usages[quotas[j].id], r), isMin)
  {
    statuses := [];
    for i := 0 to |quotas|
      invariant |statuses| == i
      invariant forall j :: 0 <= j < i ==> fresh(statuses[j]) && statuses[j].quota == quotas[j]
      invariant forall j, k :: 0 <= j < k < i ==> statuses[j] != statuses[k]
      invariant forall j :: 0 <= j < i ==> statuses[j].limitsLeft.Keys == quotas[j].limits.Keys
      invariant forall j, r :: 0 <= j < i && r in quotas[j].limits ==>
        statuses[j].limitsLeft[r] == HeadroomTo(quotas[j].limits[r], Get(usages[quotas[j].id], r), isMin)
    {
      assert quotas[i] in quotas;
      var left := CalculateHeadroom(quotas[i].limits, usages[quotas[i].id], isMin);
      var status := new QuotaStatus(quotas[i], left);
      statuses := statuses + [status];
    }
  }
}
