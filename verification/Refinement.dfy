/**
  The arithmetic fast path refines the node-by-node simulation: when fitting depends only on what
  is on the node, both place the same pods on the same number of counted nodes, also when the
  limiter refuses part way. The reference both are compared with fills one node after another.
 */
module Refinement {
  import opened Snapshots
  import opened Limiter
  import opened Estimation
  import opened Packing
  import AnyFit

  function Specs(pods: seq<Pod>): seq<Spec> {
    seq(|pods|, i requires 0 <= i < |pods| => pods[i].spec)
  }

  function Bare(n: NodeInfo): NodeInfo {
    n.(pods := [])
  }

  /** Fitting is decided on the node alone, by the node and the requirements of its pods. */
  ghost predicate NodeLocal(w: World, rule: (NodeInfo, seq<Spec>, Spec) -> bool) {
    && w.Sound()
    && forall c: Cluster, p: Pod, n: NodeName :: n in c ==>
         && w.check(c, p, n) != Broken
         && (w.check(c, p, n) == Fits <==> rule(Bare(c[n]), Specs(c[n].pods), p.spec))
  }

  /** Whether one more pod fits the template when `i` such pods are on it. */
  ghost predicate FitsMore(rule: (NodeInfo, seq<Spec>, Spec) -> bool, t: NodeInfo, spec: Spec, i: nat) {
    rule(Bare(t), Specs(t.pods) + seq(i, _ => spec), spec)
  }

  /** How many of at most `n` identical pods a added node takes, counting from `i`. */
  ghost function Capacity(rule: (NodeInfo, seq<Spec>, Spec) -> bool, t: NodeInfo, spec: Spec, i: nat, n: nat): (k: nat)
    requires i <= n
    ensures i <= k <= n
    ensures forall j :: i <= j < k ==> FitsMore(rule, t, spec, j)
    ensures k < n ==> !FitsMore(rule, t, spec, k)
    decreases n - i
  {
    if i < n && FitsMore(rule, t, spec, i) then Capacity(rule, t, spec, i + 1, n) else i
  }

  /** The node is the template with `i` pods of this kind on it. */
  ghost predicate Holds(e: Est, n: NodeName, t: NodeInfo, spec: Spec, i: nat) {
    && n in e.cluster
    && Bare(e.cluster[n]) == Bare(t)
    && Specs(e.cluster[n].pods) == Specs(t.pods) + seq(i, _ => spec)
  }

  // ----- the reference -----

  /** Pods placed, nodes opened, and the budget left. */
  datatype Outcome = Outcome(placed: nat, nodes: nat, budget: Budget, more: bool) {
    function Plus(pods: nat, opens: nat): Outcome {
      this.(placed := pods + placed, nodes := opens + nodes)
    }
  }

  /** A budget that limits only the number of nodes. */
  ghost predicate CountOnly(b: Budget) {
    b.maxDuration == 0
  }

  /** Filling nodes with `k` pods each until the pods or the permissions run out. */
  ghost function Chunked(b: Budget, n: nat, k: nat): (o: Outcome)
    requires k > 0
    ensures o.placed <= n
    decreases n
  {
    if n == 0 then Outcome(0, 0, b, true)
    else if !b.Grants(0) then Outcome(0, 0, b.Next(0), false)
    else
      var q := if k < n then k else n;
      Chunked(b.Next(0), n - q, k).Plus(q, 1)
  }

  /** As above, when the current node already holds `i` of its `k` pods. */
  ghost function Continued(b: Budget, n: nat, i: nat, k: nat): (o: Outcome)
    requires i <= k && k > 0
    ensures o.placed <= n
  {
    var q := if k - i < n then k - i else n;
    Chunked(b, n - q, k).Plus(q, 0)
  }

  lemma ContinuedStep(b: Budget, n: nat, i: nat, k: nat)
    requires i <= k && k > 0 && n > 0
    ensures i < k ==> Continued(b, n, i, k) == Continued(b, n - 1, i + 1, k).Plus(1, 0)
    ensures i == k && b.Grants(0) ==> Continued(b, n, i, k) == Continued(b.Next(0), n - 1, 1, k).Plus(1, 1)
    ensures i == k && !b.Grants(0) ==> Continued(b, n, i, k) == Outcome(0, 0, b.Next(0), false)
  {
  }

  /** `r` is the state `e` after the outcome `o` on `pods`. */
  ghost predicate Matches(e: Est, r: Step, pods: seq<Pod>, o: Outcome) {
    && r.Step? && r.more == o.more && r.e.budget == o.budget
    && o.placed <= |pods| && r.e.scheduled == e.scheduled + pods[..o.placed]
    && |r.e.withPods| == |e.withPods| + o.nodes
  }

  lemma MatchesOne(e: Est, e1: Est, r: Step, pods: seq<Pod>, o: Outcome, added: nat)
    requires pods != [] && e1.scheduled == e.scheduled + [pods[0]] && |e1.withPods| == |e.withPods| + added
    requires Matches(e1, r, pods[1..], o)
    ensures Matches(e, r, pods, o.Plus(1, added))
  {
    assert [pods[0]] + pods[1..][..o.placed] == pods[..1 + o.placed];
  }

  // ----- the node-by-node simulation -----

  /** Names still to be used are free, and no counted node is a pretended one. */
  ghost predicate Orderly(e: Est, t: NodeInfo) {
    && (forall j :: e.nextIndex <= j ==> Simulated(j) !in e.cluster)
    && e.withPods <= e.cluster.Keys
    && e.newNodes <= e.cluster.Keys
    && (e.last.Some? ==> e.last.value in e.newNodes)
    && (forall n :: n in e.newNodes && n !in e.withPods ==> e.cluster[n] == t)
    && (forall n :: n in e.cluster ==> !n.Fake?)
  }

  /** The current node holds `i` pods of this kind, or cannot take one although it carries pods. */
  ghost predicate Current(e: Est, rule: (NodeInfo, seq<Spec>, Spec) -> bool, t: NodeInfo, spec: Spec, i: nat, k: nat,
      room: int) {
    || (e.last.Some? && e.last.value in e.withPods && Holds(e, e.last.value, t, spec, i) && i <= room)
    || (i == k && e.last.None?)
    || (i == k && e.last.Some? && e.last.value in e.withPods && e.last.value in e.cluster
        && !rule(Bare(e.cluster[e.last.value]), Specs(e.cluster[e.last.value].pods), spec))
  }

  lemma HoldsMore(e: Est, n: NodeName, t: NodeInfo, spec: Spec, i: nat, p: Pod)
    requires Holds(e, n, t, spec, i) && p.spec == spec
    ensures Holds(Place(e, p, n), n, t, spec, i + 1)
  {
    var r := Place(e, p, n).cluster[n].pods;
    assert Specs(r) == Specs(e.cluster[n].pods) + [spec];
    assert seq(i, _ => spec) + [spec] == seq(i + 1, _ => spec);
  }

  /** A node just opened for `p`, which fits: the pod is alone with the template's own. */
  lemma OpenHolds(w: World, e: Est, t: NodeInfo, spec: Spec, p: Pod, rule: (NodeInfo, seq<Spec>, Spec) -> bool)
    requires NodeLocal(w, rule) && Orderly(e, t) && p.spec == spec
    ensures AddNode(Ask(w, e), t).Some?
    ensures var e2 := AddNode(Ask(w, e), t).value; var n := e2.last.value;
      && n == Simulated(e.nextIndex) && n !in e.withPods && Holds(e2, n, t, spec, 0)
      && (Try(w, e2, p, n) == Fits <==> FitsMore(rule, t, spec, 0)) && Try(w, e2, p, n) != Broken
  {
    var e2 := AddNode(Ask(w, e), t).value;
    assert Specs(t.pods) + seq(0, _ => spec) == Specs(t.pods);
  }

  lemma PlaceOrderly(e: Est, t: NodeInfo, p: Pod, n: NodeName)
    requires Orderly(e, t) && n in e.cluster
    ensures Orderly(Place(e, p, n), t)
  {
    var r := Place(e, p, n);
    assert r.cluster.Keys == e.cluster.Keys;
  }

  lemma AddNodeOrderly(w: World, e: Est, t: NodeInfo)
    requires Orderly(e, t) && AddNode(Ask(w, e), t).Some?
    ensures Orderly(AddNode(Ask(w, e), t).value, t)
  {
  }

  /** Trying the current node succeeds exactly while it holds fewer pods than fit. */
  lemma TryCurrent(w: World, e: Est, rule: (NodeInfo, seq<Spec>, Spec) -> bool, t: NodeInfo, spec: Spec, i: nat,
      total: nat, p: Pod, room: int)
    requires NodeLocal(w, rule) && p.spec == spec && !spec.hostSpread && room < total
    requires var k := Capacity(rule, t, spec, 0, total); i <= k && Current(e, rule, t, spec, i, k, room)
    ensures var k, a := Capacity(rule, t, spec, 0, total), TryLast(w, e, p);
      if i < k then a == Placed(Place(e, p, e.last.value)) && Holds(e, e.last.value, t, spec, i) else a == NotPlaced
  {
    var k := Capacity(rule, t, spec, 0, total);
    assert i < k ==> FitsMore(rule, t, spec, i);
  }

  lemma {:induction false} SlowMatches(
    w: World, t: NodeInfo, e: Est, pods: seq<Pod>, rule: (NodeInfo, seq<Spec>, Spec) -> bool, spec: Spec, i: nat,
        total: nat)
    requires NodeLocal(w, rule) && Orderly(e, t) && CountOnly(e.budget)
    requires Uniform(pods, spec) && !spec.hostSpread && |pods| <= total
    requires var k := Capacity(rule, t, spec, 0, total);
      0 < k && i <= k && Current(e, rule, t, spec, i, k, total - |pods|)
    ensures Matches(e, OnNew(w, t, e, pods), pods, Continued(e.budget, |pods|, i, Capacity(rule, t, spec, 0, total)))
    decreases |pods|
  {
    if pods != [] {
      var k := Capacity(rule, t, spec, 0, total);
      assert pods[0] in pods && forall p :: p in pods[1..] ==> p in pods;
      TryCurrent(w, e, rule, t, spec, i, total, pods[0], total - |pods|);
      if i < k {
        SlowStays(e, t, pods[0], spec, i);
        SlowMatches(w, t, Place(e, pods[0], e.last.value), pods[1..], rule, spec, i + 1, total);
        StayMatches(w, t, e, pods, i, k);
      } else {
        SlowOpens(w, t, e, pods, rule, spec, total);
        if e.budget.Grants(0) {
          SlowMatches(w, t, Open(w, e, t, pods[0]), pods[1..], rule, spec, 1, total);
        }
        OpenMatches(e, Open(w, e, t, pods[0]), OnNew(w, t, e, pods), pods, k);
      }
    }
  }

  /** The state after opening a node and placing the pod there. */
  ghost function Open(w: World, e: Est, t: NodeInfo, p: Pod): Est
    requires AddNode(Ask(w, e), t).Some?
  {
    var e2 := AddNode(Ask(w, e), t).value;
    Place(e2, p, e2.last.value)
  }

  lemma StayMatches(w: World, t: NodeInfo, e: Est, pods: seq<Pod>, i: nat, k: nat)
    requires w.Sound() && pods != [] && i < k && e.last.Some? && e.last.value in e.cluster && e.last.value in e.withPods
    requires var e1 := Place(e, pods[0], e.last.value);
      TryLast(w, e, pods[0]) == Placed(e1)
          && Matches(e1, OnNew(w, t, e1, pods[1..]), pods[1..], Continued(e1.budget, |pods[1..]|, i + 1, k))
    ensures Matches(e, OnNew(w, t, e, pods), pods, Continued(e.budget, |pods|, i, k))
  {
    var e1 := Place(e, pods[0], e.last.value);
    assert e1.withPods == e.withPods;
    var s := OnNew(w, t, e1, pods[1..]);
    assert OnNew(w, t, e, pods) == s;
    StayedMatches(e, e1, s, pods, i, k);
  }

  lemma StayedMatches(e: Est, r: Est, s: Step, pods: seq<Pod>, i: nat, k: nat)
    requires pods != [] && i < k && r.scheduled == e.scheduled + [pods[0]] && r.withPods == e.withPods
        && r.budget == e.budget
    requires Matches(r, s, pods[1..], Continued(r.budget, |pods[1..]|, i + 1, k))
    ensures Matches(e, s, pods, Continued(e.budget, |pods|, i, k))
  {
    ContinuedStep(e.budget, |pods|, i, k);
    MatchesOne(e, r, s, pods, Continued(e.budget, |pods| - 1, i + 1, k), 0);
  }

  lemma OpenMatches(e: Est, r: Est, s: Step, pods: seq<Pod>, k: nat)
    requires pods != [] && k > 0
    requires r.scheduled == e.scheduled + [pods[0]] && |r.withPods| == |e.withPods| + 1 && r.budget == e.budget.Next(0)
    requires if e.budget.Grants(0) then Matches(r, s, pods[1..], Continued(r.budget, |pods[1..]|, 1, k))
             else s == Step(e.(budget := e.budget.Next(0)), false)
    ensures Matches(e, s, pods, Continued(e.budget, |pods|, k, k))
  {
    ContinuedStep(e.budget, |pods|, k, k);
    if e.budget.Grants(0) {
      MatchesOne(e, r, s, pods, Continued(r.budget, |pods| - 1, 1, k), 1);
    } else {
      assert e.scheduled + pods[..0] == e.scheduled;
    }
  }

  lemma SlowStays(e: Est, t: NodeInfo, p: Pod, spec: Spec, i: nat)
    requires Orderly(e, t) && e.last.Some? && e.last.value in e.withPods
    requires Holds(e, e.last.value, t, spec, i) && p.spec == spec
    ensures var r := Place(e, p, e.last.value);
      Orderly(r, t) && Holds(r, e.last.value, t, spec, i + 1) && r.withPods == e.withPods
  {
    HoldsMore(e, e.last.value, t, spec, i, p);
    PlaceOrderly(e, t, p, e.last.value);
  }

  /** A pod that the current node does not take opens a node when the limiter agrees. */
  lemma SlowOpens(w: World, t: NodeInfo, e: Est, pods: seq<Pod>, rule: (NodeInfo, seq<Spec>, Spec) -> bool,
      spec: Spec, total: nat)
    requires NodeLocal(w, rule) && Orderly(e, t) && CountOnly(e.budget) && pods != [] && pods[0].spec == spec
    requires TryLast(w, e, pods[0]) == NotPlaced && (e.last.Some? ==> e.last.value in e.withPods)
    requires Capacity(rule, t, spec, 0, total) > 0
    ensures AddNode(Ask(w, e), t).Some?
    ensures var r := Open(w, e, t, pods[0]);
      && Orderly(r, t) && r.last.Some? && r.last.value in r.withPods && Holds(r, r.last.value, t, spec, 1)
      && |r.withPods| == |e.withPods| + 1 && r.budget == e.budget.Next(0)
    ensures OnNew(w, t, e, pods) ==
      if e.budget.Grants(0) then OnNew(w, t, Open(w, e, t, pods[0]), pods[1..])
          else Step(e.(budget := e.budget.Next(0)), false)
  {
    var e2 := AddNode(Ask(w, e), t).value;
    OpenHolds(w, e, t, spec, pods[0], rule);
    HoldsMore(e2, e2.last.value, t, spec, 0, pods[0]);
    AddNodeOrderly(w, e, t);
    PlaceOrderly(e2, t, pods[0], e2.last.value);
    assert FitsMore(rule, t, spec, 0);
    assert Granted(w, e) == e.budget.Grants(0);
  }

  // ----- the fast path -----

  /** Filling a node with identical pods stops exactly at its capacity. */
  lemma {:induction false} FillExact(
    w: World, e: Est, n: NodeName, pods: seq<Pod>, rule: (NodeInfo, seq<Spec>, Spec) -> bool, t: NodeInfo, spec: Spec,
        i: nat, total: nat)
    requires NodeLocal(w, rule) && Uniform(pods, spec) && i + |pods| == total && Holds(e, n, t, spec, i)
    requires i <= Capacity(rule, t, spec, 0, total)
    ensures var r := Fill(w, e, n, pods);
      r.Rest? && |r.pods| == total - Capacity(rule, t, spec, 0, total) && r.e.budget == e.budget
    decreases |pods|
  {
    if pods != [] {
      assert pods[0] in pods && forall p :: p in pods[1..] ==> p in pods;
      var k := Capacity(rule, t, spec, 0, total);
      assert Try(w, e, pods[0], n) == Fits <==> FitsMore(rule, t, spec, i);
      if i < k {
        HoldsMore(e, n, t, spec, i, pods[0]);
        FillExact(w, Place(e, pods[0], n), n, pods[1..], rule, t, spec, i + 1, total);
      }
    }
  }

  lemma MatchesMany(e: Est, e1: Est, r: Step, pods: seq<Pod>, q: nat, o: Outcome, added: nat)
    requires q <= |pods| && e1.scheduled == e.scheduled + pods[..q] && |e1.withPods| == |e.withPods| + added
    requires Matches(e1, r, pods[q..], o)
    ensures Matches(e, r, pods, o.Plus(q, added))
  {
    assert pods[..q] + pods[q..][..o.placed] == pods[..q + o.placed];
  }

  /** Pretending nodes draws the same permissions and places the same pods as filling them. */
  lemma {:induction false} PretendMatches(w: World, e: Est, of: NodeName, pods: seq<Pod>, k: nat, j: nat, size: nat)
    requires CountOnly(e.budget) && k > 0 && j <= size
    requires forall i :: j <= i ==> Fake(of, i) !in e.withPods
    requires AnyFit.Covers(|pods|, k, size - j)
    ensures Matches(e, Pretend(w, e, of, pods, k, j, size), pods, Chunked(e.budget, |pods|, k))
    decreases size - j
  {
    AnyFit.Remaining(|pods|, k, size - j);
    assert Granted(w, e) == e.budget.Grants(0);
    if j < size && Granted(w, e) {
      var q := if k < |pods| then k else |pods|;
      var e1 := TrackAll(Ask(w, e), pods[..q], Fake(of, j));
      PretendsOne(w, e, of, pods[..q], j);
      PretendMatches(w, e1, of, pods[q..], k, j + 1, size);
      var s := Pretend(w, e1, of, pods[q..], k, j + 1, size);
      MatchesMany(e, e1, s, pods, q, Chunked(e.budget.Next(0), |pods| - q, k), 1);
      assert Pretend(w, e, of, pods, k, j, size) == s;
    } else {
      PretendStops(w, e, pods, k);
    }
  }

  /** One pretended node, which counts as one more. */
  lemma PretendsOne(w: World, e: Est, of: NodeName, pods: seq<Pod>, j: nat)
    requires pods != [] && forall i :: j <= i ==> Fake(of, i) !in e.withPods
    ensures var r := TrackAll(Ask(w, e), pods, Fake(of, j));
      && r.scheduled == e.scheduled + pods && |r.withPods| == |e.withPods| + 1 && r.budget == Ask(w, e).budget
      && forall i :: j + 1 <= i ==> Fake(of, i) !in r.withPods
  {
    TrackAllEffect(Ask(w, e), pods, Fake(of, j));
  }

  /** Without pods or without permission nothing is placed. */
  lemma PretendStops(w: World, e: Est, pods: seq<Pod>, k: nat)
    requires CountOnly(e.budget) && k > 0 && (pods == [] || !Granted(w, e))
    ensures Matches(e, if pods == [] then Step(e, true) else Step(Ask(w, e), false), pods, Chunked(e.budget, |pods|, k))
  {
    assert e.scheduled + pods[..0] == e.scheduled;
  }

  /** After permission: the fast path fills the new node to its capacity and pretends the rest. */
  lemma FastFills(w: World, t: NodeInfo, e: Est, pods: seq<Pod>, rule: (NodeInfo, seq<Spec>, Spec) -> bool, spec: Spec)
    requires NodeLocal(w, rule) && Orderly(e, t) && Uniform(pods, spec) && pods != []
    ensures var k := Capacity(rule, t, spec, 0, |pods|); var r := AnyFit.Fresh(w, e, t, pods);
      && r.Rest? && r.pods == pods[k..] && r.e.scheduled == e.scheduled + pods[..k]
      && r.e.budget == Ask(w, e).budget
      && r.e.withPods == (if k == 0 then e.withPods else e.withPods + {Simulated(e.nextIndex)})
  {
    OpenHolds(w, e, t, spec, pods[0].(spec := spec), rule);
    var e1 := AddNode(Ask(w, e), t).value;
    var n := e1.last.value;
    FillExact(w, e1, n, pods, rule, t, spec, 0, |pods|);
    FillPrefix(w, e1, n, pods);
    FillTracks(w, e1, n, pods);
  }

  lemma {:induction false} FillTracks(w: World, e: Est, n: NodeName, pods: seq<Pod>)
    ensures var r := Fill(w, e, n, pods).e;
      |r.scheduled| >= |e.scheduled| && r.withPods == if |r.scheduled| == |e.scheduled| then e.withPods
          else e.withPods + {n}
    decreases |pods|
  {
    if pods != [] && Try(w, e, pods[0], n) == Fits {
      FillTracks(w, Place(e, pods[0], n), n, pods[1..]);
    }
  }

  lemma FastMatches(w: World, t: NodeInfo, e: Est, pods: seq<Pod>, rule: (NodeInfo, seq<Spec>, Spec) -> bool,
      spec: Spec)
    requires NodeLocal(w, rule) && Orderly(e, t) && CountOnly(e.budget) && Uniform(pods, spec) && pods != []
    requires Capacity(rule, t, spec, 0, |pods|) > 0
    ensures Matches(e, FastPath(w, t, e, pods), pods, Chunked(e.budget, |pods|, Capacity(rule, t, spec, 0, |pods|)))
  {
    var k := Capacity(rule, t, spec, 0, |pods|);
    assert Granted(w, e) == e.budget.Grants(0) && e.scheduled + pods[..0] == e.scheduled;
    if Granted(w, e) {
      FastFills(w, t, e, pods, rule, spec);
      AnyFit.FastPathUnfolds(w, t, e, pods);
      AnyFit.FastPathSize(|pods|, k);
      var r := AnyFit.Fresh(w, e, t, pods);
      FreshMatches(w, e, r.e, Simulated(e.nextIndex), pods, k);
    }
  }

  lemma FreshMatches(w: World, e: Est, e1: Est, n: NodeName, pods: seq<Pod>, k: nat)
    requires 0 < k <= |pods| && CountOnly(e.budget) && e.budget.Grants(0)
    requires e1.scheduled == e.scheduled + pods[..k] && e1.budget == e.budget.Next(0)
    requires e1.withPods == e.withPods + {n} && n !in e.withPods
    requires forall m :: m in e1.withPods ==> !m.Fake?
    ensures Matches(e, Pretend(w, e1, n, pods[k..], k, 1, CeilDiv(|pods|, k)), pods, Chunked(e.budget, |pods|, k))
  {
    AnyFit.FastPathSize(|pods|, k);
    var size := CeilDiv(|pods|, k);
    PretendMatches(w, e1, n, pods[k..], k, 1, size);
    MatchesMany(e, e1, Pretend(w, e1, n, pods[k..], k, 1, size), pods, k, Chunked(e1.budget, |pods| - k, k), 1);
  }

  // ----- the refinement -----

  /** The last node, if any, does not take a pod of this kind. */
  ghost predicate LastRejects(e: Est, rule: (NodeInfo, seq<Spec>, Spec) -> bool, spec: Spec) {
    e.last.Some? ==>
      e.last.value in e.cluster && !rule(Bare(e.cluster[e.last.value]), Specs(e.cluster[e.last.value].pods), spec)
  }

  /**
    The fast path and the node-by-node simulation place the same pods on as many counted nodes;
    when a fresh node takes at least one pod they also leave the limiter in the same state.
   */
  lemma FastRefinesSlow(w: World, t: NodeInfo, e: Est, pods: seq<Pod>, rule: (NodeInfo, seq<Spec>, Spec) -> bool,
      spec: Spec)
    requires NodeLocal(w, rule) && Orderly(e, t) && CountOnly(e.budget)
    requires Uniform(pods, spec) && !spec.hostSpread && LastRejects(e, rule, spec)
    ensures var slow, fast := OnNew(w, t, e, pods), FastPath(w, t, e, pods);
      && slow.Step? && fast.Step?
      && slow.e.scheduled == fast.e.scheduled && |slow.e.withPods| == |fast.e.withPods|
      && (FitsMore(rule, t, spec, 0) ==> slow.more == fast.more && slow.e.budget == fast.e.budget)
  {
    if pods != [] {
      var k := Capacity(rule, t, spec, 0, |pods|);
      if k > 0 {
        SomethingFits(w, t, e, pods, rule, spec);
      } else {
        NothingFits(w, t, e, pods, rule, spec);
      }
    }
  }

  lemma SomethingFits(w: World, t: NodeInfo, e: Est, pods: seq<Pod>, rule: (NodeInfo, seq<Spec>, Spec) -> bool,
      spec: Spec)
    requires NodeLocal(w, rule) && Orderly(e, t) && CountOnly(e.budget) && pods != []
    requires Uniform(pods, spec) && !spec.hostSpread && LastRejects(e, rule, spec)
    requires Capacity(rule, t, spec, 0, |pods|) > 0
    ensures var k := Capacity(rule, t, spec, 0, |pods|); var o := Chunked(e.budget, |pods|, k);
      Matches(e, OnNew(w, t, e, pods), pods, o) && Matches(e, FastPath(w, t, e, pods), pods, o)
  {
    var k := Capacity(rule, t, spec, 0, |pods|);
    RejectingIsFull(e, t, rule, spec, |pods|);
    SlowMatches(w, t, e, pods, rule, spec, k, |pods|);
    FastMatches(w, t, e, pods, rule, spec);
    ContinuedFull(e.budget, |pods|, k);
  }

  lemma ContinuedFull(b: Budget, n: nat, k: nat)
    requires k > 0
    ensures Continued(b, n, k, k) == Chunked(b, n, k)
  {
  }

  /** An added node without pods would take one, so a rejecting last node carries pods. */
  lemma RejectingIsFull(e: Est, t: NodeInfo, rule: (NodeInfo, seq<Spec>, Spec) -> bool, spec: Spec, total: nat)
    requires Orderly(e, t) && LastRejects(e, rule, spec) && Capacity(rule, t, spec, 0, total) > 0
    ensures var k := Capacity(rule, t, spec, 0, total); Current(e, rule, t, spec, k, k, 0)
  {
    assert FitsMore(rule, t, spec, 0);
    assert Specs(t.pods) + seq(0, _ => spec) == Specs(t.pods);
  }

  lemma NothingFits(w: World, t: NodeInfo, e: Est, pods: seq<Pod>, rule: (NodeInfo, seq<Spec>, Spec) -> bool,
      spec: Spec)
    requires NodeLocal(w, rule) && Orderly(e, t) && pods != []
    requires Uniform(pods, spec) && !spec.hostSpread && LastRejects(e, rule, spec)
    requires !FitsMore(rule, t, spec, 0)
    ensures var slow, fast := OnNew(w, t, e, pods), FastPath(w, t, e, pods);
      && slow.Step? && fast.Step?
      && slow.e.scheduled == fast.e.scheduled == e.scheduled && slow.e.withPods == fast.e.withPods == e.withPods
  {
    assert pods[0] in pods;
    OpenHolds(w, e, t, spec, pods[0], rule);
    var e2 := AddNode(Ask(w, e), t).value;
    assert Fill(w, e2, e2.last.value, pods) == Rest(e2, pods);
  }

  lemma {:induction false} OnExistingOrderly(w: World, e: Est, pods: seq<Pod>, t: NodeInfo)
    requires w.Sound() && Orderly(e, t)
    ensures var r := OnExisting(w, e, pods); Orderly(r.e, t) && r.e.budget == e.budget
    ensures var r := OnExisting(w, e, pods);
      r.Rest? && r.pods != [] ==> w.pick(r.e.cluster, r.pods[0], r.e.newNodes) == Nowhere
    decreases |pods|
  {
    if pods != [] {
      var c := w.pick(e.cluster, pods[0], e.newNodes);
      if c.On? {
        PlaceOrderly(e, t, pods[0], c.node);
        OnExistingOrderly(w, Place(e, pods[0], c.node), pods[1..], t);
      }
    }
  }

  lemma {:induction false} OnNewOrderly(w: World, t: NodeInfo, e: Est, pods: seq<Pod>)
    requires w.Sound() && Orderly(e, t)
    ensures var r := OnNew(w, t, e, pods).e; Orderly(r, t) && r.budget.maxDuration == e.budget.maxDuration
    decreases |pods|
  {
    if pods != [] {
      var a := TryLast(w, e, pods[0]);
      if a.Placed? {
        var n := e.last.value;
        PlaceOrderly(e, t, pods[0], if Try(w, e, pods[0], n) == Fits then n
            else w.pick(e.cluster, pods[0], e.cluster.Keys - {n}).node);
        OnNewOrderly(w, t, a.e, pods[1..]);
      } else if a.NotPlaced? && Granted(w, e) && AddNode(Ask(w, e), t).Some? {
        AddNodeOrderly(w, e, t);
        var e2 := AddNode(Ask(w, e), t).value;
        if Try(w, e2, pods[0], e2.last.value) == Fits {
          PlaceOrderly(e2, t, pods[0], e2.last.value);
          OnNewOrderly(w, t, Place(e2, pods[0], e2.last.value), pods[1..]);
        }
      }
    }
  }

  /** Same pods, same count, or the same failure. */
  ghost predicate SameEstimate(a: Step, b: Step) {
    && a.Step? == b.Step?
    && (a.Step? ==> a.e.scheduled == b.e.scheduled && |a.e.withPods| == |b.e.withPods|)
  }

  lemma LastRoundRefines(w: World, t: NodeInfo, e: Est, pods: seq<Pod>, more: bool,
      rule: (NodeInfo, seq<Spec>, Spec) -> bool, spec: Spec)
    requires NodeLocal(w, rule) && Orderly(e, t) && CountOnly(e.budget) && Uniform(pods, spec) && !spec.hostSpread
    ensures SameEstimate(Round(w, t, e, pods, true, more), Round(w, t, e, pods, false, more))
  {
    var r := OnExisting(w, e, pods);
    OnExistingOrderly(w, e, pods, t);
    OnExistingPrefix(w, e, pods);
    if r.Rest? && more {
      forall p | p in r.pods ensures p in pods { }
      if r.pods == [] {
      } else {
        assert r.pods[0] in pods;
        assert r.e.last.Some? ==> w.check(r.e.cluster, r.pods[0], r.e.last.value) != Fits;
        FastRefinesSlow(w, t, r.e, r.pods, rule, spec);
      }
    }
  }

  /** Turning the fast path on for the last group does not change the estimate. */
  lemma {:induction false} PackRefines(
    w: World, t: NodeInfo, e: Est, groups: seq<seq<Pod>>, more: bool, rule: (NodeInfo, seq<Spec>, Spec) -> bool,
        spec: Spec)
    requires NodeLocal(w, rule) && Orderly(e, t) && CountOnly(e.budget)
    requires groups != [] ==> Uniform(groups[|groups|-1], spec) && !spec.hostSpread
    ensures SameEstimate(Pack(w, t, e, groups, true, more), Pack(w, t, e, groups, false, more))
    decreases |groups|
  {
    if |groups| == 1 {
      LastRoundRefines(w, t, e, groups[0], more, rule, spec);
    } else if groups != [] {
      var s := Round(w, t, e, groups[0], false, more);
      var r := OnExisting(w, e, groups[0]);
      OnExistingOrderly(w, e, groups[0], t);
      if r.Rest? && more { OnNewOrderly(w, t, r.e, r.pods); }
      if s.Step? {
        PackRefines(w, t, s.e, groups[1..], s.more, rule, spec);
      }
    }
  }

  lemma EstimateUnchangedByFastPath(
    w: World, t: NodeInfo, c: Cluster, b: Budget, groups: seq<seq<Pod>>, rule: (NodeInfo, seq<Spec>, Spec) -> bool,
        spec: Spec)
    requires NodeLocal(w, rule) && CountOnly(b) && (forall n :: n in c ==> n.Existing?)
    requires groups != [] ==> Uniform(groups[|groups|-1], spec) && !spec.hostSpread
    ensures SameEstimate(Pack(w, t, Start(c, b), groups, true, true), Pack(w, t, Start(c, b), groups, false, true))
  {
    PackRefines(w, t, Start(c, b), groups, true, rule, spec);
  }
}
