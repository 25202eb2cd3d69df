/**
  The any-fit guarantee of the estimation: with one additive resource, identical pods inside
  each group and every pod fitting a fresh node, any two counted nodes together hold more than
  one node's room, and the count is at most 2 * OPT - 1.
 */
module AnyFit {
  import opened Wrappers
  import opened Snapshots
  import opened Limiter
  import opened Estimation
  import opened Packing

  /** A scheduler over one additive resource that never fails internally. */
  ghost predicate Additive(w: World) {
    && w.Sound()
    && (forall c: Cluster, p: Pod, n: NodeName :: n in c ==>
          w.check(c, p, n) == if Load(c[n].pods) + p.spec.size <= c[n].room then Fits else Rejected(false))
    && (forall c, p, names :: w.pick(c, p, names) != ChoiceBroken)
  }

  /** Room the template leaves for pods. */
  function Room(t: NodeInfo): int {
    t.room - Load(t.pods)
  }

  /** Two different counted nodes never fit into one. */
  ghost predicate Pairwise(e: Est, room: int)
    requires |e.homes| == |e.scheduled|
  {
    forall a, b :: a in e.withPods && b in e.withPods && a != b ==> At(e, a) + At(e, b) > room
  }

  /** A pod of this size fits no counted node, except possibly `spare`. */
  ghost predicate Stuck(e: Est, size: nat, room: int, spare: Option<NodeName>)
    requires |e.homes| == |e.scheduled|
  {
    forall n :: n in e.withPods && Some(n) != spare ==> At(e, n) + size > room
  }

  /** Invariant of the any-fit packing: every added node carries pods, and names stay free. */
  ghost predicate Tight(e: Est, t: NodeInfo, base: set<NodeName>) {
    && Ledger(e, t, base)
    && e.withPods == e.newNodes
    && (e.last.None? ==> e.newNodes == {})
    && (forall i :: e.nextIndex <= i ==> Simulated(i) !in e.cluster)
    && Pairwise(e, Room(t))
  }

  /** Nodes that only gain load stay apart and stay full. */
  lemma GrowthKeepsApart(e: Est, r: Est, room: int)
    requires |e.homes| == |e.scheduled| && |r.homes| == |r.scheduled| && r.withPods == e.withPods
    requires Pairwise(e, room) && forall m :: At(r, m) >= At(e, m)
    ensures Pairwise(r, room)
    ensures forall s: nat, spare :: Stuck(e, s, room, spare) ==> Stuck(r, s, room, spare)
  {
    forall a, b | a in r.withPods && b in r.withPods && a != b ensures At(r, a) + At(r, b) > room {
      assert At(r, a) >= At(e, a) && At(r, b) >= At(e, b);
    }
  }

  lemma PlaceTight(e: Est, t: NodeInfo, base: set<NodeName>, p: Pod, n: NodeName)
    requires Tight(e, t, base) && n in e.newNodes && At(e, n) + p.spec.size <= Room(t)
    ensures Tight(Place(e, p, n), t, base)
    ensures forall s: nat, spare :: Stuck(e, s, Room(t), spare) ==> Stuck(Place(e, p, n), s, Room(t), spare)
  {
    var r := Place(e, p, n);
    PlaceGrows(e, t, base, p, n);
    GrowthKeepsApart(e, r, Room(t));
  }

  lemma PlaceGrows(e: Est, t: NodeInfo, base: set<NodeName>, p: Pod, n: NodeName)
    requires Ledger(e, t, base) && n in e.newNodes && e.withPods == e.newNodes && At(e, n) + p.spec.size <= Room(t)
    ensures n in e.cluster
    ensures var r := Place(e, p, n);
      && Ledger(r, t, base) && r.withPods == e.withPods && r.newNodes == e.newNodes && r.cluster.Keys == e.cluster.Keys
      && r.last == e.last && r.nextIndex == e.nextIndex && forall m :: At(r, m) >= At(e, m)
  {
    assert AsTemplate(e, t, n);
    PlaceLedger(e, t, base, p, n);
    PlaceShape(e, p, n);
    forall m ensures At(Place(e, p, n), m) >= At(e, m) {
      PlaceLoads(e, p, n, m);
    }
  }

  lemma PlaceShape(e: Est, p: Pod, n: NodeName)
    requires n in e.cluster && n in e.withPods
    ensures var r := Place(e, p, n);
      && r.withPods == e.withPods && r.newNodes == e.newNodes && r.cluster.Keys == e.cluster.Keys
      && r.last == e.last && r.nextIndex == e.nextIndex
  {
  }

  lemma {:induction false} OnExistingTight(w: World, e: Est, pods: seq<Pod>, t: NodeInfo, base: set<NodeName>)
    requires Additive(w) && Tight(e, t, base)
    ensures var r := OnExisting(w, e, pods);
      && r.Rest? && Tight(r.e, t, base)
      && (r.pods != [] ==> Stuck(r.e, r.pods[0].spec.size, Room(t), None))
    decreases |pods|
  {
    if pods != [] {
      var c := w.pick(e.cluster, pods[0], e.newNodes);
      if c.On? {
        assert AsTemplate(e, t, c.node);
        PlaceTight(e, t, base, pods[0], c.node);
        OnExistingTight(w, Place(e, pods[0], c.node), pods[1..], t, base);
      } else {
        forall n | n in e.withPods ensures At(e, n) + pods[0].spec.size > Room(t) {
          assert AsTemplate(e, t, n) && n in e.cluster;
        }
      }
    }
  }

  /** The state after opening a node for `p`, which goes there alone. */
  ghost function Opened(w: World, e: Est, t: NodeInfo, p: Pod): Est
    requires Simulated(e.nextIndex) !in e.cluster
  {
    var e2 := AddNode(Ask(w, e), t).value;
    Place(e2, p, e2.last.value)
  }

  lemma OpenedNode(w: World, e: Est, t: NodeInfo, p: Pod)
    requires Simulated(e.nextIndex) !in e.cluster
    ensures var r, n := Opened(w, e, t, p), Simulated(e.nextIndex);
      && r.withPods == e.withPods + {n} && r.newNodes == e.newNodes + {n} && r.last == Some(n)
      && r.nextIndex == e.nextIndex + 1 && r.cluster.Keys == e.cluster.Keys + {n}
  {
  }

  lemma OpenLoads(w: World, e: Est, t: NodeInfo, base: set<NodeName>, p: Pod)
    requires Ledger(e, t, base) && Simulated(e.nextIndex) !in e.cluster && p.spec.size <= Room(t)
    ensures var r, n := Opened(w, e, t, p), Simulated(e.nextIndex);
      && Ledger(r, t, base) && n !in e.withPods && At(r, n) == p.spec.size
      && r.withPods == e.withPods + {n} && r.newNodes == e.newNodes + {n} && r.last == Some(n)
      && r.nextIndex == e.nextIndex + 1 && r.cluster.Keys == e.cluster.Keys + {n}
      && forall a :: a in e.withPods ==> At(r, a) == At(e, a)
  {
    AddNodeLedger(w, e, t, base);
    OpenedNode(w, e, t, p);
    var e2, n := AddNode(Ask(w, e), t).value, Simulated(e.nextIndex);
    OpenedLoads(e, e2, t, base, p, n);
  }

  /** Placing a pod on a node that carries none, in a state that differs from `e` by that node. */
  lemma OpenedLoads(e: Est, e2: Est, t: NodeInfo, base: set<NodeName>, p: Pod, n: NodeName)
    requires |e.homes| == |e.scheduled| && e2.homes == e.homes && e2.scheduled == e.scheduled && n !in e.withPods
    requires Ledger(e2, t, base) && n in e2.newNodes && At(e2, n) == 0 && p.spec.size <= Room(t)
    ensures n in e2.cluster && Ledger(Place(e2, p, n), t, base) && At(Place(e2, p, n), n) == p.spec.size
    ensures forall a :: a in e.withPods ==> At(Place(e2, p, n), a) == At(e, a)
  {
    OpenedLedger(e2, t, base, p, n);
    PlaceLoads(e2, p, n, n);
    forall a | a in e.withPods ensures At(Place(e2, p, n), a) == At(e, a) {
      PlaceLoads(e2, p, n, a);
      assert At(e2, a) == At(e, a);
    }
  }

  lemma OpenedLedger(e: Est, t: NodeInfo, base: set<NodeName>, p: Pod, n: NodeName)
    requires Ledger(e, t, base) && n in e.newNodes && At(e, n) == 0 && p.spec.size <= Room(t)
    ensures n in e.cluster && Ledger(Place(e, p, n), t, base)
  {
    assert AsTemplate(e, t, n);
    PlaceLedger(e, t, base, p, n);
  }

  /** A place that receives only pods fitting nowhere else stays apart from all others. */
  lemma PairsGrow(e: Est, r: Est, n: NodeName, size: nat, room: int)
    requires |e.homes| == |e.scheduled| && |r.homes| == |r.scheduled|
    requires Pairwise(e, room) && Stuck(e, size, room, None)
    requires r.withPods == e.withPods + {n} && n !in e.withPods && At(r, n) >= size
    requires forall a :: a in e.withPods ==> At(r, a) == At(e, a)
    ensures Pairwise(r, room) && Stuck(r, size, room, Some(n))
    ensures At(r, n) + size > room ==> Stuck(r, size, room, None)
  {
    forall a, b | a in r.withPods && b in r.withPods && a != b ensures At(r, a) + At(r, b) > room {
      assert a in e.withPods || b in e.withPods;
    }
  }

  /** Opening a node for a pod that fits no counted node keeps the pairs apart. */
  lemma OpenTight(w: World, e: Est, t: NodeInfo, base: set<NodeName>, p: Pod)
    requires Tight(e, t, base) && p.spec.size <= Room(t) && Stuck(e, p.spec.size, Room(t), None)
    ensures var r := Opened(w, e, t, p);
      Tight(r, t, base) && Stuck(r, p.spec.size, Room(t), r.last)
  {
    OpenLoads(w, e, t, base, p);
    TightGrows(e, Opened(w, e, t, p), t, base, Simulated(e.nextIndex), p.spec.size);
  }

  /** One more node, carrying load that fits no other one. */
  lemma TightGrows(e: Est, r: Est, t: NodeInfo, base: set<NodeName>, n: NodeName, size: nat)
    requires Tight(e, t, base) && Stuck(e, size, Room(t), None) && n == Simulated(e.nextIndex)
    requires Ledger(r, t, base) && n !in e.withPods && At(r, n) >= size
    requires r.withPods == e.withPods + {n} && r.newNodes == e.newNodes + {n} && r.last == Some(n)
    requires r.nextIndex == e.nextIndex + 1 && r.cluster.Keys == e.cluster.Keys + {n}
    requires forall a :: a in e.withPods ==> At(r, a) == At(e, a)
    ensures Tight(r, t, base) && Stuck(r, size, Room(t), r.last)
  {
    PairsGrow(e, r, n, size, Room(t));
  }

  /** In an additive world the pod on the last node is rejected exactly when it does not fit. */
  lemma TryLastAdditive(w: World, e: Est, p: Pod, t: NodeInfo, base: set<NodeName>)
    requires Additive(w) && Tight(e, t, base)
    ensures var a := TryLast(w, e, p);
      && a != AttemptError
      && (a.Placed? ==>
          e.last.Some? && a.e == Place(e, p, e.last.value) && At(e, e.last.value) + p.spec.size <= Room(t))
      && (a.NotPlaced? && e.last.Some? ==> At(e, e.last.value) + p.spec.size > Room(t))
  {
    if e.last.Some? {
      assert AsTemplate(e, t, e.last.value);
    }
  }

  /** One pod of the loop: it is placed with the pairs kept apart, or the limiter refused. */
  lemma OnNewNextTight(w: World, t: NodeInfo, e: Est, p: Pod, base: set<NodeName>)
    requires Additive(w) && Tight(e, t, base) && p.spec.size <= Room(t) && Stuck(e, p.spec.size, Room(t), e.last)
    ensures match OnNewNext(w, t, e, p)
      case Done(s) => s == Step(Ask(w, e), false)
      case Go(r) => Tight(r, t, base) && Stuck(r, p.spec.size, Room(t), r.last) && r.scheduled == e.scheduled + [p]
  {
    TryLastAdditive(w, e, p, t, base);
    if TryLast(w, e, p).Placed? {
      PlaceTight(e, t, base, p, e.last.value);
    } else {
      OnNewOpens(w, t, e, p, base);
      if Granted(w, e) {
        OpenTight(w, e, t, base, p);
      }
    }
  }

  lemma OnNewOpens(w: World, t: NodeInfo, e: Est, p: Pod, base: set<NodeName>)
    requires Additive(w) && Tight(e, t, base) && TryLast(w, e, p).NotPlaced? && p.spec.size <= Room(t)
    ensures OnNewNext(w, t, e, p) == if Granted(w, e) then Go(Opened(w, e, t, p)) else Done(Step(Ask(w, e), false))
  {
    if Granted(w, e) {
      var e2 := AddNode(Ask(w, e), t).value;
      assert Try(w, e2, p, e2.last.value) == Fits;
    }
  }

  lemma {:induction false} OnNewTight(w: World, t: NodeInfo, e: Est, pods: seq<Pod>, base: set<NodeName>, spec: Spec)
    requires Additive(w) && Tight(e, t, base)
    requires Uniform(pods, spec) && spec.size <= Room(t)
    requires pods != [] ==> Stuck(e, spec.size, Room(t), e.last)
    ensures var r := OnNew(w, t, e, pods);
      r.Step? && Tight(r.e, t, base) && (r.more ==> r.e.scheduled == e.scheduled + pods)
    decreases |pods|
  {
    if pods != [] {
      assert pods[0] in pods && forall p :: p in pods[1..] ==> p in pods;
      OnNewNextTight(w, t, e, pods[0], base);
      AppendSplit(e.scheduled, pods, 1);
      assert pods[..1] == [pods[0]];
      match OnNewNext(w, t, e, pods[0])
      case Done(_) =>
      case Go(r) => OnNewTight(w, t, r, pods[1..], base, spec);
    }
  }

  /** What the fast path leaves: pairs stay apart although pretended nodes are not in the cluster. */
  ghost predicate Apart(e: Est, room: int) {
    && |e.homes| == |e.scheduled|
    && e.withPods == Carrying(e.homes)
    && Pairwise(e, room)
  }

  /** One pretended node: `q` identical pods that fit no counted node. */
  lemma PretendOne(w: World, e: Est, f: NodeName, pods: seq<Pod>, room: int, spec: Spec)
    requires Apart(e, room) && Uniform(pods, spec) && pods != []
    requires Stuck(e, spec.size, room, None) && f !in e.withPods
    ensures var r := TrackAll(Ask(w, e), pods, f);
      && Apart(r, room) && r.withPods == e.withPods + {f}
      && (|pods| * spec.size + spec.size > room ==> Stuck(r, spec.size, room, None))
  {
    var e0 := Ask(w, e);
    var r := TrackAll(e0, pods, f);
    TrackAllEffect(e0, pods, f);
    UniformLoad(pods, spec);
    HomeAbsent(e0.scheduled, e0.homes, f);
    MulMonotone(1, |pods|, spec.size);
    forall n ensures At(r, n) == At(e, n) + if n == f then |pods| * spec.size else 0 {
      AtTrackAll(e0, pods, f, n);
      assert At(e0, n) == At(e, n);
    }
    PairsGrow(e, r, f, spec.size, room);
  }

  /** `m` nodes of `k` pods each are just enough for `n` pods. */
  ghost predicate Covers(n: nat, k: nat, m: nat)
    requires k > 0
  {
    m == CeilDiv(n, k)
  }

  /** Taking up to `k` pods leaves just enough for one node less. */
  lemma Remaining(n: nat, k: nat, m: nat)
    requires k > 0 && Covers(n, k, m)
    ensures m == 0 <==> n == 0
    ensures m > 0 ==> Covers(if k < n then n - k else 0, k, m - 1)
  {
  }

  /** Each pretended node receives at least one pod of a size that fits no counted node. */
  lemma {:induction false} PretendApart(
    w: World, e: Est, of: NodeName, pods: seq<Pod>, k: nat, j: nat, size: nat, room: int, spec: Spec)
    requires Apart(e, room) && Uniform(pods, spec) && k > 0
    requires Overflows(k, spec.size, room)
    requires pods != [] ==> Stuck(e, spec.size, room, None)
    requires forall i :: j <= i ==> Fake(of, i) !in e.withPods
    requires j <= size && Covers(|pods|, k, size - j)
    ensures var r := Pretend(w, e, of, pods, k, j, size);
      r.Step? && Apart(r.e, room) && (r.more ==> r.e.scheduled == e.scheduled + pods)
    decreases size - j
  {
    Remaining(|pods|, k, size - j);
    if j < size && Granted(w, e) {
      var q := if k < |pods| then k else |pods|;
      var e1 := TrackAll(Ask(w, e), pods[..q], Fake(of, j));
      forall p | p in pods[..q] || p in pods[q..] ensures p in pods { }
      PretendOne(w, e, Fake(of, j), pods[..q], room, spec);
      TrackAllEffect(Ask(w, e), pods[..q], Fake(of, j));
      PretendApart(w, e1, of, pods[q..], k, j + 1, size, room, spec);
      AppendSplit(e.scheduled, pods, q);
    }
  }

  /** Filling a fresh node stops only when one more pod would not fit. */
  lemma {:induction false} FillsUp(w: World, e: Est, n: NodeName, pods: seq<Pod>, t: NodeInfo, base: set<NodeName>,
      spec: Spec)
    requires Additive(w) && RoomSound(w) && Ledger(e, t, base) && n in e.newNodes && Uniform(pods, spec)
    ensures var r := Fill(w, e, n, pods);
      && r.Rest? && Ledger(r.e, t, base)
      && (r.pods != [] ==> At(r.e, n) + spec.size > Room(t))
      && (pods != [] && At(e, n) + spec.size <= Room(t) ==> |r.pods| < |pods|)
      && |r.pods| <= |pods|
    decreases |pods|
  {
    if pods != [] {
      assert AsTemplate(e, t, n);
      assert pods[0] in pods && forall p :: p in pods[1..] ==> p in pods;
      if Try(w, e, pods[0], n) == Fits {
        PlaceLedger(e, t, base, pods[0], n);
        FillsUp(w, Place(e, pods[0], n), n, pods[1..], t, base, spec);
      }
    }
  }

  lemma AdditiveRoomSound(w: World)
    requires Additive(w)
    ensures RoomSound(w)
  {
  }

  /** The number of nodes the fast path computes, after the first one took `k` of `n` pods. */
  lemma FastPathSize(n: nat, k: nat)
    requires 0 < k <= n
    ensures var size := CeilDiv(n, k);
      size > 0 && Covers(n - k, k, size - 1)
  {
    Remaining(n, k, CeilDiv(n, k));
  }

  /** One more than `k` pods of this size do not fit. */
  ghost predicate Overflows(k: int, size: nat, room: int) {
    k * size + size > room
  }

  /** What filling a node leaves: pairs apart and, if pods are left over, no room for one more. */
  ghost predicate WellFilled(r: Rest, pods: seq<Pod>, room: int, spec: Spec) {
    && r.Rest? && |r.pods| < |pods| && Apart(r.e, room)
    && (r.pods != [] ==> Stuck(r.e, spec.size, room, None) && Overflows(|pods| - |r.pods|, spec.size, room))
  }

  /** A node filled with pods that fit nowhere else: pairs apart, and no room for one more pod. */
  lemma FilledApart(w: World, e: Est, n: NodeName, pods: seq<Pod>, t: NodeInfo, base: set<NodeName>, spec: Spec)
    requires Additive(w) && Ledger(e, t, base) && n in e.newNodes && n !in e.withPods && pods != []
    requires Uniform(pods, spec) && spec.size <= Room(t)
    requires Pairwise(e, Room(t)) && Stuck(e, spec.size, Room(t), None)
    ensures WellFilled(Fill(w, e, n, pods), pods, Room(t), spec)
    ensures Fill(w, e, n, pods).e.withPods == e.withPods + {n}
  {
    AdditiveRoomSound(w);
    HomeAbsent(e.scheduled, e.homes, n);
    FillsUp(w, e, n, pods, t, base, spec);
    FillPrefix(w, e, n, pods);
    var r := Fill(w, e, n, pods);
    FillGrows(w, e, n, pods, spec);
    PairsGrow(e, r.e, n, spec.size, Room(t));
  }

  /** Filling a node without pods loads it by one pod size per pod, and no other node. */
  lemma FillGrows(w: World, e: Est, n: NodeName, pods: seq<Pod>, spec: Spec)
    requires |e.homes| == |e.scheduled| && e.withPods == Carrying(e.homes) && n !in e.withPods && Uniform(pods, spec)
    ensures var r := Fill(w, e, n, pods).e; var k := |r.scheduled| - |e.scheduled|;
      && k >= 0 && |r.homes| == |r.scheduled| && At(r, n) == k * spec.size && (k > 0 ==> At(r, n) >= spec.size)
      && r.withPods == (if k == 0 then e.withPods else e.withPods + {n})
      && forall m :: m in e.withPods ==> At(r, m) == At(e, m)
  {
    FillLoads(w, e, n, pods, spec, n);
    HomeAbsent(e.scheduled, e.homes, n);
    var k := |Fill(w, e, n, pods).e.scheduled| - |e.scheduled|;
    if k > 0 {
      MulMonotone(1, k, spec.size);
    }
    forall m | m in e.withPods ensures At(Fill(w, e, n, pods).e, m) == At(e, m) {
      FillLoads(w, e, n, pods, spec, m);
    }
  }

  /** Filling a node opened for these pods. */
  ghost function Fresh(w: World, e: Est, t: NodeInfo, pods: seq<Pod>): Rest
    requires Simulated(e.nextIndex) !in e.cluster
  {
    var e1 := AddNode(Ask(w, e), t).value;
    Fill(w, e1, e1.last.value, pods)
  }

  /** The fast path once permission is granted: fill the new node, then pretend. */
  lemma FastPathUnfolds(w: World, t: NodeInfo, e: Est, pods: seq<Pod>)
    requires pods != [] && Granted(w, e) && Simulated(e.nextIndex) !in e.cluster
    requires Fresh(w, e, t, pods).Rest? && |Fresh(w, e, t, pods).pods| < |pods|
    ensures var r := Fresh(w, e, t, pods); var k := |pods| - |r.pods|;
      FastPath(w, t, e, pods) == Pretend(w, r.e, Simulated(e.nextIndex), r.pods, k, 1, CeilDiv(|pods|, k))
  {
  }

  lemma FreshApart(w: World, t: NodeInfo, e: Est, pods: seq<Pod>, base: set<NodeName>, spec: Spec)
    requires Additive(w) && Tight(e, t, base) && pods != []
    requires Uniform(pods, spec) && spec.size <= Room(t) && Stuck(e, spec.size, Room(t), None)
    requires forall n, i :: Fake(n, i) !in e.cluster
    ensures WellFilled(Fresh(w, e, t, pods), pods, Room(t), spec)
    ensures forall n, i :: Fake(n, i) !in Fresh(w, e, t, pods).e.withPods
  {
    var e1 := AddNode(Ask(w, e), t).value;
    OpenedEmpty(w, e, t, base, spec.size);
    FilledApart(w, e1, e1.last.value, pods, t, base, spec);
    assert Fresh(w, e, t, pods) == Fill(w, e1, e1.last.value, pods);
  }

  lemma FreshPrefix(w: World, t: NodeInfo, e: Est, pods: seq<Pod>)
    requires Simulated(e.nextIndex) !in e.cluster && Fresh(w, e, t, pods).Rest? && |Fresh(w, e, t, pods).pods| <= |pods|
    ensures var r := Fresh(w, e, t, pods); var k := |pods| - |r.pods|;
      r.pods == pods[k..] && r.e.scheduled == e.scheduled + pods[..k]
  {
    var e1 := AddNode(Ask(w, e), t).value;
    FillPrefix(w, e1, e1.last.value, pods);
  }

  /** Opening a node, before it carries any pod. */
  lemma OpenedEmpty(w: World, e: Est, t: NodeInfo, base: set<NodeName>, size: nat)
    requires Tight(e, t, base) && Stuck(e, size, Room(t), None)
    ensures AddNode(Ask(w, e), t).Some?
    ensures var e1 := AddNode(Ask(w, e), t).value;
      && Ledger(e1, t, base) && e1.last.value in e1.newNodes && e1.last.value !in e1.withPods
      && e1.last == Some(Simulated(e.nextIndex)) && e1.withPods == e.withPods && e1.scheduled == e.scheduled
      && Pairwise(e1, Room(t)) && Stuck(e1, size, Room(t), None)
  {
    AddNodeLedger(w, e, t, base);
    var e1 := AddNode(Ask(w, e), t).value;
    assert forall m :: At(e1, m) == At(e, m);
  }

  lemma FastPathApart(w: World, t: NodeInfo, e: Est, pods: seq<Pod>, base: set<NodeName>, spec: Spec)
    requires Additive(w) && Tight(e, t, base)
    requires Uniform(pods, spec) && spec.size <= Room(t)
    requires pods != [] ==> Stuck(e, spec.size, Room(t), None)
    requires forall n, i :: Fake(n, i) !in e.cluster
    ensures var r := FastPath(w, t, e, pods);
      r.Step? && Apart(r.e, Room(t)) && (r.more ==> r.e.scheduled == e.scheduled + pods)
  {
    if pods != [] && Granted(w, e) {
      FreshApart(w, t, e, pods, base, spec);
      FreshPrefix(w, t, e, pods);
      FreshThenFast(w, t, e, pods, Room(t), spec);
    }
  }

  lemma FreshThenFast(w: World, t: NodeInfo, e: Est, pods: seq<Pod>, room: int, spec: Spec)
    requires pods != [] && Granted(w, e) && Simulated(e.nextIndex) !in e.cluster && Uniform(pods, spec)
    requires var r := Fresh(w, e, t, pods);
      && WellFilled(r, pods, room, spec) && (forall n, i :: Fake(n, i) !in r.e.withPods)
      && r.pods == pods[|pods| - |r.pods|..] && r.e.scheduled == e.scheduled + pods[..|pods| - |r.pods|]
    ensures var r := FastPath(w, t, e, pods);
      r.Step? && Apart(r.e, room) && (r.more ==> r.e.scheduled == e.scheduled + pods)
  {
    FastPathUnfolds(w, t, e, pods);
    FreshThenPretend(w, e, Fresh(w, e, t, pods), Simulated(e.nextIndex), pods, room, spec);
  }

  lemma FreshThenPretend(w: World, e: Est, r: Rest, n: NodeName, pods: seq<Pod>, room: int, spec: Spec)
    requires WellFilled(r, pods, room, spec) && Uniform(pods, spec)
    requires forall i :: Fake(n, i) !in r.e.withPods
    requires var k := |pods| - |r.pods|; r.pods == pods[k..] && r.e.scheduled == e.scheduled + pods[..k]
    ensures var k := |pods| - |r.pods|; var s := Pretend(w, r.e, n, r.pods, k, 1, CeilDiv(|pods|, k));
      s.Step? && Apart(s.e, room) && (s.more ==> s.e.scheduled == e.scheduled + pods)
  {
    PretendRest(w, r.e, n, pods, r.pods, room, spec);
    AppendSplit(e.scheduled, pods, |pods| - |r.pods|);
  }

  /** Pretending nodes for the pods left over after the first node took its share. */
  lemma PretendRest(w: World, e: Est, n: NodeName, pods: seq<Pod>, rest: seq<Pod>, room: int, spec: Spec)
    requires |rest| < |pods| && Apart(e, room) && Uniform(pods, spec)
    requires rest == pods[|pods| - |rest|..]
    requires forall i :: Fake(n, i) !in e.withPods
    requires rest != [] ==> Stuck(e, spec.size, room, None) && Overflows(|pods| - |rest|, spec.size, room)
    ensures var k := |pods| - |rest|; var r := Pretend(w, e, n, rest, k, 1, CeilDiv(|pods|, k));
      r.Step? && Apart(r.e, room) && (r.more ==> r.e.scheduled == e.scheduled + rest)
  {
    var k := |pods| - |rest|;
    FastPathSize(|pods|, k);
    forall p | p in rest ensures p in pods { }
    if rest != [] {
      PretendApart(w, e, n, rest, k, 1, CeilDiv(|pods|, k), room, spec);
    }
  }

  /** All pods of all groups, in order. */
  ghost function Flatten(groups: seq<seq<Pod>>): seq<Pod>
    decreases |groups|
  {
    if groups == [] then [] else groups[0] + Flatten(groups[1..])
  }

  /** Groups of identical pods, each of which fits a fresh node. */
  ghost predicate Packable(groups: seq<seq<Pod>>, room: int) {
    forall i :: 0 <= i < |groups| ==> exists spec: Spec :: Uniform(groups[i], spec) && spec.size <= room
  }

  lemma RoundTight(w: World, t: NodeInfo, e: Est, pods: seq<Pod>, fast: bool, more: bool, base: set<NodeName>,
      spec: Spec)
    requires Additive(w) && Tight(e, t, base)
    requires Uniform(pods, spec) && spec.size <= Room(t)
    requires fast ==> forall n, i :: Fake(n, i) !in e.cluster
    ensures var r := Round(w, t, e, pods, fast, more);
      && r.Step? && Apart(r.e, Room(t)) && (!fast ==> Tight(r.e, t, base))
      && (r.more ==> more && r.e.scheduled == e.scheduled + pods)
  {
    ExistingTight(w, t, e, pods, base, spec);
    var r := OnExisting(w, e, pods);
    if more {
      if fast {
        FastPathApart(w, t, r.e, r.pods, base, spec);
      } else {
        OnNewTight(w, t, r.e, r.pods, base, spec);
      }
    }
  }

  lemma ExistingTight(w: World, t: NodeInfo, e: Est, pods: seq<Pod>, base: set<NodeName>, spec: Spec)
    requires Additive(w) && Tight(e, t, base) && Uniform(pods, spec)
    ensures var r := OnExisting(w, e, pods);
      && r.Rest? && Tight(r.e, t, base) && Uniform(r.pods, spec)
      && (r.pods != [] ==> Stuck(r.e, spec.size, Room(t), None))
      && r.e.scheduled + r.pods == e.scheduled + pods
      && ((forall n, i :: Fake(n, i) !in e.cluster) ==> forall n, i :: Fake(n, i) !in r.e.cluster)
  {
    var r := OnExisting(w, e, pods);
    OnExistingTight(w, e, pods, t, base);
    OnExistingPrefix(w, e, pods);
    OnExistingNames(w, e, pods);
    AppendSplit(e.scheduled, pods, |r.e.scheduled| - |e.scheduled|);
    forall p | p in r.pods ensures p in pods { }
    if r.pods != [] { assert r.pods[0] in pods; }
  }

  lemma FlattenAppends(a: seq<Pod>, groups: seq<seq<Pod>>)
    requires groups != []
    ensures a + groups[0] + Flatten(groups[1..]) == a + Flatten(groups)
  {
  }

  /** The estimation never fails, keeps pairs apart, and leaves no pod out unless the limiter refused. */
  lemma {:induction false} PackTight(w: World, t: NodeInfo, e: Est, groups: seq<seq<Pod>>, fast: bool, more: bool,
      base: set<NodeName>)
    requires Additive(w) && Tight(e, t, base) && Packable(groups, Room(t))
    requires forall n, i :: Fake(n, i) !in e.cluster
    ensures var r := Pack(w, t, e, groups, fast, more);
      r.Step? && Apart(r.e, Room(t)) && (r.more ==> more && r.e.scheduled == e.scheduled + Flatten(groups))
    decreases |groups|
  {
    if groups != [] {
      var last := fast && |groups| == 1;
      var spec: Spec :| Uniform(groups[0], spec) && spec.size <= Room(t);
      var s := Round(w, t, e, groups[0], last, more);
      RoundTight(w, t, e, groups[0], last, more, base, spec);
      if groups[1..] == [] {
        assert Flatten(groups) == groups[0];
      } else {
        AdditiveRoomSound(w);
        RoundCapped(w, t, e, groups[0], last, more, base, spec);
        assert Packable(groups[1..], Room(t));
        PackTight(w, t, s.e, groups[1..], fast, s.more, base);
        FlattenAppends(e.scheduled, groups);
      }
    }
  }

  // ----- the bound -----

  ghost function Sum(xs: seq<nat>): nat {
    if xs == [] then 0 else Sum(xs[..|xs|-1]) + xs[|xs|-1]
  }

  /** Values whose pairs all exceed `room`: twice their sum exceeds `room` per value. */
  lemma {:induction false} PairsExceed(xs: seq<nat>, room: int)
    requires |xs| >= 2 && forall i, j :: 0 <= i < j < |xs| ==> xs[i] + xs[j] > room
    ensures 2 * Sum(xs) >= xs[0] + xs[|xs|-1] + (|xs| - 1) * (room + 1)
  {
    var init, x := xs[..|xs|-1], xs[|xs|-1];
    if |xs| == 2 {
      assert Sum(init) == Sum(init[..0]) + init[0] == xs[0];
    } else {
      PairsExceed(init, room);
      assert init[|init|-1] + x > room;
      assert (|xs| - 1) * (room + 1) == (|init| - 1) * (room + 1) + (room + 1);
    }
  }

  ghost predicate Distinct<H>(names: seq<H>) {
    forall i, j :: 0 <= i < j < |names| ==> names[i] != names[j]
  }

  ghost function Loads<H>(pods: seq<Pod>, homes: seq<H>, names: seq<H>): seq<nat>
    requires |pods| == |homes|
  {
    seq(|names|, i requires 0 <= i < |names| => HomeLoad(pods, homes, names[i]))
  }

  lemma {:induction false} SumZero(xs: seq<nat>)
    requires forall i :: 0 <= i < |xs| ==> xs[i] == 0
    ensures Sum(xs) == 0
  {
    if xs != [] { SumZero(xs[..|xs|-1]); }
  }

  /** Changing one entry changes the sum by the same amount. */
  lemma {:induction false} SumUpdate(xs: seq<nat>, ys: seq<nat>, k: nat, d: nat)
    requires |xs| == |ys| && k < |xs|
    requires forall i :: 0 <= i < |xs| ==> ys[i] == xs[i] + if i == k then d else 0
    ensures Sum(ys) == Sum(xs) + d
  {
    var m := |xs| - 1;
    if k == m {
      assert xs[..m] == ys[..m];
    } else {
      SumUpdate(xs[..m], ys[..m], k, d);
    }
  }

  /** The loads of all homes add up to the load of all pods. */
  lemma {:induction false} LoadsAddUp<H>(pods: seq<Pod>, homes: seq<H>, names: seq<H>)
    requires |pods| == |homes| && Distinct(names)
    requires forall h :: h in homes ==> h in names
    ensures Sum(Loads(pods, homes, names)) == Load(pods)
  {
    if pods == [] {
      SumZero(Loads(pods, homes, names));
    } else {
      var m := |pods| - 1;
      LoadsAddUp(pods[..m], homes[..m], names);
      assert homes[m] in homes;
      var k :| 0 <= k < |names| && names[k] == homes[m];
      SumUpdate(Loads(pods[..m], homes[..m], names), Loads(pods, homes, names), k, pods[m].spec.size);
    }
  }

  /** An assignment of the pods to `bins` nodes with this much room each. */
  ghost predicate FeasiblePacking(pods: seq<Pod>, assignment: seq<nat>, bins: nat, room: int) {
    && |assignment| == |pods|
    && (forall i :: 0 <= i < |pods| ==> assignment[i] < bins)
    && forall b: nat :: b < bins ==> HomeLoad(pods, assignment, b) <= room
  }

  lemma {:induction false} SumBound(xs: seq<nat>, room: int)
    requires forall i :: 0 <= i < |xs| ==> xs[i] <= room
    ensures Sum(xs) <= |xs| * room
  {
    if xs != [] {
      SumBound(xs[..|xs|-1], room);
      assert |xs| * room == (|xs| - 1) * room + room;
    }
  }

  lemma PackingBound(pods: seq<Pod>, assignment: seq<nat>, bins: nat, room: int)
    requires FeasiblePacking(pods, assignment, bins, room)
    ensures Load(pods) <= bins * room
  {
    var names: seq<nat> := seq(bins, i requires 0 <= i < bins => i);
    assert forall h :: h in assignment ==> h < bins && names[h] == h;
    LoadsAddUp<nat>(pods, assignment, names);
    var loads := Loads<nat>(pods, assignment, names);
    forall i | 0 <= i < |loads| ensures loads[i] <= room {
      var b: nat := names[i];
      assert HomeLoad<nat>(pods, assignment, b) <= room;
    }
    SumBound(loads, room);
  }

  lemma {:induction false} Enumerate<H>(s: set<H>) returns (names: seq<H>)
    ensures Distinct(names) && |names| == |s| && forall h :: h in s <==> h in names
    decreases |s|
  {
    if s == {} {
      names := [];
    } else {
      var x :| x in s;
      var rest := Enumerate(s - {x});
      names := rest + [x];
    }
  }

  lemma CountArithmetic(count: nat, bins: nat, room: nat, total: nat)
    requires 2 * total > room + (count - 1) * (room + 1) && total <= bins * room && count > 0
    ensures count < 2 * bins
  {
    assert (count - 1) * (room + 1) + (room + 1) == count * (room + 1);
    assert 2 * total <= 2 * (bins * room) == (2 * bins) * room;
    assert count * room < count * (room + 1);
  }

  /** Places kept apart, compared with any feasible packing of the same pods. */
  lemma ApartBound(e: Est, assignment: seq<nat>, bins: nat, room: int)
    requires Apart(e, room) && e.scheduled != []
    requires FeasiblePacking(e.scheduled, assignment, bins, room)
    ensures |e.withPods| <= 2 * bins - 1
  {
    PackingBound(e.scheduled, assignment, bins, room);
    var b: nat := assignment[0];
    assert b < bins && HomeLoad<nat>(e.scheduled, assignment, b) <= room;
    var names := Enumerate(e.withPods);
    LoadsAddUp(e.scheduled, e.homes, names);
    var loads := Loads(e.scheduled, e.homes, names);
    var count := |names|;
    if count >= 2 {
      LoadsApart(e, names, room);
      PairsExceed(loads, room);
      assert loads[0] + loads[count-1] > room;
      CountArithmetic(count, bins, room, Load(e.scheduled));
    }
  }

  lemma LoadsApart(e: Est, names: seq<NodeName>, room: int)
    requires Apart(e, room) && Distinct(names) && forall n :: n in names ==> n in e.withPods
    ensures var loads := Loads(e.scheduled, e.homes, names);
      forall i, j :: 0 <= i < j < |loads| ==> loads[i] + loads[j] > room
  {
    var loads := Loads(e.scheduled, e.homes, names);
    forall i, j | 0 <= i < j < |loads| ensures loads[i] + loads[j] > room {
      assert names[i] in names && names[j] in names;
      assert loads[i] == At(e, names[i]) && loads[j] == At(e, names[j]);
    }
  }

  /**
    The estimation from a fresh state, without refusal by the limiter: every pod is returned, no two
    counted nodes fit into one, and the count is below twice that of any feasible packing.
   */
  lemma EstimateIsAnyFit(w: World, t: NodeInfo, c: Cluster, b: Budget, groups: seq<seq<Pod>>, fast: bool)
    requires Additive(w) && Packable(groups, Room(t))
    requires forall n :: n in c ==> n.Existing?
    requires var r := Pack(w, t, Start(c, b), groups, fast, true); r.Step? ==> r.more
    ensures var r := Pack(w, t, Start(c, b), groups, fast, true);
      && r.Step? && r.e.scheduled == Flatten(groups) && Apart(r.e, Room(t))
      && forall assignment: seq<nat>, bins: nat ::
           FeasiblePacking(Flatten(groups), assignment, bins, Room(t)) && Flatten(groups) != [] ==>
               |r.e.withPods| <= 2 * bins - 1
  {
    var e := Start(c, b);
    assert Tight(e, t, c.Keys);
    PackTight(w, t, e, groups, fast, true, c.Keys);
    var r := Pack(w, t, e, groups, fast, true);
    assert [] + Flatten(groups) == Flatten(groups);
    forall assignment: seq<nat>, bins: nat | FeasiblePacking(Flatten(groups), assignment, bins, Room(t))
        && Flatten(groups) != []
      ensures |r.e.withPods| <= 2 * bins - 1
    {
      ApartBound(r.e, assignment, bins, Room(t));
    }
  }
}
