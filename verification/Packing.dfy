/**
  Where the estimation puts load. Under any scheduler that never overfills a node, no simulated or
  pretended node carries more than the template's capacity.
 */
module Packing {
  import opened Snapshots
  import opened Estimation

  // ----- loads by place -----

  /** Total size of the pods whose home is `n`. */
  ghost function HomeLoad<H>(pods: seq<Pod>, homes: seq<H>, n: H): nat
    requires |pods| == |homes|
  {
    if pods == [] then 0
    else HomeLoad(pods[..|pods|-1], homes[..|homes|-1], n)
         + if homes[|homes|-1] == n then pods[|pods|-1].spec.size else 0
  }

  ghost function At(e: Est, n: NodeName): nat
    requires |e.scheduled| == |e.homes|
  {
    HomeLoad(e.scheduled, e.homes, n)
  }

  lemma {:induction false} HomeAbsent<H>(pods: seq<Pod>, homes: seq<H>, n: H)
    requires |pods| == |homes| && n !in homes
    ensures HomeLoad(pods, homes, n) == 0
  {
    if pods != [] {
      HomeAbsent(pods[..|pods|-1], homes[..|homes|-1], n);
    }
  }

  lemma AtTrack(e: Est, p: Pod, n: NodeName, m: NodeName)
    requires |e.scheduled| == |e.homes|
    ensures At(Track(e, p, n), m) == At(e, m) + if m == n then p.spec.size else 0
  {
    var r := Track(e, p, n);
    assert r.scheduled[..|r.scheduled|-1] == e.scheduled && r.homes[..|r.homes|-1] == e.homes;
  }

  lemma {:induction false} LoadCons(p: Pod, pods: seq<Pod>)
    ensures Load([p] + pods) == p.spec.size + Load(pods)
  {
    if pods == [] {
      LoadSnoc([], p);
      assert [p] + pods == [] + [p];
    } else {
      var init, x := pods[..|pods|-1], pods[|pods|-1];
      LoadCons(p, init);
      LoadSnoc([p] + init, x);
      assert [p] + pods == ([p] + init) + [x];
    }
  }

  lemma {:induction false} AtTrackAll(e: Est, pods: seq<Pod>, n: NodeName, m: NodeName)
    requires |e.scheduled| == |e.homes|
    ensures var r := TrackAll(e, pods, n);
      |r.scheduled| == |r.homes| && At(r, m) == At(e, m) + if m == n then Load(pods) else 0
    decreases |pods|
  {
    if pods != [] {
      AtTrack(e, pods[0], n, m);
      AtTrackAll(Track(e, pods[0], n), pods[1..], n, m);
      LoadCons(pods[0], pods[1..]);
      assert [pods[0]] + pods[1..] == pods;
    }
  }

  // ----- no node beyond the template's capacity -----

  /** A scheduler that never puts a pod on a node without room for it. */
  ghost predicate RoomSound(w: World) {
    forall c: Cluster, p: Pod, n: NodeName :: n in c && w.check(c, p, n) == Fits ==>
        Load(c[n].pods) + p.spec.size <= c[n].room
  }

  /** Bookkeeping of the packing: an added node is the template plus the pods tracked on it. */
  ghost predicate Ledger(e: Est, t: NodeInfo, base: set<NodeName>) {
    && |e.homes| == |e.scheduled|
    && e.withPods == Carrying(e.homes)
    && e.cluster.Keys == base + e.newNodes
    && e.withPods <= e.cluster.Keys
    && (e.last.Some? ==> e.last.value in e.newNodes)
    && forall n :: n in e.newNodes ==> AsTemplate(e, t, n)
  }

  ghost predicate AsTemplate(e: Est, t: NodeInfo, n: NodeName)
    requires |e.homes| == |e.scheduled|
  {
    && n in e.cluster
    && e.cluster[n].room == t.room
    && Load(e.cluster[n].pods) == Load(t.pods) + At(e, n)
    && (n in e.withPods ==> Load(e.cluster[n].pods) <= t.room)
  }

  /** No counted node outside the original cluster carries more than the template allows. */
  ghost predicate Capped(e: Est, t: NodeInfo, base: set<NodeName>) {
    && |e.homes| == |e.scheduled|
    && e.withPods == Carrying(e.homes)
    && forall n :: n in e.withPods - base ==> Load(t.pods) + At(e, n) <= t.room
  }

  lemma PlaceLedger(e: Est, t: NodeInfo, base: set<NodeName>, p: Pod, n: NodeName)
    requires Ledger(e, t, base) && n in e.cluster
    requires n in e.newNodes ==> Load(e.cluster[n].pods) + p.spec.size <= t.room
    ensures Ledger(Place(e, p, n), t, base)
    ensures forall m :: At(Place(e, p, n), m) == At(e, m) + if m == n then p.spec.size else 0
  {
    var r := Place(e, p, n);
    forall m ensures At(r, m) == At(e, m) + if m == n then p.spec.size else 0 {
      AtTrack(e.(cluster := AddPod(e.cluster, n, p)), p, n, m);
    }
    LoadSnoc(e.cluster[n].pods, p);
    forall m | m in r.newNodes ensures AsTemplate(r, t, m) {
      assert AsTemplate(e, t, m);
    }
  }

  lemma AddNodeLedger(w: World, e: Est, t: NodeInfo, base: set<NodeName>)
    requires Ledger(e, t, base) && AddNode(Ask(w, e), t).Some?
    ensures var r := AddNode(Ask(w, e), t).value;
      && Ledger(r, t, base) && At(r, r.last.value) == 0 && r.last.value !in e.withPods + base
      && r.scheduled == e.scheduled && r.homes == e.homes && r.withPods == e.withPods
  {
    var r := AddNode(Ask(w, e), t).value;
    HomeAbsent(e.scheduled, e.homes, r.last.value);
    forall m | m in r.newNodes ensures AsTemplate(r, t, m) {
      assert m in e.newNodes ==> AsTemplate(e, t, m);
    }
  }

  lemma {:induction false} OnExistingLedger(w: World, e: Est, pods: seq<Pod>, t: NodeInfo, base: set<NodeName>)
    requires w.Sound() && RoomSound(w) && Ledger(e, t, base)
    ensures Ledger(OnExisting(w, e, pods).e, t, base)
    decreases |pods|
  {
    if pods != [] {
      var c := w.pick(e.cluster, pods[0], e.newNodes);
      if c.On? {
        assert AsTemplate(e, t, c.node);
        PlaceLedger(e, t, base, pods[0], c.node);
        OnExistingLedger(w, Place(e, pods[0], c.node), pods[1..], t, base);
      }
    }
  }

  lemma TryLastLedger(w: World, e: Est, p: Pod, t: NodeInfo, base: set<NodeName>)
    requires w.Sound() && RoomSound(w) && Ledger(e, t, base) && TryLast(w, e, p).Placed?
    ensures Ledger(TryLast(w, e, p).e, t, base)
  {
    var n := e.last.value;
    var m := if Try(w, e, p, n) == Fits then n else w.pick(e.cluster, p, e.cluster.Keys - {n}).node;
    assert m in e.newNodes ==> AsTemplate(e, t, m);
    PlaceLedger(e, t, base, p, m);
  }

  lemma {:induction false} OnNewLedger(w: World, t: NodeInfo, e: Est, pods: seq<Pod>, base: set<NodeName>)
    requires w.Sound() && RoomSound(w) && Ledger(e, t, base)
    ensures Ledger(OnNew(w, t, e, pods).e, t, base)
    decreases |pods|
  {
    if pods != [] {
      var a := TryLast(w, e, pods[0]);
      if a.Placed? {
        TryLastLedger(w, e, pods[0], t, base);
        OnNewLedger(w, t, a.e, pods[1..], base);
      } else if a.NotPlaced? && Granted(w, e) && AddNode(Ask(w, e), t).Some? {
        var e2 := AddNode(Ask(w, e), t).value;
        AddNodeLedger(w, e, t, base);
        if Try(w, e2, pods[0], e2.last.value) == Fits {
          assert AsTemplate(e2, t, e2.last.value);
          PlaceLedger(e2, t, base, pods[0], e2.last.value);
          OnNewLedger(w, t, Place(e2, pods[0], e2.last.value), pods[1..], base);
        }
      }
    }
  }

  /** All pods of a group have the same scheduling requirements. */
  ghost predicate Uniform(pods: seq<Pod>, spec: Spec) {
    forall p :: p in pods ==> p.spec == spec
  }

  lemma {:induction false} UniformLoad(pods: seq<Pod>, spec: Spec)
    requires Uniform(pods, spec)
    ensures Load(pods) == |pods| * spec.size
  {
    if pods != [] {
      var init, x := pods[..|pods|-1], pods[|pods|-1];
      assert x in pods && forall p :: p in init ==> p in pods;
      UniformLoad(init, spec);
      assert |pods| * spec.size == |init| * spec.size + spec.size;
    }
  }

  lemma {:induction false} FillLedger(w: World, e: Est, n: NodeName, pods: seq<Pod>, t: NodeInfo, base: set<NodeName>)
    requires RoomSound(w) && Ledger(e, t, base) && n in e.newNodes
    ensures var r := Fill(w, e, n, pods).e; Ledger(r, t, base) && r.newNodes == e.newNodes
    decreases |pods|
  {
    if pods != [] && Try(w, e, pods[0], n) == Fits {
      assert AsTemplate(e, t, n);
      PlaceLedger(e, t, base, pods[0], n);
      FillLedger(w, Place(e, pods[0], n), n, pods[1..], t, base);
    }
  }

  /** Filling tracks pods on the node being filled only. */
  lemma {:induction false} FillTracks(w: World, e: Est, n: NodeName, pods: seq<Pod>)
    requires |e.homes| == |e.scheduled|
    ensures var r := Fill(w, e, n, pods).e;
      && |r.homes| == |r.scheduled| >= |e.scheduled|
      && r.withPods == (if |r.scheduled| == |e.scheduled| then e.withPods else e.withPods + {n})
      && r.cluster.Keys == e.cluster.Keys
    decreases |pods|
  {
    if pods != [] && Try(w, e, pods[0], n) == Fits {
      FillTracks(w, Place(e, pods[0], n), n, pods[1..]);
    }
  }

  /** The load after one more pod and `k` others of the same size. */
  lemma LoadAdds(before: int, one: int, all: int, k: nat, size: nat, here: bool)
    requires one == before + (if here then size else 0) && all == one + (if here then k * size else 0)
    ensures all == before + if here then (k + 1) * size else 0
  {
  }

  lemma PlaceLoads(e: Est, p: Pod, n: NodeName, m: NodeName)
    requires |e.homes| == |e.scheduled| && n in e.cluster
    ensures var r := Place(e, p, n);
      && |r.homes| == |r.scheduled| == |e.scheduled| + 1
      && At(r, m) == At(e, m) + if m == n then p.spec.size else 0
  {
    AtTrack(e.(cluster := AddPod(e.cluster, n, p)), p, n, m);
  }

  /** Filling loads exactly the node being filled, by one pod size per pod. */
  lemma {:induction false} FillLoads(w: World, e: Est, n: NodeName, pods: seq<Pod>, spec: Spec, m: NodeName)
    requires |e.homes| == |e.scheduled| && Uniform(pods, spec)
    ensures var r := Fill(w, e, n, pods).e;
      && |r.homes| == |r.scheduled| >= |e.scheduled|
      && At(r, m) == At(e, m) + (if m == n then (|r.scheduled| - |e.scheduled|) * spec.size else 0)
      && r.withPods == (if |r.scheduled| == |e.scheduled| then e.withPods else e.withPods + {n})
      && r.cluster.Keys == e.cluster.Keys
    decreases |pods|
  {
    FillTracks(w, e, n, pods);
    if pods != [] && Try(w, e, pods[0], n) == Fits {
      assert pods[0] in pods && forall p :: p in pods[1..] ==> p in pods;
      var e1 := Place(e, pods[0], n);
      PlaceLoads(e, pods[0], n, m);
      FillLoads(w, e1, n, pods[1..], spec, m);
      var r := Fill(w, e1, n, pods[1..]).e;
      assert Fill(w, e, n, pods).e == r;
      LoadAdds(At(e, m), At(e1, m), At(r, m), |r.scheduled| - |e1.scheduled|, spec.size, m == n);
    }
  }

  /** Pretended nodes hold at most as many identical pods as the node that was filled. */
  lemma {:induction false} PretendCapped(
    w: World, e: Est, of: NodeName, pods: seq<Pod>, perNode: nat, j: nat, size: nat, t: NodeInfo, base: set<NodeName>,
        spec: Spec)
    requires Capped(e, t, base) && Uniform(pods, spec)
    requires Load(t.pods) + perNode * spec.size <= t.room
    requires forall i :: j <= i ==> Fake(of, i) !in e.withPods
    ensures Capped(Pretend(w, e, of, pods, perNode, j, size).e, t, base)
    decreases size - j
  {
    if j < size && Granted(w, e) {
      var k := if perNode < |pods| then perNode else |pods|;
      var e1 := TrackAll(Ask(w, e), pods[..k], Fake(of, j));
      forall p | p in pods[..k] || p in pods[k..] ensures p in pods { }
      UniformLoad(pods[..k], spec);
      MulMonotone(k, perNode, spec.size);
      PretendOneCapped(w, e, Fake(of, j), pods[..k], t, base);
      TrackAllEffect(Ask(w, e), pods[..k], Fake(of, j));
      PretendCapped(w, e1, of, pods[k..], perNode, j + 1, size, t, base, spec);
    }
  }

  /** One pretended node with pods that the template has room for. */
  lemma PretendOneCapped(w: World, e: Est, f: NodeName, pods: seq<Pod>, t: NodeInfo, base: set<NodeName>)
    requires Capped(e, t, base) && f !in e.withPods && Load(t.pods) + Load(pods) <= t.room
    ensures Capped(TrackAll(Ask(w, e), pods, f), t, base)
  {
    var e0 := Ask(w, e);
    var e1 := TrackAll(e0, pods, f);
    TrackAllEffect(e0, pods, f);
    HomeAbsent(e0.scheduled, e0.homes, f);
    forall n | n in e1.withPods - base ensures Load(t.pods) + At(e1, n) <= t.room {
      AtTrackAll(e0, pods, f, n);
      assert At(e0, n) == At(e, n);
    }
  }

  lemma MulMonotone(a: nat, b: nat, c: nat)
    requires a <= b
    ensures a * c <= b * c
  {
    assert (b - a) * c >= 0;
    assert b * c == a * c + (b - a) * c;
  }

  lemma LedgerCapped(e: Est, t: NodeInfo, base: set<NodeName>)
    requires Ledger(e, t, base)
    ensures Capped(e, t, base)
  {
    forall n | n in e.withPods - base ensures Load(t.pods) + At(e, n) <= t.room {
      assert AsTemplate(e, t, n);
    }
  }

  lemma AfterOpeningCapped(w: World, t: NodeInfo, e: Est, n: NodeName, pods: seq<Pod>, base: set<NodeName>, spec: Spec)
    requires RoomSound(w) && Ledger(e, t, base) && Uniform(pods, spec) && n in e.newNodes && e.cluster[n] == t
    requires n !in e.withPods && forall m, i :: Fake(m, i) !in e.cluster
    ensures Capped(AfterOpening(w, e, n, pods).e, t, base)
  {
    FillLedger(w, e, n, pods, t, base);
    FillLoads(w, e, n, pods, spec, n);
    FillPrefix(w, e, n, pods);
    var r := Fill(w, e, n, pods);
    LedgerCapped(r.e, t, base);
    if r.Rest? && |pods| > |r.pods| {
      var perNode := |pods| - |r.pods|;
      assert AsTemplate(r.e, t, n);
      forall p | p in r.pods ensures p in pods { }
      PretendCapped(w, r.e, n, r.pods, perNode, 1, CeilDiv(|pods|, perNode), t, base, spec);
      assert AfterOpening(w, e, n, pods) == Pretend(w, r.e, n, r.pods, perNode, 1, CeilDiv(|pods|, perNode));
    }
  }

  lemma FastPathCapped(w: World, t: NodeInfo, e: Est, pods: seq<Pod>, base: set<NodeName>, spec: Spec)
    requires RoomSound(w) && Ledger(e, t, base) && Uniform(pods, spec)
    requires forall n, i :: Fake(n, i) !in e.cluster
    ensures Capped(FastPath(w, t, e, pods).e, t, base)
  {
    LedgerCapped(e, t, base);
    if pods != [] && Granted(w, e) && AddNode(Ask(w, e), t).Some? {
      AddNodeLedger(w, e, t, base);
      var e1 := AddNode(Ask(w, e), t).value;
      AfterOpeningCapped(w, t, e1, e1.last.value, pods, base, spec);
    }
  }

  /** The whole estimation keeps every node it counts outside the cluster within the template. */
  lemma {:induction false} PackCapped(w: World, t: NodeInfo, e: Est, groups: seq<seq<Pod>>, fast: bool, more: bool,
      base: set<NodeName>, spec: Spec)
    requires w.Sound() && RoomSound(w) && Ledger(e, t, base)
    requires forall n, i :: Fake(n, i) !in e.cluster
    requires fast && groups != [] ==> Uniform(groups[|groups|-1], spec)
    ensures Capped(Pack(w, t, e, groups, fast, more).e, t, base)
    decreases |groups|
  {
    LedgerCapped(e, t, base);
    if groups != [] {
      var last := fast && |groups| == 1;
      var s := Round(w, t, e, groups[0], last, more);
      RoundCapped(w, t, e, groups[0], last, more, base, spec);
      if s.Step? && groups[1..] != [] {
        PackCapped(w, t, s.e, groups[1..], fast, s.more, base, spec);
      }
    }
  }

  lemma RoundCapped(w: World, t: NodeInfo, e: Est, pods: seq<Pod>, fast: bool, more: bool, base: set<NodeName>,
      spec: Spec)
    requires w.Sound() && RoomSound(w) && Ledger(e, t, base)
    requires forall n, i :: Fake(n, i) !in e.cluster
    requires fast ==> Uniform(pods, spec)
    ensures var r := Round(w, t, e, pods, fast, more).e;
      Capped(r, t, base) && (!fast ==> Ledger(r, t, base) && forall n, i :: Fake(n, i) !in r.cluster)
  {
    var r := OnExisting(w, e, pods);
    OnExistingLedger(w, e, pods, t, base);
    OnExistingPrefix(w, e, pods);
    OnExistingNames(w, e, pods);
    LedgerCapped(r.e, t, base);
    if r.Rest? && more {
      if fast {
        forall p | p in r.pods ensures p in pods { }
        FastPathCapped(w, t, r.e, r.pods, base, spec);
      } else {
        OnNewLedger(w, t, r.e, r.pods, base);
        OnNewNames(w, t, r.e, r.pods);
        LedgerCapped(OnNew(w, t, r.e, r.pods).e, t, base);
      }
    }
  }

  lemma {:induction false} OnExistingNames(w: World, e: Est, pods: seq<Pod>)
    requires w.Sound()
    ensures OnExisting(w, e, pods).e.cluster.Keys == e.cluster.Keys
    decreases |pods|
  {
    if pods != [] {
      var c := w.pick(e.cluster, pods[0], e.newNodes);
      if c.On? {
        OnExistingNames(w, Place(e, pods[0], c.node), pods[1..]);
      }
    }
  }

  /** New nodes bring only names made from the running index. */
  lemma {:induction false} OnNewNames(w: World, t: NodeInfo, e: Est, pods: seq<Pod>)
    requires w.Sound()
    ensures forall n :: n in OnNew(w, t, e, pods).e.cluster ==> n in e.cluster || n.Simulated?
    decreases |pods|
  {
    if pods != [] {
      var a := TryLast(w, e, pods[0]);
      if a.Placed? {
        assert a.e.cluster.Keys == e.cluster.Keys;
        OnNewNames(w, t, a.e, pods[1..]);
      } else if a.NotPlaced? && Granted(w, e) && AddNode(Ask(w, e), t).Some? {
        var e2 := AddNode(Ask(w, e), t).value;
        if Try(w, e2, pods[0], e2.last.value) == Fits {
          OnNewNames(w, t, Place(e2, pods[0], e2.last.value), pods[1..]);
        }
      }
    }
  }
}
