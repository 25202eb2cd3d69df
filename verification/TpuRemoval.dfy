/**
  One removal as the simulator performs it: TPU requests are cleared before pods are placed, so a pod
  that asks for a TPU may end on a node that has none.
 */
module TpuRemoval {
  import opened Snapshots
  import opened Removal

  /** Two nodes are known, and the predicates check both resources. */
  function RoomCheck(c: Cluster, p: Pod, n: NodeName): Verdict {
    if n in c && (n == Existing(0) || n == Existing(1))
      && Load(c[n].pods) + p.spec.size <= c[n].room && TpuLoad(c[n].pods) + p.spec.tpu <= c[n].tpuRoom
    then Fits else Rejected(false)
  }

  function FirstFit(c: Cluster, p: Pod, names: set<NodeName>): Choice {
    if Existing(0) in names && RoomCheck(c, p, Existing(0)) == Fits then On(Existing(0))
    else if Existing(1) in names && RoomCheck(c, p, Existing(1)) == Fits then On(Existing(1))
    else Nowhere
  }

  const ROOM_WORLD := World(RoomCheck, FirstFit, (k: nat) => 0)

  /** Rules under which every pod moves. */
  const MOVE_ALL := Drainer((n: NodeName, p: Pod) => DrainOk, (p: Pod) => false, (ps: seq<Pod>) => [ps],
                            (p: Pod) => false)

  lemma RoomWorldIsSound()
    ensures ROOM_WORLD.Sound() && Careful(ROOM_WORLD) && MOVE_ALL.Sound()
  {
    forall ps: seq<Pod> | Distinct(ps) ensures IsPartition(MOVE_ALL.rounds(ps), ps) {
      assert MOVE_ALL.rounds(ps) == [ps] && [ps][..0] == [] && Flat([ps]) == ps;
    }
  }

  const TPU_POD := Pod(0, Spec(1, 1, false, 0))

  /** The pod that asks for a TPU is on node 0; node 1 is empty and has none. */
  const TPU_CLUSTER: Cluster :=
    map[Existing(0) := NodeInfo(1, 1, false, [TPU_POD]), Existing(1) := NodeInfo(1, 0, false, [])]

  const TPU_CALL := Call(Existing(0), {Existing(1)}, MOVE_ALL)

  lemma TpuClusterFacts()
    ensures UniqueIds(TPU_CLUSTER) && Within(TPU_CLUSTER)
    ensures FirstBlock(MOVE_ALL, Existing(0), [TPU_POD]) == 1 && Listed(TPU_CALL, [TPU_POD]) == [TPU_POD]
  {
    OneLoad(TPU_POD);
    assert FirstBlock(MOVE_ALL, Existing(0), [TPU_POD]) == 1;
    assert [TPU_POD][..1] == [TPU_POD] && [TPU_POD][..0] == [];
    assert MOVE_ALL.KindOf(Existing(0), TPU_POD) == Move;
    assert OfKind(MOVE_ALL, Existing(0), [TPU_POD], Move) == [] + [TPU_POD];
  }

  /** As long as the only pod has no place, nothing has changed. */
  lemma NothingPlaced(b: Cluster, c: Cluster, ok: set<NodeName>, pool: seq<Pod>, placed: seq<Pod>, p: Pod)
    requires Placed(b, c, ok, pool, placed) && pool == [p] && !InPods(placed, p.id) && !Has(b, p.id)
    ensures c == b
  {
    assert HasExactly(b, c, placed, p.id);
    forall n | n in b ensures n in c && c[n] == b[n] {
      assert GrewAt(b, c, ok, pool, n);
      if |c[n].pods| > |b[n].pods| {
        assert c[n].pods[|b[n].pods|] == p;
        assert At(c, n, |b[n].pods|, p.id);
      }
    }
    forall n | n in c ensures n in b {
      assert GrewAt(b, c, ok, pool, n);
    }
  }

  /** A single pod that is not hindered at first never is. */
  lemma SinglePodFinds(w: World, d: Drainer, b: Cluster, ok: set<NodeName>, p: Pod)
    requires !Has(b, p.id) && !Hindered(w, d, b, ok, p)
    ensures !SomeHindered(w, d, b, ok, [p])
  {
    forall c: Cluster, placed: seq<Pod>, q: Pod ensures !HinderedAt(w, d, b, ok, [p], c, placed, q) {
      if HinderedAt(w, d, b, ok, [p], c, placed, q) {
        NothingPlaced(b, c, ok, [p], placed, q);
        assert false;
      }
    }
  }

  /** The pod without its TPU request, and the cluster while the node is emptied. */
  const CLEARED_POD := Pod(0, Spec(1, 0, false, 0))

  const EMPTIED: Cluster := map[Existing(0) := NodeInfo(1, 1, true, []), Existing(1) := NodeInfo(1, 0, false, [])]

  lemma ClearedPodFits()
    ensures !Has(EMPTIED, 0) && !Hindered(ROOM_WORLD, MOVE_ALL, EMPTIED, {Existing(1)}, CLEARED_POD)
  {
    assert Load([]) == 0 && TpuLoad([]) == 0;
    assert RoomCheck(EMPTIED, CLEARED_POD, Existing(1)) == Fits;
    assert ROOM_WORLD.check(EMPTIED, CLEARED_POD, Existing(1)) == Fits;
    assert ROOM_WORLD.pick(EMPTIED, CLEARED_POD, {Existing(1)}) == On(Existing(1));
  }

  /** Without its TPU request the pod finds a place on node 1. */
  lemma TpuPodFinds()
    ensures !NoPlaceFor(ROOM_WORLD, TPU_CALL, TPU_CLUSTER)
  {
    TpuClusterFacts();
    ClearedPodFits();
    SinglePodFinds(ROOM_WORLD, MOVE_ALL, EMPTIED, {Existing(1)}, CLEARED_POD);
    assert TPU_CLUSTER[Existing(0) := Ghost(TPU_CLUSTER[Existing(0)])] == EMPTIED;
    assert Cleared([TPU_POD]) == [CLEARED_POD];
    assert {Existing(1)} - {Existing(0)} == {Existing(1)};
  }

  /** The simulator moves a pod that asks for a TPU to a node that has none. */
  method RemovalOverloadsTpu() returns (outcome: Outcome, after: Cluster)
    ensures outcome.ToBeRemoved? && outcome.info.pods == [TPU_POD]
    ensures Within(TPU_CLUSTER) && Within(after) && Existing(1) in after
    ensures TrueTpu(after[Existing(1)], [TPU_POD]) > after[Existing(1)].tpuRoom
  {
    RoomWorldIsSound();
    TpuClusterFacts();
    TpuPodFinds();
    var snapshot := new ClusterSnapshot(ROOM_WORLD);
    snapshot.SetTop(TPU_CLUSTER);
    var sim := new RemovalSimulator(snapshot, true);
    outcome := sim.SimulateNodeRemoval(TPU_CALL);
    after := snapshot.Top();
    assert TPU_CLUSTER[Existing(0)].pods == [TPU_POD];
    assert outcome.ToBeRemoved? && outcome.info.pods == [TPU_POD];
    assert {Existing(1)} - {Existing(0)} == {Existing(1)};
    assert Relocated(TPU_CLUSTER, after, Existing(0), {Existing(1)}, [TPU_POD]);
    RelocatedWithin(TPU_CLUSTER, after, Existing(0), {Existing(1)}, [TPU_POD]);
    assert SurvivesAs(TPU_CLUSTER, after, Existing(0), {Existing(1)}, Cleared([TPU_POD]), Existing(1));
    OneLoad(TPU_POD);
    TrueTpuExactlyWhen(TPU_CLUSTER, after, Existing(0), Existing(1), [TPU_POD]);
  }
}
