/**
  Simulated node removals: which pods of a node must move, whether they find places on other nodes,
  and transactional what-if runs on a forked snapshot whose successes accumulate.
 */
module Removal {
  import opened Wrappers
  import opened Snapshots

  // ----- which pods move -----

  /** A drainability rule may block a drain without giving an error. */
  datatype DrainStatus = Undefined | DrainOk | WaitForCompletion | SkipDrain | BlockDrain(hasError: bool)

  datatype Kind = Move | DaemonSet | OnCompletion | Stay | Blocking

  datatype MoveInfo = MoveInfo(pods: seq<Pod>, daemonSetPods: seq<Pod>, onCompletionPods: seq<Pod>,
      blocking: Option<Pod>)

  /** The rules in force for one simulation, the rounds in which pods are tried, and which pods
      are similar to ones already found unschedulable. */
  datatype Drainer = Drainer(
    status: (NodeName, Pod) -> DrainStatus, daemonSet: Pod -> bool,
    rounds: seq<Pod> -> seq<seq<Pod>>, similar: Pod -> bool)
  {
    /** Each pod is tried in exactly one round. */
    ghost predicate Sound() {
      forall ps :: Distinct(ps) ==> IsPartition(rounds(ps), ps)
    }

    function KindOf(n: NodeName, p: Pod): Kind {
      match status(n, p)
      case BlockDrain(_) => Blocking
      case WaitForCompletion => OnCompletion
      case SkipDrain => Stay
      case _ => if daemonSet(p) then DaemonSet else Move
    }

    /** Blocking pods always come with an error. */
    ghost predicate Firm() {
      forall n, p :: status(n, p) != BlockDrain(false)
    }
  }

  function Flat(rounds: seq<seq<Pod>>): seq<Pod> {
    if rounds == [] then [] else Flat(rounds[..|rounds|-1]) + rounds[|rounds|-1]
  }

  /** The rounds hold every pod exactly once. */
  ghost predicate IsPartition(rounds: seq<seq<Pod>>, pods: seq<Pod>) {
    Distinct(Flat(rounds)) && forall p :: p in Flat(rounds) <==> p in pods
  }

  ghost predicate Distinct(pods: seq<Pod>) {
    forall i, j :: 0 <= i < j < |pods| ==> pods[i].id != pods[j].id
  }

  /** The pods of one kind, in node order. */
  function OfKind(d: Drainer, n: NodeName, pods: seq<Pod>, k: Kind): seq<Pod> {
    if pods == [] then []
    else OfKind(d, n, pods[..|pods|-1], k) + if d.KindOf(n, pods[|pods|-1]) == k then [pods[|pods|-1]] else []
  }

  /** The position of the first blocking pod, or the number of pods. */
  function FirstBlock(d: Drainer, n: NodeName, pods: seq<Pod>): (b: nat)
    ensures b <= |pods|
    ensures forall i :: 0 <= i < b ==> d.KindOf(n, pods[i]) != Blocking
    ensures b < |pods| ==> d.KindOf(n, pods[b]) == Blocking
  {
    if pods == [] || d.KindOf(n, pods[0]) == Blocking then 0 else 1 + FirstBlock(d, n, pods[1..])
  }

  lemma {:induction false} OfKindContents(d: Drainer, n: NodeName, pods: seq<Pod>, k: Kind)
    ensures forall p :: p in OfKind(d, n, pods, k) <==> p in pods && d.KindOf(n, p) == k
    ensures Distinct(pods) ==> Distinct(OfKind(d, n, pods, k))
  {
    if pods != [] {
      var init, p := pods[..|pods|-1], pods[|pods|-1];
      OfKindContents(d, n, init, k);
      assert pods == init + [p];
      if Distinct(pods) {
        forall q | q in OfKind(d, n, init, k) ensures q.id != p.id {
          assert q in init;
        }
      }
    }
  }

  ghost function CountOf(a: seq<Pod>, x: Pod): nat {
    multiset(a)[x]
  }

  lemma CountSnoc(a: seq<Pod>, p: Pod, x: Pod)
    ensures CountOf(a + [p], x) == CountOf(a, x) + if p == x then 1 else 0
  {
  }

  lemma {:induction false} CountOfKind(d: Drainer, n: NodeName, pods: seq<Pod>, k: Kind, x: Pod)
    ensures CountOf(OfKind(d, n, pods, k), x) == if d.KindOf(n, x) == k then CountOf(pods, x) else 0
  {
    if pods != [] {
      var init, p := pods[..|pods|-1], pods[|pods|-1];
      CountOfKind(d, n, init, k, x);
      assert pods == init + [p];
      CountSnoc(init, p, x);
      CountSnoc(OfKind(d, n, init, k), p, x);
    }
  }

  /** Every pod before the first blocking one is in exactly one list, or is left alone. */
  lemma KindsPartition(d: Drainer, n: NodeName, pods: seq<Pod>, x: Pod)
    requires d.KindOf(n, x) != Blocking
    ensures CountOf(pods, x) ==
      CountOf(OfKind(d, n, pods, Move), x) + CountOf(OfKind(d, n, pods, DaemonSet), x)
      + CountOf(OfKind(d, n, pods, OnCompletion), x) + CountOf(OfKind(d, n, pods, Stay), x)
  {
    CountOfKind(d, n, pods, Move, x);
    CountOfKind(d, n, pods, DaemonSet, x);
    CountOfKind(d, n, pods, OnCompletion, x);
    CountOfKind(d, n, pods, Stay, x);
  }

  /** No drainability rule keeps the pod from being drained, makes the drain wait for it or skips it. */
  ghost predicate Drains(d: Drainer, n: NodeName, p: Pod) {
    d.status(n, p) == Undefined || d.status(n, p) == DrainOk
  }

  /** Which of the pods of a node a list of each kind holds, by the outcome of the rules and whether a DaemonSet owns
      the pod. */
  ghost predicate ListedAs(d: Drainer, n: NodeName, pods: seq<Pod>, info: MoveInfo, p: Pod) {
    && (p in info.pods <==> p in pods && Drains(d, n, p) && !d.daemonSet(p))
    && (p in info.daemonSetPods <==> p in pods && Drains(d, n, p) && d.daemonSet(p))
    && (p in info.onCompletionPods <==> p in pods && d.status(n, p) == WaitForCompletion)
  }

  /** `b` is the number of pods before the first that blocks the drain. */
  ghost predicate DrainsUpTo(d: Drainer, n: NodeName, pods: seq<Pod>, b: nat) {
    && b <= |pods| && (forall i :: 0 <= i < b ==> !d.status(n, pods[i]).BlockDrain?)
    && (b < |pods| ==> d.status(n, pods[b]).BlockDrain?)
  }

  lemma ListsMean(d: Drainer, n: NodeName, pods: seq<Pod>, info: MoveInfo)
    requires Lists(d, n, pods, info)
    ensures forall p :: ListedAs(d, n, pods, info, p)
  {
    OfKindContents(d, n, pods, Move);
    OfKindContents(d, n, pods, DaemonSet);
    OfKindContents(d, n, pods, OnCompletion);
  }

  /** The lists of pods before the first blocking one; a blocking pod is an error only if its rule gave one. */
  method GetPodsToMove(d: Drainer, n: NodeName, pods: seq<Pod>) returns (info: MoveInfo, failed: bool)
    ensures var b := FirstBlock(d, n, pods);
      && Lists(d, n, pods[..b], info)
      && info.blocking == (if b < |pods| then Some(pods[b]) else None)
      && (failed <==> b < |pods| && d.status(n, pods[b]) == BlockDrain(true))
      && DrainsUpTo(d, n, pods, b) && forall p :: ListedAs(d, n, pods[..b], info, p)
  {
    var b;
    info, failed, b := ListUntilBlock(d, n, pods);
    FirstBlockAt(d, n, pods, b);
    ListsMean(d, n, pods[..b], info);
  }

  /** `b` is the position of the first blocking pod, if there is one. */
  ghost predicate BlocksAt(d: Drainer, n: NodeName, pods: seq<Pod>, b: nat) {
    && b <= |pods| && (forall i :: 0 <= i < b ==> d.KindOf(n, pods[i]) != Blocking)
    && (b < |pods| ==> d.KindOf(n, pods[b]) == Blocking)
  }

  lemma FirstBlockAt(d: Drainer, n: NodeName, pods: seq<Pod>, b: nat)
    requires BlocksAt(d, n, pods, b)
    ensures FirstBlock(d, n, pods) == b
  {
  }

  /** The loop over the pods of the node, up to the first that blocks. */
  method ListUntilBlock(d: Drainer, n: NodeName, pods: seq<Pod>) returns (info: MoveInfo, failed: bool, b: nat)
    ensures BlocksAt(d, n, pods, b) && Lists(d, n, pods[..b], info)
    ensures info.blocking == if b < |pods| then Some(pods[b]) else None
    ensures failed <==> b < |pods| && d.status(n, pods[b]) == BlockDrain(true)
  {
    info, b := MoveInfo([], [], [], None), 0;
    while b < |pods|
      invariant b <= |pods| && (forall i :: 0 <= i < b ==> d.KindOf(n, pods[i]) != Blocking)
      invariant Lists(d, n, pods[..b], info) && info.blocking == None
    {
      var status := d.status(n, pods[b]);
      if status.BlockDrain? {
        return info.(blocking := Some(pods[b])), status.hasError, b;
      }
      assert pods[..b+1] == pods[..b] + [pods[b]];
      info := ListPod(d, n, pods[..b], info, pods[b]);
      b := b + 1;
    }
    failed := false;
  }

  /** The cases of one pod that does not block. */
  method ListPod(d: Drainer, n: NodeName, ghost pods: seq<Pod>, info: MoveInfo, p: Pod) returns (r: MoveInfo)
    requires Lists(d, n, pods, info) && !d.status(n, p).BlockDrain?
    ensures Lists(d, n, pods + [p], r) && r.blocking == info.blocking
  {
    ListsSnoc(d, n, pods, info, p);
    match d.status(n, p) {
      case WaitForCompletion =>
        r := info.(onCompletionPods := info.onCompletionPods + [p]);
      case SkipDrain =>
        r := info;
      case _ =>
        if d.daemonSet(p) {
          r := info.(daemonSetPods := info.daemonSetPods + [p]);
        } else {
          r := info.(pods := info.pods + [p]);
        }
    }
  }

  /** The three lists hold the pods of their kinds. */
  ghost predicate Lists(d: Drainer, n: NodeName, pods: seq<Pod>, info: MoveInfo) {
    && info.pods == OfKind(d, n, pods, Move)
    && info.daemonSetPods == OfKind(d, n, pods, DaemonSet)
    && info.onCompletionPods == OfKind(d, n, pods, OnCompletion)
  }

  /** One more pod lengthens the list of its kind. */
  lemma ListsSnoc(d: Drainer, n: NodeName, pods: seq<Pod>, info: MoveInfo, p: Pod)
    requires Lists(d, n, pods, info)
    ensures match d.KindOf(n, p)
      case Move => Lists(d, n, pods + [p], info.(pods := info.pods + [p]))
      case DaemonSet => Lists(d, n, pods + [p], info.(daemonSetPods := info.daemonSetPods + [p]))
      case OnCompletion => Lists(d, n, pods + [p], info.(onCompletionPods := info.onCompletionPods + [p]))
      case Stay => Lists(d, n, pods + [p], info)
      case Blocking => true
  {
    assert (pods + [p])[..|pods|] == pods;
  }

  // ----- clusters in which every pod has one place -----

  ghost predicate At(c: Cluster, n: NodeName, i: int, id: nat) {
    n in c && 0 <= i < |c[n].pods| && c[n].pods[i].id == id
  }

  ghost predicate Has(c: Cluster, id: nat) {
    exists n, i :: At(c, n, i, id)
  }

  /** No identity occurs in two places. */
  ghost predicate UniqueIds(c: Cluster) {
    forall n, i, m, j, id :: At(c, n, i, id) && At(c, m, j, id) ==> n == m && i == j
  }

  ghost predicate NodeWithin(x: NodeInfo) {
    Load(x.pods) <= x.room && TpuLoad(x.pods) <= x.tpuRoom
  }

  /** No node is loaded beyond its capacity. */
  ghost predicate Within(c: Cluster) {
    forall n :: n in c ==> NodeWithin(c[n])
  }

  /** A pod passes the predicates only where both resources have room for it. */
  ghost predicate Careful(w: World) {
    forall c: Cluster, p: Pod, n: NodeName :: n in c && w.check(c, p, n) == Fits ==>
      Load(c[n].pods) + p.spec.size <= c[n].room && TpuLoad(c[n].pods) + p.spec.tpu <= c[n].tpuRoom
  }

  ghost predicate InPods(pods: seq<Pod>, id: nat) {
    exists p :: p in pods && p.id == id
  }

  /** A node that only gained pods of the pool; a node that is not open gained none. */
  ghost predicate Grew(x: NodeInfo, y: NodeInfo, isOpen: bool, pool: seq<Pod>) {
    && y.(pods := x.pods) == x && x.pods <= y.pods
    && (y == x || (isOpen && NodeWithin(y)))
    && forall i :: |x.pods| <= i < |y.pods| ==> y.pods[i] in pool
  }

  ghost predicate GrewAt(b: Cluster, c: Cluster, ok: set<NodeName>, pool: seq<Pod>, n: NodeName) {
    (n in b <==> n in c) && (n in b ==> Grew(b[n], c[n], n in ok, pool))
  }

  ghost predicate HasExactly(b: Cluster, c: Cluster, placed: seq<Pod>, id: nat) {
    Has(c, id) <==> Has(b, id) || InPods(placed, id)
  }

  /** `c` is `b` with the pods of `placed`, all from `pool`, put on nodes of `ok`. */
  ghost predicate Placed(b: Cluster, c: Cluster, ok: set<NodeName>, pool: seq<Pod>, placed: seq<Pod>) {
    && (forall n :: GrewAt(b, c, ok, pool, n))
    && UniqueIds(c)
    && (forall id :: HasExactly(b, c, placed, id))
    && Distinct(placed) && (forall p :: p in placed ==> p in pool)
  }

  lemma AtAfterAdding(c: Cluster, n: NodeName, p: Pod, m: NodeName, i: int, id: nat)
    requires n in c
    ensures At(AddPod(c, n, p), m, i, id) <==> At(c, m, i, id) || (m == n && i == |c[n].pods| && id == p.id)
  {
  }

  lemma HasAfterAdding(c: Cluster, n: NodeName, p: Pod, id: nat)
    requires n in c
    ensures Has(AddPod(c, n, p), id) <==> Has(c, id) || id == p.id
  {
    if Has(c, id) {
      var m, i :| At(c, m, i, id);
      AtAfterAdding(c, n, p, m, i, id);
    }
    if Has(AddPod(c, n, p), id) {
      var m, i :| At(AddPod(c, n, p), m, i, id);
      AtAfterAdding(c, n, p, m, i, id);
    }
    AtAfterAdding(c, n, p, n, |c[n].pods|, p.id);
    assert At(AddPod(c, n, p), n, |c[n].pods|, p.id);
  }

  lemma UniqueAfterAdding(c: Cluster, n: NodeName, p: Pod)
    requires n in c && UniqueIds(c) && !Has(c, p.id)
    ensures UniqueIds(AddPod(c, n, p))
  {
    var a := AddPod(c, n, p);
    forall m, i, k, j, id | At(a, m, i, id) && At(a, k, j, id) ensures m == k && i == j {
      AtAfterAdding(c, n, p, m, i, id);
      AtAfterAdding(c, n, p, k, j, id);
      if id == p.id {
        assert !At(c, m, i, id) && !At(c, k, j, id);
      }
    }
  }

  lemma InPodsSnoc(pods: seq<Pod>, p: Pod, id: nat)
    ensures InPods(pods + [p], id) <==> InPods(pods, id) || id == p.id
  {
    assert p in pods + [p];
    if InPods(pods, id) {
      var q :| q in pods && q.id == id;
      assert q in pods + [p];
    }
  }

  lemma GrewMore(x: NodeInfo, y: NodeInfo, pool: seq<Pod>, p: Pod)
    requires Grew(x, y, true, pool) && p in pool
    requires Load(y.pods) + p.spec.size <= y.room && TpuLoad(y.pods) + p.spec.tpu <= y.tpuRoom
    ensures Grew(x, y.(pods := y.pods + [p]), true, pool)
  {
    LoadSnoc(y.pods, p);
  }

  /** Placing one more pod where the predicates pass. */
  lemma PlacedStep(b: Cluster, c: Cluster, ok: set<NodeName>, pool: seq<Pod>, placed: seq<Pod>, n: NodeName, p: Pod)
    requires Placed(b, c, ok, pool, placed) && n in c && n in ok && p in pool
    requires !Has(b, p.id) && !InPods(placed, p.id)
    requires Load(c[n].pods) + p.spec.size <= c[n].room && TpuLoad(c[n].pods) + p.spec.tpu <= c[n].tpuRoom
    ensures Placed(b, AddPod(c, n, p), ok, pool, placed + [p])
  {
    assert HasExactly(b, c, placed, p.id);
    UniqueAfterAdding(c, n, p);
    forall m ensures GrewAt(b, AddPod(c, n, p), ok, pool, m) {
      assert GrewAt(b, c, ok, pool, m);
      if m == n {
        GrewMore(b[n], c[n], pool, p);
      }
    }
    forall id ensures HasExactly(b, AddPod(c, n, p), placed + [p], id) {
      assert HasExactly(b, c, placed, id);
      HasAfterAdding(c, n, p, id);
      InPodsSnoc(placed, p, id);
    }
    forall i | 0 <= i < |placed| ensures placed[i].id != p.id {
      assert placed[i] in placed;
    }
  }

  // ----- finding places -----

  function Cleared(pods: seq<Pod>): (r: seq<Pod>)
    ensures |r| == |pods|
    ensures forall i :: 0 <= i < |pods| ==> r[i] == Pod(pods[i].id, pods[i].spec.(tpu := 0))
  {
    seq(|pods|, i requires 0 <= i < |pods| => Pod(pods[i].id, pods[i].spec.(tpu := 0)))
  }

  lemma ClearedIds(pods: seq<Pod>, id: nat)
    ensures InPods(Cleared(pods), id) <==> InPods(pods, id)
  {
    if InPods(pods, id) {
      var i :| 0 <= i < |pods| && pods[i].id == id;
      assert Cleared(pods)[i] in Cleared(pods);
    }
    if InPods(Cleared(pods), id) {
      var i :| 0 <= i < |pods| && Cleared(pods)[i].id == id;
      assert pods[i] in pods;
    }
  }

  ghost function IdsOf(pods: seq<Pod>): set<nat> {
    set i | 0 <= i < |pods| :: pods[i].id
  }

  lemma {:induction false} IdsOfDistinct(pods: seq<Pod>)
    requires Distinct(pods)
    ensures |IdsOf(pods)| == |pods|
  {
    if pods != [] {
      var init, p := pods[..|pods|-1], pods[|pods|-1];
      IdsOfDistinct(init);
      assert IdsOf(pods) == IdsOf(init) + {p.id} && p.id !in IdsOf(init);
    }
  }

  lemma SubsetOfSameSize<T>(a: set<T>, b: set<T>)
    requires a <= b && |a| == |b|
    ensures a == b
  {
    assert |b - a| == |b| - |a|;
  }

  /** As many pods placed as wanted means that all are placed. */
  lemma AllPlaced(pool: seq<Pod>, placed: seq<Pod>, id: nat)
    requires Distinct(pool) && Distinct(placed) && |placed| == |pool|
    requires forall p :: p in placed ==> p in pool
    ensures InPods(placed, id) <==> InPods(pool, id)
  {
    IdsOfDistinct(pool);
    IdsOfDistinct(placed);
    forall k | k in IdsOf(placed) ensures k in IdsOf(pool) {
      var i :| 0 <= i < |placed| && placed[i].id == k;
      assert placed[i] in pool;
    }
    SubsetOfSameSize(IdsOf(placed), IdsOf(pool));
    IdsOfIn(pool, id);
    IdsOfIn(placed, id);
  }

  lemma IdsOfIn(pods: seq<Pod>, id: nat)
    ensures id in IdsOf(pods) <==> InPods(pods, id)
  {
    if id in IdsOf(pods) {
      var i :| 0 <= i < |pods| && pods[i].id == id;
      assert pods[i] in pods;
    }
  }

  /** The pods are from the pool, have no place yet and different identities. */
  ghost predicate Homeless(b: Cluster, pool: seq<Pod>, placed: seq<Pod>, pods: seq<Pod>) {
    && Distinct(pods)
    && forall p :: p in pods ==> p in pool && !Has(b, p.id) && !InPods(placed, p.id)
  }

  /** After placing the first, the others still have no place. */
  lemma HomelessRest(b: Cluster, pool: seq<Pod>, placed: seq<Pod>, pods: seq<Pod>)
    requires pods != [] && Homeless(b, pool, placed, pods)
    ensures Homeless(b, pool, placed, pods[1..]) && Homeless(b, pool, placed + [pods[0]], pods[1..])
  {
    forall p | p in pods[1..] ensures p in pods && p.id != pods[0].id {
      var i :| 0 <= i < |pods| - 1 && pods[1..][i] == p;
      assert pods[i+1] == p;
    }
    forall p | p in pods[1..] ensures !InPods(placed + [pods[0]], p.id) {
      InPodsSnoc(placed, pods[0], p.id);
    }
  }

  lemma HomelessKeep(b: Cluster, pool: seq<Pod>, placed: seq<Pod>, kept: seq<Pod>, rest: seq<Pod>)
    requires rest != [] && Homeless(b, pool, placed, kept + rest)
    ensures kept + rest == (kept + [rest[0]]) + rest[1..]
    ensures Homeless(b, pool, placed + [rest[0]], kept + rest[1..])
  {
    var p := rest[0];
    var all, less := kept + rest, kept + rest[1..];
    assert all[|kept|] == p;
    forall i | 0 <= i < |less| ensures less[i] == all[if i < |kept| then i else i + 1] {
    }
    forall q | q in less ensures q in all && q.id != p.id {
      var i :| 0 <= i < |less| && less[i] == q;
      assert all[if i < |kept| then i else i + 1] == q;
    }
    forall q | q in less ensures !InPods(placed + [p], q.id) {
      InPodsSnoc(placed, p, q.id);
    }
  }

  // ----- why a pod is not placed -----

  /** The predicates break down on an open node. */
  ghost predicate BreaksDown(w: World, c: Cluster, ok: set<NodeName>, p: Pod) {
    exists n :: n in ok && n in c && w.check(c, p, n) == Broken
  }

  /** No open node passes the predicates. */
  ghost predicate NoneFits(w: World, c: Cluster, ok: set<NodeName>, p: Pod) {
    forall n :: n in ok && n in c ==> w.check(c, p, n) != Fits
  }

  /** An internal error, a pod similar to one already found unschedulable, or a pod that fits nowhere. */
  ghost predicate Hindered(w: World, d: Drainer, c: Cluster, ok: set<NodeName>, p: Pod) {
    BreaksDown(w, c, ok, p) || w.pick(c, p, ok) == ChoiceBroken || d.similar(p) || NoneFits(w, c, ok, p)
  }

  /** With some of the pool placed, a pod of the pool that has no place yet is hindered. */
  ghost predicate HinderedAt(w: World, d: Drainer, b: Cluster, ok: set<NodeName>, pool: seq<Pod>, c: Cluster,
      placed: seq<Pod>, p: Pod) {
    Placed(b, c, ok, pool, placed) && p in pool && !InPods(placed, p.id) && Hindered(w, d, c, ok, p)
  }

  ghost predicate SomeHindered(w: World, d: Drainer, b: Cluster, ok: set<NodeName>, pool: seq<Pod>) {
    exists c, placed, p :: HinderedAt(w, d, b, ok, pool, c, placed, p)
  }

  /** A partition has as many pods as there are. */
  lemma PartitionSize(rounds: seq<seq<Pod>>, pods: seq<Pod>)
    requires IsPartition(rounds, pods) && Distinct(pods)
    ensures |Flat(rounds)| == |pods|
  {
    IdsOfDistinct(pods);
    IdsOfDistinct(Flat(rounds));
    forall k ensures k in IdsOf(pods) <==> k in IdsOf(Flat(rounds)) {
      IdsOfIn(pods, k);
      IdsOfIn(Flat(rounds), k);
    }
    assert IdsOf(pods) == IdsOf(Flat(rounds));
  }

  datatype Attempt = Scheduled | NotScheduled | InternalError

  /** The pod has a hint to an open node of the cluster. */
  ghost predicate Hinted(hints: map<nat, NodeName>, c: Cluster, ok: set<NodeName>, p: Pod) {
    p.id in hints && hints[p.id] in c && hints[p.id] in ok
  }

  /** Remembers where pods were placed, and tries those places first. */
  class HintingSimulator {
    var hints: map<nat, NodeName>

    constructor ()
      ensures hints == map[]
    {
      hints := map[];
    }

    method TryScheduleUsingHints(s: ClusterSnapshot, p: Pod, ok: set<NodeName>, ghost b: Cluster,
        ghost pool: seq<Pod>, ghost placed: seq<Pod>) returns (r: Attempt)
      requires s.Valid() && Careful(s.w) && Placed(b, s.Top(), ok, pool, placed)
      requires p in pool && !Has(b, p.id) && !InPods(placed, p.id)
      modifies this, s
      ensures s.Valid() && s.Below() == old(s.Below())
      ensures Placed(b, s.Top(), ok, pool, if r == Scheduled then placed + [p] else placed)
      ensures r == InternalError ==> BreaksDown(s.w, old(s.Top()), ok, p)
      ensures Hinted(old(hints), old(s.Top()), ok, p) ==>
        var n := old(hints)[p.id];
        && (r == Scheduled <==> s.w.check(old(s.Top()), p, n) == Fits)
        && (r == InternalError <==> s.w.check(old(s.Top()), p, n) == Broken)
        && s.Top() == (if r == Scheduled then AddPod(old(s.Top()), n, p) else old(s.Top()))
      ensures !Hinted(old(hints), old(s.Top()), ok, p) ==> r == NotScheduled && s.Top() == old(s.Top())
      ensures hints == old(hints)
    {
      if p.id !in hints || hints[p.id] !in s.Top() || hints[p.id] !in ok {
        return NotScheduled;
      }
      var n := hints[p.id];
      ghost var c := s.Top();
      var v := s.SchedulePod(p, n);
      if v == Broken {
        return InternalError;
      }
      if v != Fits {
        return NotScheduled;
      }
      PlacedStep(b, c, ok, pool, placed, n, p);
      hints := hints[p.id := n];
      return Scheduled;
    }

    method TrySchedule(s: ClusterSnapshot, p: Pod, ok: set<NodeName>, d: Drainer, ghost b: Cluster,
        ghost pool: seq<Pod>, ghost placed: seq<Pod>) returns (r: Attempt)
      requires s.Valid() && s.w.Sound() && Careful(s.w) && Placed(b, s.Top(), ok, pool, placed)
      requires p in pool && !Has(b, p.id) && !InPods(placed, p.id)
      modifies this, s
      ensures s.Valid() && s.Below() == old(s.Below())
      ensures Placed(b, s.Top(), ok, pool, if r == Scheduled then placed + [p] else placed)
      ensures r != Scheduled ==> Hindered(s.w, d, old(s.Top()), ok, p)
      ensures r == Scheduled <==> !d.similar(p) && s.w.pick(old(s.Top()), p, ok).On?
      ensures r == Scheduled ==> var n := s.w.pick(old(s.Top()), p, ok).node;
        n in old(s.Top()) && s.Top() == AddPod(old(s.Top()), n, p) && hints == old(hints)[p.id := n]
      ensures r != Scheduled ==> s.Top() == old(s.Top()) && hints == old(hints)
    {
      if d.similar(p) {
        return NotScheduled;
      }
      ghost var c := s.Top();
      var choice := s.SchedulePodOnAnyNodeMatching(p, ok);
      match choice {
        case ChoiceBroken => return InternalError;
        case Nowhere => return NotScheduled;
        case On(n) =>
          PlacedStep(b, c, ok, pool, placed, n, p);
          hints := hints[p.id := n];
          return Scheduled;
      }
    }

    /** One round: hinted places first, then any place for the others until one finds none. */
    method TryRound(s: ClusterSnapshot, round: seq<Pod>, ok: set<NodeName>, d: Drainer, statuses: seq<Pod>,
        ghost b: Cluster, ghost pool: seq<Pod>)
      returns (placed: seq<Pod>, failed: bool)
      requires s.Valid() && s.w.Sound() && Careful(s.w) && Placed(b, s.Top(), ok, pool, statuses)
      requires Homeless(b, pool, statuses, round)
      modifies this, s
      ensures s.Valid() && s.Below() == old(s.Below())
      ensures Placed(b, s.Top(), ok, pool, placed)
      ensures forall p :: p in placed ==> p in statuses || p in round
      ensures (!failed && |placed| == |statuses| + |round|) || SomeHindered(s.w, d, b, ok, pool)
    {
      placed, failed := statuses, false;
      var waiting: seq<Pod> := [];
      for i := 0 to |round|
        invariant s.Valid() && s.Below() == old(s.Below()) && Placed(b, s.Top(), ok, pool, placed)
        invariant Homeless(b, pool, placed, waiting + round[i..])
        invariant forall p :: p in placed ==> p in statuses || p in round
        invariant forall p :: p in waiting ==> p in round
        invariant |placed| + |waiting| == |statuses| + i
      {
        var p := round[i];
        ghost var rest := round[i..];
        assert rest[0] == p && rest[1..] == round[i+1..];
        assert (waiting + rest)[|waiting|] == p;
        ghost var c := s.Top();
        var r := TryScheduleUsingHints(s, p, ok, b, pool, placed);
        HomelessKeep(b, pool, placed, waiting, rest);
        assert r == InternalError ==> HinderedAt(s.w, d, b, ok, pool, c, placed, p);
        match r {
          case InternalError => return placed, true;
          case NotScheduled => waiting := waiting + [p];
          case Scheduled => placed := placed + [p];
        }
      }
      assert waiting + round[|round|..] == waiting;
      for i := 0 to |waiting|
        invariant s.Valid() && s.Below() == old(s.Below()) && Placed(b, s.Top(), ok, pool, placed)
        invariant Homeless(b, pool, placed, waiting[i..])
        invariant forall p :: p in placed ==> p in statuses || p in round
        invariant |placed| + |waiting| == |statuses| + |round| + i
      {
        var p := waiting[i];
        assert waiting[i..][0] == p && waiting[i..][1..] == waiting[i+1..];
        ghost var c := s.Top();
        var r := TrySchedule(s, p, ok, d, b, pool, placed);
        HomelessRest(b, pool, placed, waiting[i..]);
        assert r != Scheduled ==> HinderedAt(s.w, d, b, ok, pool, c, placed, p);
        match r {
          case InternalError => return placed, true;
          case NotScheduled => return placed, false;
          case Scheduled => placed := placed + [p];
        }
      }
    }

    method TrySchedulePods(s: ClusterSnapshot, pods: seq<Pod>, ok: set<NodeName>, d: Drainer, ghost b: Cluster)
        returns (placed: seq<Pod>, failed: bool)
      requires s.Valid() && s.w.Sound() && Careful(s.w) && d.Sound()
      requires Placed(b, s.Top(), ok, pods, []) && Homeless(b, pods, [], pods)
      modifies this, s
      ensures s.Valid() && s.Below() == old(s.Below())
      ensures Placed(b, s.Top(), ok, pods, placed)
      ensures (!failed && |placed| == |pods|) || SomeHindered(s.w, d, b, ok, pods)
    {
      placed, failed := TryRounds(s, d.rounds(pods), pods, ok, d, b);
    }

    method TryRounds(s: ClusterSnapshot, rounds: seq<seq<Pod>>, ghost pods: seq<Pod>, ok: set<NodeName>, d: Drainer,
        ghost b: Cluster) returns (placed: seq<Pod>, failed: bool)
      requires s.Valid() && s.w.Sound() && Careful(s.w) && IsPartition(rounds, pods)
      requires Placed(b, s.Top(), ok, pods, []) && Homeless(b, pods, [], pods)
      modifies this, s
      ensures s.Valid() && s.Below() == old(s.Below())
      ensures Placed(b, s.Top(), ok, pods, placed)
      ensures (!failed && |placed| == |pods|) || SomeHindered(s.w, d, b, ok, pods)
    {
      placed, failed := [], false;
      for k := 0 to |rounds|
        invariant s.Valid() && s.Below() == old(s.Below()) && Placed(b, s.Top(), ok, pods, placed)
        invariant AllIn(placed, Flat(rounds[..k]))
        invariant (!failed && |placed| == |Flat(rounds[..k])|) || SomeHindered(s.w, d, b, ok, pods)
      {
        RoundIsHomeless(b, pods, rounds, placed, k);
        ghost var before := placed;
        placed, failed := TryRound(s, rounds[k], ok, d, placed, b, pods);
        if failed {
          return;
        }
        FlatSnoc(rounds, k, before, placed);
      }
      assert rounds[..|rounds|] == rounds;
      PartitionSize(rounds, pods);
    }
  }

  ghost predicate AllIn(placed: seq<Pod>, pods: seq<Pod>) {
    forall p :: p in placed ==> p in pods
  }

  lemma FlatSnoc(rounds: seq<seq<Pod>>, k: nat, before: seq<Pod>, after: seq<Pod>)
    requires k < |rounds| && AllIn(before, Flat(rounds[..k]))
    requires forall p :: p in after ==> p in before || p in rounds[k]
    ensures AllIn(after, Flat(rounds[..k+1])) && |Flat(rounds[..k+1])| == |Flat(rounds[..k])| + |rounds[k]|
  {
    assert rounds[..k+1][..k] == rounds[..k];
  }

  lemma {:induction false} FlatPrefix(rounds: seq<seq<Pod>>, k: nat)
    requires k <= |rounds|
    ensures Flat(rounds[..k]) <= Flat(rounds)
  {
    if k < |rounds| {
      FlatPrefix(rounds[..|rounds|-1], k);
      assert rounds[..|rounds|-1][..k] == rounds[..k];
    } else {
      assert rounds[..k] == rounds;
    }
  }

  /** The pods of a later round were not placed in an earlier one. */
  lemma RoundIsHomeless(b: Cluster, pods: seq<Pod>, rounds: seq<seq<Pod>>, placed: seq<Pod>, k: nat)
    requires IsPartition(rounds, pods) && Homeless(b, pods, [], pods) && k < |rounds|
    requires AllIn(placed, Flat(rounds[..k]))
    ensures Homeless(b, pods, placed, rounds[k])
  {
    var done, round := Flat(rounds[..k]), rounds[k];
    FlatPrefix(rounds, k + 1);
    assert rounds[..k+1][..k] == rounds[..k];
    var flat := Flat(rounds);
    assert done + round <= flat;
    forall i | 0 <= i < |round| ensures round[i] == flat[|done| + i] {
      assert (done + round)[|done| + i] == round[i];
    }
    forall i | 0 <= i < |done| ensures done[i] == flat[i] {
      assert (done + round)[i] == done[i];
    }
    assert Distinct(flat);
    forall i, j | 0 <= i < j < |round| ensures round[i].id != round[j].id {
      assert flat[|done| + i].id != flat[|done| + j].id;
    }
    forall p | p in round ensures p in pods && !Has(b, p.id) && !InPods(placed, p.id) {
      var i :| 0 <= i < |round| && round[i] == p;
      assert flat[|done| + i] in flat;
    }
  }

  // ----- one removal -----

  /** A pod identity on a node that survives. */
  ghost predicate HasElsewhere(c: Cluster, removed: NodeName, id: nat) {
    exists n, i :: n != removed && At(c, n, i, id)
  }

  ghost predicate SurvivesAs(before: Cluster, after: Cluster, removed: NodeName, ok: set<NodeName>, pool: seq<Pod>,
      n: NodeName) {
    && (n in after <==> n in before && n != removed)
    && (n in after ==> Grew(before[n], after[n], n in ok, pool))
  }

  ghost predicate KeepsPods(before: Cluster, after: Cluster, removed: NodeName, pods: seq<Pod>, id: nat) {
    Has(after, id) <==> HasElsewhere(before, removed, id) || InPods(pods, id)
  }

  /**
    A successful removal: the node is gone, the other nodes only gained pods that moved, within
    their capacity, and every pod of another node and every moved pod has exactly one place.
   */
  ghost predicate Relocated(before: Cluster, after: Cluster, removed: NodeName, ok: set<NodeName>, pods: seq<Pod>) {
    && (forall n :: SurvivesAs(before, after, removed, ok, Cleared(pods), n))
    && (forall id :: KeepsPods(before, after, removed, pods, id))
    && UniqueIds(after)
  }

  function Ghost(x: NodeInfo): NodeInfo {
    x.(tainted := true, pods := [])
  }

  lemma GhostHas(before: Cluster, removed: NodeName, x: NodeInfo, id: nat)
    requires x.pods == []
    ensures Has(before[removed := x], id) <==> HasElsewhere(before, removed, id)
  {
    var b := before[removed := x];
    if Has(b, id) {
      var n, i :| At(b, n, i, id);
      assert n != removed && At(before, n, i, id);
    }
    if HasElsewhere(before, removed, id) {
      var n, i :| n != removed && At(before, n, i, id);
      assert At(b, n, i, id);
    }
  }

  lemma GhostIsBase(before: Cluster, removed: NodeName, x: NodeInfo, ok: set<NodeName>, pool: seq<Pod>)
    requires UniqueIds(before) && x.pods == []
    ensures Placed(before[removed := x], before[removed := x], ok, pool, [])
  {
    var b := before[removed := x];
    forall n, i, m, j, id | At(b, n, i, id) && At(b, m, j, id) ensures n == m && i == j {
      assert At(before, n, i, id) && At(before, m, j, id);
    }
  }

  /** The pods to move have no place once their node is emptied. */
  lemma MovedAreHomeless(before: Cluster, removed: NodeName, x: NodeInfo, pods: seq<Pod>)
    requires UniqueIds(before) && removed in before && x.pods == [] && Distinct(pods)
    requires forall p :: p in pods ==> p in before[removed].pods
    ensures Homeless(before[removed := x], Cleared(pods), [], Cleared(pods))
  {
    var b := before[removed := x];
    forall p | p in Cleared(pods) ensures !Has(b, p.id) {
      var i :| 0 <= i < |pods| && Cleared(pods)[i] == p;
      assert pods[i] in before[removed].pods by { assert pods[i] in pods; }
      var k :| 0 <= k < |before[removed].pods| && before[removed].pods[k] == pods[i];
      assert At(before, removed, k, p.id);
      GhostHas(before, removed, x, p.id);
    }
  }

  /** Placing all pods and then dropping the emptied node relocates them. */
  lemma PlacedThenRemoved(before: Cluster, removed: NodeName, x: NodeInfo, c: Cluster, ok: set<NodeName>,
      pods: seq<Pod>, placed: seq<Pod>)
    requires removed in before && removed !in ok && x.pods == [] && Distinct(pods)
    requires Placed(before[removed := x], c, ok, Cleared(pods), placed) && |placed| == |pods|
    ensures removed in c && Relocated(before, c - {removed}, removed, ok, pods)
  {
    var b, after := before[removed := x], c - {removed};
    assert GrewAt(b, c, ok, Cleared(pods), removed);
    forall n ensures SurvivesAs(before, after, removed, ok, Cleared(pods), n) {
      assert GrewAt(b, c, ok, Cleared(pods), n);
    }
    forall id ensures KeepsPods(before, after, removed, pods, id) {
      assert HasExactly(b, c, placed, id);
      GhostHas(before, removed, x, id);
      AllPlaced(Cleared(pods), placed, id);
      ClearedIds(pods, id);
      DropEmpty(c, removed, id);
    }
    forall n, i, m, j, id | At(after, n, i, id) && At(after, m, j, id) ensures n == m && i == j {
      assert At(c, n, i, id) && At(c, m, j, id);
    }
  }

  lemma DropEmpty(c: Cluster, removed: NodeName, id: nat)
    requires removed in c && c[removed].pods == []
    ensures Has(c - {removed}, id) <==> Has(c, id)
  {
    if Has(c, id) {
      var n, i :| At(c, n, i, id);
      assert At(c - {removed}, n, i, id);
    }
    if Has(c - {removed}, id) {
      var n, i :| At(c - {removed}, n, i, id);
      assert At(c, n, i, id);
    }
  }

  /** Capacity is kept: nodes that gained pods were checked, the others did not change. */
  lemma RelocatedWithin(before: Cluster, after: Cluster, removed: NodeName, ok: set<NodeName>, pods: seq<Pod>)
    requires Relocated(before, after, removed, ok, pods) && Within(before)
    ensures Within(after)
  {
    forall n | n in after ensures NodeWithin(after[n]) {
      assert SurvivesAs(before, after, removed, ok, Cleared(pods), n);
    }
  }

  /** The TPUs that moved pods ask for whose place is among the given pods. */
  ghost function ClearedTpu(pods: seq<Pod>, moved: seq<Pod>): nat {
    if moved == [] then 0
    else
      var p := moved[|moved|-1];
      ClearedTpu(pods, moved[..|moved|-1]) + if InPods(pods, p.id) then p.spec.tpu else 0
  }

  /** The TPU load of a node with the requests of moved pods restored. */
  ghost function TrueTpu(x: NodeInfo, moved: seq<Pod>): nat {
    TpuLoad(x.pods) + ClearedTpu(x.pods, moved)
  }

  lemma {:induction false} ClearedTpuBound(pods: seq<Pod>, moved: seq<Pod>)
    ensures ClearedTpu(pods, moved) <= TpuLoad(moved)
    ensures (forall p :: p in moved ==> !InPods(pods, p.id)) ==> ClearedTpu(pods, moved) == 0
    ensures (forall p :: p in moved ==> InPods(pods, p.id)) ==> ClearedTpu(pods, moved) == TpuLoad(moved)
  {
    if moved != [] {
      ClearedTpuBound(pods, moved[..|moved|-1]);
      assert moved == moved[..|moved|-1] + [moved[|moved|-1]];
    }
  }

  /** Pods placed with cleared requests add no TPU load. */
  lemma {:induction false} ClearedAddNone(base: seq<Pod>, pods: seq<Pod>, moved: seq<Pod>)
    requires base <= pods && forall i :: |base| <= i < |pods| ==> pods[i] in Cleared(moved)
    ensures TpuLoad(pods) == TpuLoad(base)
    decreases |pods|
  {
    if |pods| > |base| {
      var init := pods[..|pods|-1];
      ClearedAddNone(base, init, moved);
      assert pods[|pods|-1] in Cleared(moved);
    } else {
      assert pods == base;
    }
  }

  /**
    The true TPU load of a surviving node: what it had, plus what the pods it gained really ask for. It
    stays within the node when the moved pods together fit into what the node had free.
   */
  lemma TrueTpuAfter(before: Cluster, after: Cluster, removed: NodeName, ok: set<NodeName>, pods: seq<Pod>, n: NodeName)
    requires Relocated(before, after, removed, ok, pods) && n in after
    ensures n in before && TrueTpu(after[n], pods) == TpuLoad(before[n].pods) + ClearedTpu(after[n].pods, pods)
    ensures TpuLoad(before[n].pods) + TpuLoad(pods) <= before[n].tpuRoom ==> TrueTpu(after[n], pods) <= after[n].tpuRoom
  {
    assert SurvivesAs(before, after, removed, ok, Cleared(pods), n);
    ClearedAddNone(before[n].pods, after[n].pods, pods);
    ClearedTpuBound(after[n].pods, pods);
  }

  /** With a single destination the condition is exact: its true TPU load stays within the node if and only if all
      moved pods fit. */
  lemma TrueTpuExactlyWhen(before: Cluster, after: Cluster, removed: NodeName, n: NodeName, pods: seq<Pod>)
    requires Relocated(before, after, removed, {n}, pods) && UniqueIds(before) && n in after && removed in before
    requires Distinct(pods) && forall p :: p in pods ==> p in before[removed].pods
    ensures n in before
    ensures TrueTpu(after[n], pods) <= after[n].tpuRoom <==>
        TpuLoad(before[n].pods) + TpuLoad(pods) <= before[n].tpuRoom
  {
    TrueTpuAfter(before, after, removed, {n}, pods, n);
    forall p | p in pods ensures InPods(after[n].pods, p.id) {
      OnlyDestination(before, after, removed, n, pods, p);
    }
    ClearedTpuBound(after[n].pods, pods);
    assert SurvivesAs(before, after, removed, {n}, Cleared(pods), n);
  }

  lemma {:induction false} LoadOfSum(a: seq<Pod>, b: seq<Pod>)
    ensures Load(a + b) == Load(a) + Load(b) && TpuLoad(a + b) == TpuLoad(a) + TpuLoad(b)
  {
    if b == [] {
      assert a + b == a;
    } else {
      var init, p := b[..|b|-1], b[|b|-1];
      LoadOfSum(a, init);
      assert a + b == (a + init) + [p];
      LoadSnoc(a + init, p);
    }
  }

  lemma {:induction false} LoadOfCleared(pods: seq<Pod>)
    ensures Load(Cleared(pods)) == Load(pods) && TpuLoad(Cleared(pods)) == 0
  {
    if pods != [] {
      LoadOfCleared(pods[..|pods|-1]);
      assert Cleared(pods)[..|pods|-1] == Cleared(pods[..|pods|-1]);
    }
  }

  /** The cluster with all pods of a removed node on one other node. */
  function AllOnOne(before: Cluster, removed: NodeName, n: NodeName, pods: seq<Pod>): Cluster
    requires n in before
  {
    (before - {removed})[n := before[n].(pods := before[n].pods + Cleared(pods))]
  }

  /** Everything a removal asks for except the size of the destinations. */
  ghost predicate Movable(before: Cluster, removed: NodeName, ok: set<NodeName>, pods: seq<Pod>) {
    && UniqueIds(before) && removed in before && removed !in ok
    && Distinct(pods) && forall p :: p in pods ==> p in before[removed].pods
  }

  lemma AllOnOneAt(before: Cluster, removed: NodeName, n: NodeName, pods: seq<Pod>, m: NodeName, i: int, id: nat)
    requires n in before && n != removed
    ensures At(AllOnOne(before, removed, n, pods), m, i, id) <==>
      || (m != removed && At(before, m, i, id))
      || (m == n && |before[n].pods| <= i < |before[n].pods| + |pods| && pods[i - |before[n].pods|].id == id)
  {
  }

  lemma AllOnOneKeeps(before: Cluster, removed: NodeName, n: NodeName, pods: seq<Pod>, id: nat)
    requires n in before && n != removed
    ensures KeepsPods(before, AllOnOne(before, removed, n, pods), removed, pods, id)
  {
    var after := AllOnOne(before, removed, n, pods);
    if HasElsewhere(before, removed, id) {
      var m, i :| m != removed && At(before, m, i, id);
      AllOnOneAt(before, removed, n, pods, m, i, id);
    }
    if InPods(pods, id) {
      var i :| 0 <= i < |pods| && pods[i].id == id;
      AllOnOneAt(before, removed, n, pods, n, |before[n].pods| + i, id);
      assert At(after, n, |before[n].pods| + i, id);
    }
    if Has(after, id) {
      var m, i :| At(after, m, i, id);
      AllOnOneAt(before, removed, n, pods, m, i, id);
      if m == n && i >= |before[n].pods| {
        assert pods[i - |before[n].pods|] in pods;
      }
    }
  }

  lemma AllOnOneUnique(before: Cluster, removed: NodeName, ok: set<NodeName>, n: NodeName, pods: seq<Pod>)
    requires Movable(before, removed, ok, pods) && n in ok && n in before
    ensures UniqueIds(AllOnOne(before, removed, n, pods))
  {
    var after := AllOnOne(before, removed, n, pods);
    forall m, i, k, j, id | At(after, m, i, id) && At(after, k, j, id) ensures m == k && i == j {
      AllOnOneAt(before, removed, n, pods, m, i, id);
      AllOnOneAt(before, removed, n, pods, k, j, id);
      if m != removed && At(before, m, i, id) {
        MovedIsElsewhere(before, removed, ok, pods, m, i, id);
      }
      if k != removed && At(before, k, j, id) {
        MovedIsElsewhere(before, removed, ok, pods, k, j, id);
      }
    }
  }

  /** The identity of a pod to move is on no other node. */
  lemma MovedIsElsewhere(before: Cluster, removed: NodeName, ok: set<NodeName>, pods: seq<Pod>, m: NodeName, i: int,
      id: nat)
    requires Movable(before, removed, ok, pods) && m != removed && At(before, m, i, id)
    ensures id !in IdsOf(pods)
  {
    if id in IdsOf(pods) {
      var k :| 0 <= k < |pods| && pods[k].id == id;
      assert pods[k] in pods;
      var l :| 0 <= l < |before[removed].pods| && before[removed].pods[l] == pods[k];
      assert At(before, removed, l, id);
    }
  }

  /** A node with room for all moved pods may get all of them. */
  lemma AllOnOneRelocates(before: Cluster, removed: NodeName, ok: set<NodeName>, n: NodeName, pods: seq<Pod>)
    requires Movable(before, removed, ok, pods) && n in ok && n in before
    requires NodeWithin(before[n]) && Load(before[n].pods) + Load(pods) <= before[n].room
    ensures Relocated(before, AllOnOne(before, removed, n, pods), removed, ok, pods)
  {
    var after := AllOnOne(before, removed, n, pods);
    LoadOfSum(before[n].pods, Cleared(pods));
    LoadOfCleared(pods);
    forall m ensures SurvivesAs(before, after, removed, ok, Cleared(pods), m) {
    }
    forall id ensures KeepsPods(before, after, removed, pods, id) {
      AllOnOneKeeps(before, removed, n, pods, id);
    }
    AllOnOneUnique(before, removed, ok, n, pods);
  }

  /** In every outcome of the removal the true TPU load of the destinations is within them. */
  ghost predicate TpuAlwaysWithin(before: Cluster, removed: NodeName, ok: set<NodeName>, pods: seq<Pod>) {
    forall after: Cluster, n: NodeName :: Relocated(before, after, removed, ok, pods) && n in ok && n in after ==>
      TrueTpu(after[n], pods) <= after[n].tpuRoom
  }

  /** With any number of destinations that each have room for all moved pods, the true TPU load stays within them in
      every outcome if and only if each could take the TPU requests of all moved pods. */
  lemma TpuAlwaysWithinExactlyWhen(before: Cluster, removed: NodeName, ok: set<NodeName>, pods: seq<Pod>)
    requires Movable(before, removed, ok, pods)
    requires forall n :: n in ok && n in before ==>
      NodeWithin(before[n]) && Load(before[n].pods) + Load(pods) <= before[n].room
    ensures TpuAlwaysWithin(before, removed, ok, pods) <==>
      forall n :: n in ok && n in before ==> TpuLoad(before[n].pods) + TpuLoad(pods) <= before[n].tpuRoom
  {
    if TpuAlwaysWithin(before, removed, ok, pods) {
      forall n | n in ok && n in before ensures TpuLoad(before[n].pods) + TpuLoad(pods) <= before[n].tpuRoom {
        AllOnOneRelocates(before, removed, ok, n, pods);
        var after := AllOnOne(before, removed, n, pods);
        TrueTpuAfter(before, after, removed, ok, pods, n);
        forall p | p in pods ensures InPods(after[n].pods, p.id) {
          var i :| 0 <= i < |pods| && pods[i] == p;
          assert after[n].pods[|before[n].pods| + i] in after[n].pods;
        }
        ClearedTpuBound(after[n].pods, pods);
      }
    } else {
      var after: Cluster, n: NodeName :| Relocated(before, after, removed, ok, pods) && n in ok && n in after
        && TrueTpu(after[n], pods) > after[n].tpuRoom;
      TrueTpuAfter(before, after, removed, ok, pods, n);
    }
  }

  lemma OneLoad(p: Pod)
    ensures Load([p]) == p.spec.size && TpuLoad([p]) == p.spec.tpu
  {
    LoadSnoc([], p);
    assert [] + [p] == [p];
  }

  /** With one destination every moved pod is on it. */
  lemma OnlyDestination(before: Cluster, after: Cluster, removed: NodeName, n: NodeName, pods: seq<Pod>, p: Pod)
    requires Relocated(before, after, removed, {n}, pods) && UniqueIds(before) && n in after && removed in before
    requires p in pods && p in before[removed].pods
    ensures InPods(after[n].pods, p.id)
  {
    assert KeepsPods(before, after, removed, pods, p.id);
    var m, i :| At(after, m, i, p.id);
    assert SurvivesAs(before, after, removed, {n}, Cleared(pods), m);
    if m != n {
      var k :| 0 <= k < |before[removed].pods| && before[removed].pods[k] == p;
      assert At(before, m, i, p.id) && At(before, removed, k, p.id);
    }
    assert after[m].pods[i] in after[m].pods;
  }

  /**
    The list of pods to move is complete exactly when no pod that should move comes after one that
    blocks; only then are all of them given a new place when a blocking rule gives no error.
   */
  lemma MoveListCompleteExactlyWhen(d: Drainer, n: NodeName, pods: seq<Pod>)
    requires Distinct(pods)
    ensures (forall p :: p in pods && d.KindOf(n, p) == Move ==>
        p in OfKind(d, n, pods[..FirstBlock(d, n, pods)], Move))
      <==> (forall i, j :: 0 <= i < j < |pods| && d.KindOf(n, pods[i]) == Blocking ==> d.KindOf(n, pods[j]) != Move)
  {
    var b := FirstBlock(d, n, pods);
    OfKindContents(d, n, pods[..b], Move);
    if forall p :: p in pods && d.KindOf(n, p) == Move ==> p in OfKind(d, n, pods[..b], Move) {
      forall i, j | 0 <= i < j < |pods| && d.KindOf(n, pods[i]) == Blocking ensures d.KindOf(n, pods[j]) != Move {
        assert pods[j] in pods && pods[j] !in pods[..b];
      }
    } else {
      var p :| p in pods && d.KindOf(n, p) == Move && p !in OfKind(d, n, pods[..b], Move);
      var j :| 0 <= j < |pods| && pods[j] == p;
      assert j >= b;
    }
  }

  /** With rules whose blocking pods always come with an error, a simulation that goes on has listed every pod to be
      moved. */
  lemma FirmRulesMoveAll(d: Drainer, n: NodeName, pods: seq<Pod>)
    requires d.Firm()
    requires var b := FirstBlock(d, n, pods); b < |pods| ==> d.status(n, pods[b]) != BlockDrain(true)
    ensures forall p :: p in OfKind(d, n, pods[..FirstBlock(d, n, pods)], Move) <==> p in pods && d.KindOf(n, p) == Move
  {
    var b := FirstBlock(d, n, pods);
    assert pods[..b] == pods;
    OfKindContents(d, n, pods, Move);
  }

  /** Rules under which the pod with identity 0 blocks without an error and all others may move. */
  function SilentBlock(): Drainer {
    Drainer((n: NodeName, p: Pod) => if p.id == 0 then BlockDrain(false)
        else DrainOk, (p: Pod) => false, (pods: seq<Pod>) => [pods], (p: Pod) => false)
  }

  /** A pod that blocks without an error does not stop the simulation, and the pods after it are not moved. */
  lemma SilentBlockLosesPods(n: NodeName, spec: Spec)
    ensures var d, pods := SilentBlock(), [Pod(0, spec), Pod(1, spec)];
      && d.status(n, pods[0]) == BlockDrain(false) && d.KindOf(n, pods[1]) == Move
      && OfKind(d, n, pods[..FirstBlock(d, n, pods)], Move) == []
  {
    var d, pods := SilentBlock(), [Pod(0, spec), Pod(1, spec)];
    assert d.KindOf(n, pods[0]) == Blocking;
  }

  datatype Outcome = ToBeRemoved(info: MoveInfo) | NoNodeInfo | BlockedByPod(pod: Pod) | NoPlaceToMovePods

  /** One simulation of a run. */
  datatype Call = Call(node: NodeName, destinations: set<NodeName>, drainer: Drainer)

  /** Which state may follow one simulation. */
  ghost predicate Step(before: Cluster, after: Cluster, call: Call, canPersist: bool, outcome: Outcome) {
    if outcome.ToBeRemoved? && canPersist then
      Relocated(before, after, call.node, call.destinations - {call.node}, outcome.info.pods)
    else after == before
  }

  /** The pods of the node that the call would move. */
  function Listed(call: Call, pods: seq<Pod>): seq<Pod> {
    OfKind(call.drainer, call.node, pods[..FirstBlock(call.drainer, call.node, pods)], Move)
  }

  /** With the node emptied, and some of its pods possibly placed already, one of them is hindered. */
  ghost predicate NoPlace(w: World, d: Drainer, before: Cluster, removed: NodeName, destinations: set<NodeName>,
      pods: seq<Pod>)
    requires removed in before
  {
    SomeHindered(w, d, before[removed := Ghost(before[removed])], destinations - {removed}, Cleared(pods))
  }

  /** No place for the pods that the call would move. */
  ghost predicate NoPlaceFor(w: World, call: Call, before: Cluster)
    requires call.node in before
  {
    NoPlace(w, call.drainer, before, call.node, call.destinations, Listed(call, before[call.node].pods))
  }

  class RemovalSimulator {
    const snapshot: ClusterSnapshot
    const scheduling: HintingSimulator
    const canPersist: bool

    ghost predicate Valid()
      reads this, snapshot
    {
      snapshot.Valid() && snapshot.w.Sound() && Careful(snapshot.w) && UniqueIds(snapshot.Top())
    }

    constructor (snapshot: ClusterSnapshot, canPersist: bool)
      ensures this.snapshot == snapshot && this.canPersist == canPersist && fresh(scheduling)
    {
      this.snapshot := snapshot;
      this.canPersist := canPersist;
      scheduling := new HintingSimulator();
    }

    /** Swaps a node for a tainted copy without pods. */
    method ReplaceWithTaintedGhostNode(n: NodeName) returns (ok: bool)
      requires snapshot.Valid()
      modifies snapshot
      ensures snapshot.Valid() && snapshot.Below() == old(snapshot.Below())
      ensures ok <==> n in old(snapshot.Top())
      ensures ok ==> snapshot.Top() == old(snapshot.Top())[n := Ghost(old(snapshot.Top())[n])]
      ensures ok ==> snapshot.Top()[n].tainted && snapshot.Top()[n].pods == []
      ensures ok ==>
        var x := old(snapshot.Top())[n]; snapshot.Top()[n].room == x.room && snapshot.Top()[n].tpuRoom == x.tpuRoom
    {
      if n !in snapshot.Top() {
        return false;
      }
      var info := snapshot.Top()[n];
      ok := snapshot.RemoveNodeInfo(n);
      ok := snapshot.AddNodeInfo(n, Ghost(info));
      assert (old(snapshot.Top()) - {n})[n := Ghost(info)] == old(snapshot.Top())[n := Ghost(info)];
    }

    /** Takes the pods off their node; a pod that is not found is only logged. */
    method UnscheduleAll(pods: seq<Pod>, n: NodeName)
      requires snapshot.Valid() && n in snapshot.Top()
      modifies snapshot
      ensures snapshot.Valid() && snapshot.Below() == old(snapshot.Below())
      ensures n in snapshot.Top()
      ensures snapshot.Top()[n := Ghost(snapshot.Top()[n])] == old(snapshot.Top())[n := Ghost(old(snapshot.Top())[n])]
    {
      ghost var goal := snapshot.Top()[n := Ghost(snapshot.Top()[n])];
      for i := 0 to |pods|
        invariant snapshot.Valid() && snapshot.Below() == old(snapshot.Below())
        invariant n in snapshot.Top() && snapshot.Top()[n := Ghost(snapshot.Top()[n])] == goal
      {
        ghost var c := snapshot.Top();
        var found := snapshot.UnschedulePod(pods[i].id, n);
        assert snapshot.Top()[n := Ghost(c[n])] == c[n := Ghost(c[n])];
      }
    }

    /** Looks for places for the pods on the destinations, with their node kept as a tainted ghost meanwhile. */
    method FindPlaceFor(removed: NodeName, toMove: seq<Pod>, destinations: set<NodeName>, d: Drainer) returns (ok: bool)
      requires Valid() && d.Sound() && removed in snapshot.Top() && Distinct(toMove)
      requires forall p :: p in toMove ==> p in snapshot.Top()[removed].pods
      modifies snapshot, scheduling
      ensures snapshot.Valid() && snapshot.Below() == old(snapshot.Below())
      ensures ok ==> Relocated(old(snapshot.Top()), snapshot.Top(), removed, destinations - {removed}, toMove)
      ensures !ok ==> NoPlace(snapshot.w, d, old(snapshot.Top()), removed, destinations, toMove)
    {
      ghost var before := snapshot.Top();
      ghost var x := Ghost(before[removed]);
      var open_ := destinations - {removed};
      var pods := Cleared(toMove);
      UnscheduleAll(pods, removed);
      ok := ReplaceWithTaintedGhostNode(removed);
      GhostIsBase(before, removed, x, open_, pods);
      MovedAreHomeless(before, removed, x, toMove);
      var placed, failed := scheduling.TrySchedulePods(snapshot, pods, open_, d, before[removed := x]);
      if failed || |placed| != |pods| {
        return false;
      }
      PlacedThenRemoved(before, removed, x, snapshot.Top(), open_, toMove, placed);
      ok := snapshot.RemoveNodeInfo(removed);
    }

    /** Commits the fork if places were found and results persist, and drops it otherwise. */
    method WithForkedSnapshot(n: NodeName, pods: seq<Pod>, destinations: set<NodeName>, d: Drainer) returns (ok: bool)
      requires Valid() && d.Sound() && n in snapshot.Top() && Distinct(pods)
      requires forall p :: p in pods ==> p in snapshot.Top()[n].pods
      modifies snapshot, scheduling
      ensures snapshot.Valid() && snapshot.Below() == old(snapshot.Below())
      ensures !ok || !canPersist ==> snapshot.stack == old(snapshot.stack)
      ensures ok && canPersist ==> Relocated(old(snapshot.Top()), snapshot.Top(), n, destinations - {n}, pods)
      ensures !ok ==> NoPlace(snapshot.w, d, old(snapshot.Top()), n, destinations, pods)
    {
      ghost var stack := snapshot.stack;
      snapshot.Fork();
      ok := FindPlaceFor(n, pods, destinations, d);
      if ok && canPersist {
        snapshot.Commit();
        assert snapshot.Below() == stack[..|stack|-1];
      } else {
        snapshot.Revert();
      }
    }

    /** The part of a simulation after the pods to move are listed. */
    method SimulateMoving(call: Call, info: MoveInfo) returns (outcome: Outcome)
      requires Valid() && call.drainer.Sound() && call.node in snapshot.Top()
      requires info.pods == Listed(call, snapshot.Top()[call.node].pods)
      modifies snapshot, scheduling
      ensures outcome == ToBeRemoved(info) || outcome == NoPlaceToMovePods
      ensures Valid() && snapshot.Below() == old(snapshot.Below())
      ensures Step(old(snapshot.Top()), snapshot.Top(), call, canPersist, outcome)
      ensures !outcome.ToBeRemoved? || !canPersist ==> snapshot.stack == old(snapshot.stack)
      ensures outcome == NoPlaceToMovePods ==> NoPlaceFor(snapshot.w, call, old(snapshot.Top()))
    {
      MovedArePods(call.drainer, snapshot.Top(), call.node);
      var ok := WithForkedSnapshot(call.node, info.pods, call.destinations, call.drainer);
      outcome := if ok then ToBeRemoved(info) else NoPlaceToMovePods;
    }

    /** Either the node is to be removed and, if results persist, its pods are relocated, or the snapshot is exactly
        as before. */
    method SimulateNodeRemoval(call: Call) returns (outcome: Outcome)
      requires Valid() && call.drainer.Sound()
      modifies snapshot, scheduling
      ensures Valid() && snapshot.Below() == old(snapshot.Below())
      ensures Step(old(snapshot.Top()), snapshot.Top(), call, canPersist, outcome)
      ensures !outcome.ToBeRemoved? || !canPersist ==> snapshot.stack == old(snapshot.stack)
      ensures outcome == NoNodeInfo <==> call.node !in old(snapshot.Top())
      ensures call.node in old(snapshot.Top()) ==> Explained(outcome, call, old(snapshot.Top())[call.node].pods)
      ensures outcome == NoPlaceToMovePods ==>
        call.node in old(snapshot.Top()) && NoPlaceFor(snapshot.w, call, old(snapshot.Top()))
      ensures call.node in old(snapshot.Top()) ==> MovesNoDaemons(outcome, call, old(snapshot.Top())[call.node].pods)
      ensures call.node in old(snapshot.Top()) && OnlyDaemons(call, old(snapshot.Top())[call.node].pods) ==>
        outcome.ToBeRemoved?
    {
      var n, d := call.node, call.drainer;
      if n !in snapshot.Top() {
        return NoNodeInfo;
      }
      var all := snapshot.Top()[n].pods;
      var info, blocked := GetPodsToMove(d, n, all);
      if blocked {
        assert info.blocking.value in all;
        return BlockedByPod(info.blocking.value);
      }
      ListsExplain(call, all, info);
      ListsSpareDaemons(call, all, FirstBlock(d, n, all), info);
      ghost var before := snapshot.Top();
      outcome := SimulateMoving(call, info);
      if outcome == NoPlaceToMovePods && OnlyDaemons(call, all) {
        DaemonsNeedNoPlace(snapshot.w, call, before);
      }
    }
  }

  /** All pods belong to DaemonSets, and none blocks the drain. */
  ghost predicate OnlyDaemons(call: Call, pods: seq<Pod>) {
    forall p :: p in pods ==> call.drainer.daemonSet(p) && !call.drainer.status(call.node, p).BlockDrain?
  }

  /** A removal moves only pods that drain and belong to no DaemonSet, and lists those of DaemonSets apart. */
  ghost predicate MovesNoDaemons(outcome: Outcome, call: Call, pods: seq<Pod>) {
    outcome.ToBeRemoved? ==>
      && (forall p :: p in outcome.info.pods ==>
            p in pods && Drains(call.drainer, call.node, p) && !call.drainer.daemonSet(p))
      && (forall p :: p in outcome.info.daemonSetPods ==>
            p in pods && Drains(call.drainer, call.node, p) && call.drainer.daemonSet(p))
  }

  /** Only a pod that drains and belongs to no DaemonSet is ever asked a place for. */
  lemma ListedDrain(call: Call, pods: seq<Pod>, p: Pod)
    ensures p in Listed(call, pods) ==>
      p in pods && Drains(call.drainer, call.node, p) && !call.drainer.daemonSet(p)
    ensures (forall q :: q in pods ==> call.drainer.daemonSet(q)) ==> Listed(call, pods) == []
  {
    var b := FirstBlock(call.drainer, call.node, pods);
    OfKindContents(call.drainer, call.node, pods[..b], Move);
    if Listed(call, pods) != [] {
      assert Listed(call, pods)[0] in Listed(call, pods);
    }
  }

  /** A node that holds only pods of DaemonSets, none of which blocks, needs no place for any. */
  lemma DaemonsNeedNoPlace(w: World, call: Call, before: Cluster)
    requires call.node in before && forall p :: p in before[call.node].pods ==> call.drainer.daemonSet(p)
    ensures !NoPlaceFor(w, call, before)
  {
    var pods := before[call.node].pods;
    forall p ensures p !in Listed(call, pods) {
      ListedDrain(call, pods, p);
    }
    if pods != [] {
      ListedDrain(call, pods, pods[0]);
    } else {
      assert Listed(call, pods) == [];
    }
    assert Cleared(Listed(call, pods)) == [];
  }

  /** What an outcome says about the pods of the node. */
  ghost predicate Explained(outcome: Outcome, call: Call, pods: seq<Pod>) {
    var b := FirstBlock(call.drainer, call.node, pods);
    var blocked := b < |pods| && call.drainer.status(call.node, pods[b]) == BlockDrain(true);
    && (blocked <==> outcome.BlockedByPod?)
    && (outcome.BlockedByPod? ==> outcome.pod == pods[b])
    && (outcome.ToBeRemoved? ==>
          && outcome.info.pods == OfKind(call.drainer, call.node, pods[..b], Move)
          && outcome.info.daemonSetPods == OfKind(call.drainer, call.node, pods[..b], DaemonSet)
          && outcome.info.onCompletionPods == OfKind(call.drainer, call.node, pods[..b], OnCompletion))
  }

  /** The lists of a node that is not blocked explain both ways in which its simulation can end. */
  lemma ListsExplain(call: Call, pods: seq<Pod>, info: MoveInfo)
    requires var b := FirstBlock(call.drainer, call.node, pods);
      && Lists(call.drainer, call.node, pods[..b], info)
      && !(b < |pods| && call.drainer.status(call.node, pods[b]) == BlockDrain(true))
    ensures Explained(ToBeRemoved(info), call, pods) && Explained(NoPlaceToMovePods, call, pods)
    ensures info.pods == Listed(call, pods)
  {
  }

  lemma ListsSpareDaemons(call: Call, pods: seq<Pod>, b: nat, info: MoveInfo)
    requires b <= |pods| && forall p :: ListedAs(call.drainer, call.node, pods[..b], info, p)
    ensures MovesNoDaemons(ToBeRemoved(info), call, pods)
  {
    forall p | p in info.pods ensures p in pods && Drains(call.drainer, call.node, p) && !call.drainer.daemonSet(p) {
      assert ListedAs(call.drainer, call.node, pods[..b], info, p);
    }
    forall p | p in info.daemonSetPods
      ensures p in pods && Drains(call.drainer, call.node, p) && call.drainer.daemonSet(p)
    {
      assert ListedAs(call.drainer, call.node, pods[..b], info, p);
    }
  }

  lemma MovedArePods(d: Drainer, c: Cluster, n: NodeName)
    requires UniqueIds(c) && n in c
    ensures var pods := OfKind(d, n, c[n].pods[..FirstBlock(d, n, c[n].pods)], Move);
      Distinct(c[n].pods) && Distinct(pods) && forall p :: p in pods ==> p in c[n].pods
  {
    var all := c[n].pods;
    var b := FirstBlock(d, n, all);
    OfKindContents(d, n, all[..b], Move);
    forall i, j | 0 <= i < j < |all| ensures all[i].id != all[j].id {
      assert At(c, n, i, all[i].id) && At(c, n, j, all[j].id);
    }
  }

  // ----- whole runs -----

  /** A simulation whose result persists and that loses the pod: it is on the removed node and not moved. */
  ghost predicate Drops(before: Cluster, call: Call, canPersist: bool, outcome: Outcome, id: nat) {
    && canPersist && outcome.ToBeRemoved?
    && call.node in before && InPods(before[call.node].pods, id) && !InPods(outcome.info.pods, id)
  }

  /** One simulation as the simulator performs it. */
  ghost predicate GoodStep(before: Cluster, after: Cluster, call: Call, canPersist: bool, outcome: Outcome) {
    && Step(before, after, call, canPersist, outcome)
    && (outcome == NoNodeInfo <==> call.node !in before)
    && (call.node in before ==> Explained(outcome, call, before[call.node].pods))
  }

  /** A run of simulations, with the contents of the snapshot before, between and after them. */
  datatype Run = Run(states: seq<Cluster>, calls: seq<Call>, outcomes: seq<Outcome>, canPersist: bool) {
    ghost predicate Valid() {
      && |states| == |calls| + 1 == |outcomes| + 1
      && UniqueIds(states[0])
      && forall k :: 0 <= k < |calls| ==> GoodStep(states[k], states[k+1], calls[k], canPersist, outcomes[k])
    }

    ghost function Last(): Cluster
      requires Valid()
    {
      states[|states|-1]
    }

    /** The run without its last simulation. */
    ghost function Init(): Run
      requires Valid() && calls != []
    {
      Run(states[..|states|-1], calls[..|calls|-1], outcomes[..|outcomes|-1], canPersist)
    }

    ghost predicate DropsAt(k: int, id: nat)
      requires Valid()
    {
      0 <= k < |calls| && Drops(states[k], calls[k], canPersist, outcomes[k], id)
    }

    ghost predicate RemovesAt(k: int, n: NodeName)
      requires Valid()
    {
      0 <= k < |calls| && canPersist && outcomes[k].ToBeRemoved? && calls[k].node == n
    }

    ghost predicate EverDrops(id: nat)
      requires Valid()
    {
      exists k :: DropsAt(k, id)
    }

    ghost predicate EverRemoves(n: NodeName)
      requires Valid()
    {
      exists k :: RemovesAt(k, n)
    }
  }

  lemma InPodsAt(c: Cluster, n: NodeName, id: nat)
    requires n in c
    ensures InPods(c[n].pods, id) <==> exists i :: At(c, n, i, id)
  {
    if InPods(c[n].pods, id) {
      var i :| 0 <= i < |c[n].pods| && c[n].pods[i].id == id;
      assert At(c, n, i, id);
    }
    if exists i :: At(c, n, i, id) {
      var i :| At(c, n, i, id);
      assert c[n].pods[i] in c[n].pods;
    }
  }

  /** One simulation keeps identities unique and loses exactly the pods it drops. */
  lemma StepKeepsPods(before: Cluster, after: Cluster, call: Call, canPersist: bool, outcome: Outcome, id: nat)
    requires UniqueIds(before) && GoodStep(before, after, call, canPersist, outcome)
    ensures UniqueIds(after)
    ensures Has(after, id) <==> Has(before, id) && !Drops(before, call, canPersist, outcome, id)
  {
    if outcome.ToBeRemoved? && canPersist {
      var n := call.node;
      assert KeepsPods(before, after, n, outcome.info.pods, id);
      MovedArePods(call.drainer, before, n);
      InPodsAt(before, n, id);
      if Has(before, id) {
        var m, i :| At(before, m, i, id);
        if m == n {
          assert !HasElsewhere(before, n, id);
        } else {
          assert HasElsewhere(before, n, id);
        }
      }
    }
  }

  /** The rules of the call do not let the pod move, or a pod before it on the node blocks. */
  ghost predicate NotListed(d: Drainer, n: NodeName, pods: seq<Pod>, i: nat)
    requires i < |pods|
  {
    d.KindOf(n, pods[i]) != Move || exists j :: 0 <= j < i && d.KindOf(n, pods[j]) == Blocking
  }

  /** A pod of the node that a persisted simulation removes, and that is not listed to be moved. */
  ghost predicate LeftBehind(before: Cluster, call: Call, canPersist: bool, outcome: Outcome, id: nat) {
    && canPersist && outcome.ToBeRemoved? && call.node in before
    && var pods := before[call.node].pods;
       exists i: nat :: i < |pods| && pods[i].id == id && NotListed(call.drainer, call.node, pods, i)
  }

  lemma ListedExactlyWhen(d: Drainer, n: NodeName, pods: seq<Pod>, i: nat)
    requires i < |pods| && Distinct(pods)
    ensures pods[i] in OfKind(d, n, pods[..FirstBlock(d, n, pods)], Move) <==> !NotListed(d, n, pods, i)
  {
    var b := FirstBlock(d, n, pods);
    OfKindContents(d, n, pods[..b], Move);
    if i < b {
      assert pods[..b][i] == pods[i];
    } else {
      forall k | 0 <= k < b ensures pods[..b][k] != pods[i] {
      }
    }
  }

  /** Under any rules a pod is dropped exactly when its drain outcome is not to move or an earlier pod of its node
      blocks. */
  lemma DropsExactlyWhen(before: Cluster, after: Cluster, call: Call, canPersist: bool, outcome: Outcome, id: nat)
    requires UniqueIds(before) && GoodStep(before, after, call, canPersist, outcome)
    ensures Drops(before, call, canPersist, outcome, id) <==> LeftBehind(before, call, canPersist, outcome, id)
  {
    var n, d := call.node, call.drainer;
    if canPersist && outcome.ToBeRemoved? {
      var all, moved := before[n].pods, outcome.info.pods;
      MovedArePods(d, before, n);
      if InPods(all, id) {
        var i: nat :| i < |all| && all[i].id == id;
        ListedExactlyWhen(d, n, all, i);
        forall k: nat | k < |all| && all[k].id == id ensures k == i {
          assert At(before, n, i, id) && At(before, n, k, id);
        }
        forall q | q in moved && q.id == id ensures q == all[i] {
          SamePod(before, n, all[i], q);
        }
        assert InPods(moved, id) <==> all[i] in moved;
      }
    }
  }

  /** Rules whose blocking pods come with an error leave behind only pods that are not to move. */
  lemma FirmLeaveOnlyOthers(before: Cluster, after: Cluster, call: Call, canPersist: bool, outcome: Outcome, p: Pod)
    requires UniqueIds(before) && GoodStep(before, after, call, canPersist, outcome) && call.drainer.Firm()
    requires call.node in before && p in before[call.node].pods
    ensures LeftBehind(before, call, canPersist, outcome, p.id) <==>
      canPersist && outcome.ToBeRemoved? && call.drainer.KindOf(call.node, p) != Move
  {
    var n, d, all := call.node, call.drainer, before[call.node].pods;
    if canPersist && outcome.ToBeRemoved? {
      var i: nat :| i < |all| && all[i] == p;
      forall k: nat | k < |all| && all[k].id == p.id ensures k == i {
        assert At(before, n, i, p.id) && At(before, n, k, p.id);
      }
      assert FirstBlock(d, n, all) == |all|;
    }
  }

  /** On one node an identity belongs to one pod. */
  lemma SamePod(c: Cluster, n: NodeName, p: Pod, q: Pod)
    requires UniqueIds(c) && n in c && p in c[n].pods && q in c[n].pods && p.id == q.id
    ensures p == q
  {
    var i :| 0 <= i < |c[n].pods| && c[n].pods[i] == p;
    var j :| 0 <= j < |c[n].pods| && c[n].pods[j] == q;
    assert At(c, n, i, p.id) && At(c, n, j, p.id);
  }

  lemma InitIsValid(r: Run)
    requires r.Valid() && r.calls != []
    ensures r.Init().Valid() && r.Init().Last() == r.states[|r.states|-2]
  {
  }

  lemma EverSplit(r: Run, id: nat, n: NodeName)
    requires r.Valid() && r.calls != [] && r.Init().Valid()
    ensures r.EverDrops(id) <==> r.Init().EverDrops(id) || r.DropsAt(|r.calls| - 1, id)
    ensures r.EverRemoves(n) <==> r.Init().EverRemoves(n) || r.RemovesAt(|r.calls| - 1, n)
  {
    var init, last := r.Init(), |r.calls| - 1;
    forall k | k != last ensures (r.DropsAt(k, id) <==> init.DropsAt(k, id))
        && (r.RemovesAt(k, n) <==> init.RemovesAt(k, n)) {
    }
    if init.EverDrops(id) {
      var k :| init.DropsAt(k, id);
      assert r.DropsAt(k, id);
    }
    if init.EverRemoves(n) {
      var k :| init.RemovesAt(k, n);
      assert r.RemovesAt(k, n);
    }
  }

  /**
    After any run, every pod has at most one place, and a pod of the first state still has its place
    exactly when no persisted simulation removed its node without moving it.
   */
  lemma {:induction false} RunKeepsPods(r: Run, id: nat)
    requires r.Valid()
    ensures UniqueIds(r.Last())
    ensures Has(r.Last(), id) <==> Has(r.states[0], id) && !r.EverDrops(id)
    decreases |r.calls|
  {
    if r.calls != [] {
      InitIsValid(r);
      var init, k := r.Init(), |r.calls| - 1;
      RunKeepsPods(init, id);
      StepKeepsPods(r.states[k], r.states[k+1], r.calls[k], r.canPersist, r.outcomes[k], id);
      EverSplit(r, id, r.calls[k].node);
    }
  }

  /** The identity has exactly one place. */
  ghost predicate HasOnce(c: Cluster, id: nat) {
    exists n, i :: At(c, n, i, id) && forall m, j :: At(c, m, j, id) ==> m == n && j == i
  }

  /**
    After any run, under any rules: a pod of the first state sits on exactly one surviving node if and only
    if, whenever a persisted simulation removed its node, its drain outcome was to move and no earlier pod of
    the node blocked.
   */
  lemma RunMovesPods(r: Run, id: nat)
    requires r.Valid() && Has(r.states[0], id)
    ensures HasOnce(r.Last(), id) <==>
      forall k :: 0 <= k < |r.calls| ==> !LeftBehind(r.states[k], r.calls[k], r.canPersist, r.outcomes[k], id)
  {
    RunKeepsPods(r, id);
    if Has(r.Last(), id) {
      var n, i :| At(r.Last(), n, i, id);
      assert HasOnce(r.Last(), id);
    }
    forall k | 0 <= k < |r.calls|
      ensures r.DropsAt(k, id) <==> LeftBehind(r.states[k], r.calls[k], r.canPersist, r.outcomes[k], id)
    {
      StatesAreUnique(r, k);
      DropsExactlyWhen(r.states[k], r.states[k+1], r.calls[k], r.canPersist, r.outcomes[k], id);
    }
  }

  /** In every state of a run no identity occurs twice. */
  lemma {:induction false} StatesAreUnique(r: Run, k: nat)
    requires r.Valid() && k < |r.states|
    ensures UniqueIds(r.states[k])
  {
    if k > 0 {
      StatesAreUnique(r, k - 1);
      StepKeepsPods(r.states[k-1], r.states[k], r.calls[k-1], r.canPersist, r.outcomes[k-1], 0);
    }
  }

  /** After any run no surviving node exceeds its capacity, and the surviving nodes are those never removed. */
  lemma {:induction false} RunKeepsCapacity(r: Run)
    requires r.Valid()
    ensures Within(r.states[0]) ==> Within(r.Last())
    ensures forall n :: n in r.Last() <==> n in r.states[0] && !r.EverRemoves(n)
    decreases |r.calls|
  {
    if r.calls != [] {
      InitIsValid(r);
      var init, k := r.Init(), |r.calls| - 1;
      RunKeepsCapacity(init);
      if r.canPersist && r.outcomes[k].ToBeRemoved? && Within(r.states[k]) {
        RelocatedWithin(r.states[k], r.states[k+1], r.calls[k].node, r.calls[k].destinations - {r.calls[k].node},
            r.outcomes[k].info.pods);
      }
      forall n ensures n in r.Last() <==> n in r.states[0] && !r.EverRemoves(n) {
        NodesAfterStep(r, n);
      }
    }
  }

  lemma NodesAfterStep(r: Run, n: NodeName)
    requires r.Valid() && r.calls != [] && r.Init().Valid()
    requires n in r.Init().Last() <==> n in r.states[0] && !r.Init().EverRemoves(n)
    ensures n in r.Last() <==> n in r.states[0] && !r.EverRemoves(n)
  {
    var init, k := r.Init(), |r.calls| - 1;
    EverSplit(r, 0, n);
    assert GoodStep(r.states[k], r.states[k+1], r.calls[k], r.canPersist, r.outcomes[k]);
    if r.canPersist && r.outcomes[k].ToBeRemoved? {
      var c := r.calls[k];
      assert SurvivesAs(r.states[k], r.states[k+1], c.node, c.destinations - {c.node},
          Cleared(r.outcomes[k].info.pods), n);
    }
  }

  method SimulateOne(sim: RemovalSimulator, call: Call) returns (outcome: Outcome)
    requires sim.Valid() && call.drainer.Sound()
    modifies sim.snapshot, sim.scheduling
    ensures sim.Valid() && sim.snapshot.Below() == old(sim.snapshot.Below())
    ensures GoodStep(old(sim.snapshot.Top()), sim.snapshot.Top(), call, sim.canPersist, outcome)
  {
    outcome := sim.SimulateNodeRemoval(call);
  }

  /** The simulator driven through a sequence of calls performs a valid run. */
  method SimulateRemovals(sim: RemovalSimulator, calls: seq<Call>) returns (outcomes: seq<Outcome>, ghost run: Run)
    requires sim.Valid() && forall c :: c in calls ==> c.drainer.Sound()
    modifies sim.snapshot, sim.scheduling
    ensures sim.Valid() && sim.snapshot.Below() == old(sim.snapshot.Below())
    ensures run.Valid() && run.calls == calls && run.outcomes == outcomes && run.canPersist == sim.canPersist
    ensures run.states[0] == old(sim.snapshot.Top()) && run.Last() == sim.snapshot.Top()
  {
    outcomes := [];
    run := Run([sim.snapshot.Top()], [], [], sim.canPersist);
    for i := 0 to |calls|
      invariant sim.Valid() && sim.snapshot.Below() == old(sim.snapshot.Below())
      invariant run.Valid() && run.calls == calls[..i] && run.outcomes == outcomes && run.canPersist == sim.canPersist
      invariant run.states[0] == old(sim.snapshot.Top()) && run.Last() == sim.snapshot.Top()
    {
      ghost var before := sim.snapshot.Top();
      var outcome := SimulateOne(sim, calls[i]);
      RunSnoc(run, calls[i], outcome, sim.snapshot.Top());
      run := Run(run.states + [sim.snapshot.Top()], run.calls + [calls[i]], run.outcomes + [outcome], run.canPersist);
      outcomes := outcomes + [outcome];
    }
  }

  lemma RunSnoc(r: Run, call: Call, outcome: Outcome, after: Cluster)
    requires r.Valid() && GoodStep(r.Last(), after, call, r.canPersist, outcome)
    ensures Run(r.states + [after], r.calls + [call], r.outcomes + [outcome], r.canPersist).Valid()
  {
    var next := Run(r.states + [after], r.calls + [call], r.outcomes + [outcome], r.canPersist);
    forall k | 0 <= k < |next.calls|
        ensures GoodStep(next.states[k], next.states[k+1], next.calls[k], next.canPersist, next.outcomes[k]) {
      if k < |r.calls| {
        assert GoodStep(r.states[k], r.states[k+1], r.calls[k], r.canPersist, r.outcomes[k]);
      }
    }
  }
}
