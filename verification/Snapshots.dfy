/**
  The cluster snapshot shared by the estimator and the node-removal simulator:
  a stack of `node -> contents` maps with Fork, Revert and Commit, and scheduling
  operations whose predicates are supplied by an arbitrary scheduler.
 */
module Snapshots {

  /** The scheduling requirements of a pod: one additive resource, a TPU request,
      whether it spreads over hostnames, and everything else folded into `kind`. */
  datatype Spec = Spec(size: nat, tpu: nat, hostSpread: bool, kind: nat)

  datatype Pod = Pod(id: nat, spec: Spec)

  /** Names of cluster nodes, of nodes the estimator adds, and of the nodes it only pretends to add. */
  datatype NodeName = Existing(id: nat) | Simulated(index: nat) | Fake(of: NodeName, copy: nat)

  datatype NodeInfo = NodeInfo(room: int, tpuRoom: int, tainted: bool, pods: seq<Pod>)

  type Cluster = map<NodeName, NodeInfo>

  /** Outcome of running the scheduler predicates for one pod on one node. */
  datatype Verdict = Fits | Rejected(topology: bool) | Broken

  /** Outcome of looking for any acceptable node. */
  datatype Choice = On(node: NodeName) | Nowhere | ChoiceBroken

  /** A scheduler: the predicates, the order in which nodes are tried, and the wall clock
      read at the k-th permission request of the estimation limiter. */
  datatype World = World(
    check: (Cluster, Pod, NodeName) -> Verdict,
    pick: (Cluster, Pod, set<NodeName>) -> Choice,
    clock: nat -> int)
  {
    /** What the snapshot interface promises of SchedulePodOnAnyNodeMatching: a chosen node is
        acceptable and passes the predicates, and giving up means that no acceptable node passes. */
    ghost predicate Sound() {
      && (forall c, p, names :: pick(c, p, names).On? ==>
            pick(c, p, names).node in names && pick(c, p, names).node in c
            && check(c, p, pick(c, p, names).node) == Fits)
      && (forall c, p, names, n :: pick(c, p, names) == Nowhere && n in names && n in c ==> check(c, p, n) != Fits)
    }
  }

  function Load(pods: seq<Pod>): nat {
    if pods == [] then 0 else Load(pods[..|pods|-1]) + pods[|pods|-1].spec.size
  }

  function TpuLoad(pods: seq<Pod>): nat {
    if pods == [] then 0 else TpuLoad(pods[..|pods|-1]) + pods[|pods|-1].spec.tpu
  }

  lemma LoadSnoc(pods: seq<Pod>, p: Pod)
    ensures Load(pods + [p]) == Load(pods) + p.spec.size
    ensures TpuLoad(pods + [p]) == TpuLoad(pods) + p.spec.tpu
  {
    assert (pods + [p])[..|pods|] == pods;
  }

  lemma AppendSplit<T>(a: seq<T>, s: seq<T>, k: nat)
    requires k <= |s|
    ensures a + s[..k] + s[k..] == a + s
  {
  }

  function AddPod(c: Cluster, n: NodeName, p: Pod): Cluster
    requires n in c
  {
    c[n := c[n].(pods := c[n].pods + [p])]
  }

  /** The pods without the first one of this identity. */
  function WithoutPod(pods: seq<Pod>, id: nat): (r: seq<Pod>)
    ensures |r| <= |pods|
  {
    if pods == [] then []
    else if pods[0].id == id then pods[1..]
    else [pods[0]] + WithoutPod(pods[1..], id)
  }

  /** Pod `i` is the first of this identity, or there is none and `i` is the number of pods. */
  ghost predicate FirstOf(pods: seq<Pod>, id: nat, i: nat) {
    i <= |pods| && (forall j :: 0 <= j < i ==> pods[j].id != id) && (i < |pods| ==> pods[i].id == id)
  }

  /** Only the first pod of the identity leaves, and the others keep their order. */
  lemma {:induction false} WithoutPodMeans(pods: seq<Pod>, id: nat, i: nat)
    requires FirstOf(pods, id, i)
    ensures WithoutPod(pods, id) == if i < |pods| then pods[..i] + pods[i+1..] else pods
    decreases i
  {
    if i > 0 {
      assert pods[0].id != id;
      WithoutPodMeans(pods[1..], id, i - 1);
      if i < |pods| {
        assert pods[1..][..i-1] == pods[1..i] && pods[1..][i..] == pods[i+1..];
      }
    }
  }

  /** The snapshot store of the basic implementation: one full map per fork. */
  class ClusterSnapshot {
    const w: World
    var stack: seq<Cluster>

    ghost predicate Valid() reads this { |stack| > 0 }

    function Top(): Cluster
      requires Valid()
      reads this
    {
      stack[|stack|-1]
    }

    /** The forks below the current one. */
    ghost function Below(): seq<Cluster>
      requires Valid()
      reads this
    {
      stack[..|stack|-1]
    }

    constructor (w: World)
      ensures Valid() && this.w == w && stack == [map[]]
    {
      this.w := w;
      stack := [map[]];
    }

    method Fork()
      requires Valid()
      modifies this
      ensures Valid() && Top() == old(Top()) && Below() == old(stack)
    {
      stack := stack + [Top()];
    }

    method Revert()
      requires Valid()
      modifies this
      ensures Valid()
      ensures stack == if |old(stack)| == 1 then old(stack) else old(Below())
    {
      if |stack| == 1 {
        return;
      }
      stack := stack[..|stack|-1];
    }

    method Commit()
      requires Valid()
      modifies this
      ensures Valid()
      ensures |old(stack)| == 1 ==> stack == old(stack)
      ensures |old(stack)| > 1 ==> stack == old(stack)[..|old(stack)|-2] + [old(Top())]
    {
      if |stack| <= 1 {
        return;
      }
      stack := stack[..|stack|-2] + [Top()];
    }

    /** Replaces the contents of the current fork. */
    method SetTop(c: Cluster)
      requires Valid()
      modifies this
      ensures Valid() && Top() == c && Below() == old(Below())
    {
      stack := stack[..|stack|-1] + [c];
    }

    method AddNodeInfo(name: NodeName, info: NodeInfo) returns (ok: bool)
      requires Valid()
      modifies this
      ensures Valid() && Below() == old(Below())
      ensures ok <==> name !in old(Top())
      ensures Top() == if ok then old(Top())[name := info] else old(Top())
    {
      ok := name !in Top();
      if ok {
        SetTop(Top()[name := info]);
      }
    }

    method RemoveNodeInfo(name: NodeName) returns (ok: bool)
      requires Valid()
      modifies this
      ensures Valid() && Below() == old(Below())
      ensures ok <==> name in old(Top())
      ensures Top() == old(Top()) - {name}
    {
      ok := name in Top();
      if ok {
        SetTop(Top() - {name});
      }
    }

    /** Schedules the pod on the node if the predicates pass; asking for a node that is not in the
        snapshot is an internal error. */
    method SchedulePod(p: Pod, n: NodeName) returns (v: Verdict)
      requires Valid()
      modifies this
      ensures Valid() && Below() == old(Below())
      ensures v == if n in old(Top()) then w.check(old(Top()), p, n) else Broken
      ensures Top() == if v == Fits then AddPod(old(Top()), n, p) else old(Top())
    {
      v := if n in Top() then w.check(Top(), p, n) else Broken;
      if v == Fits {
        SetTop(AddPod(Top(), n, p));
      }
    }

    method SchedulePodOnAnyNodeMatching(p: Pod, acceptable: set<NodeName>) returns (r: Choice)
      requires Valid() && w.Sound()
      modifies this
      ensures Valid() && Below() == old(Below())
      ensures r == w.pick(old(Top()), p, acceptable)
      ensures r.On? ==> r.node in acceptable && r.node in old(Top())
      ensures Top() == if r.On? then AddPod(old(Top()), r.node, p) else old(Top())
    {
      r := w.pick(Top(), p, acceptable);
      if r.On? {
        SetTop(AddPod(Top(), r.node, p));
      }
    }

    /** Removes the pod with this identity from the node; reports whether it was found. */
    method UnschedulePod(id: nat, n: NodeName) returns (ok: bool)
      requires Valid()
      modifies this
      ensures Valid() && Below() == old(Below())
      ensures n in old(Top()) ==>
        Top() == old(Top())[n := old(Top())[n].(pods := WithoutPod(old(Top())[n].pods, id))]
      ensures n !in old(Top()) ==> !ok && Top() == old(Top())
    {
      if n !in Top() {
        return false;
      }
      var before := Top()[n].pods;
      SetTop(Top()[n := Top()[n].(pods := WithoutPod(before, id))]);
      ok := |Top()[n].pods| < |before|;
    }
  }
}
