/**
  The bin-packing estimation as functions of its state: packing a group on the nodes
  simulated so far, packing it on new nodes, and the arithmetic fast path for the last group.
  The lemmas here hold for every scheduler, including one that fails with internal errors.
 */
module Estimation {
  import opened Wrappers
  import opened Snapshots
  import opened Limiter

  /** The estimator's state: the forked cluster, the limiter, and the fields of the estimation state.
      `homes[i]` is the node on which `scheduled[i]` was tracked. */
  datatype Est = Est(
    cluster: Cluster,
    budget: Budget,
    scheduled: seq<Pod>,
    homes: seq<NodeName>,
    nextIndex: nat,
    last: Option<NodeName>,
    newNodes: set<NodeName>,
    withPods: set<NodeName>)

  /** Result of packing on existing nodes: the pods left over, or an internal error. */
  datatype Rest = Rest(e: Est, pods: seq<Pod>) | RestError(e: Est)

  /** Result of packing on new nodes: whether more nodes may be asked for, or an internal error. */
  datatype Step = Step(e: Est, more: bool) | StepError(e: Est)

  datatype Attempt = Placed(e: Est) | NotPlaced | AttemptError

  function Start(c: Cluster, b: Budget): Est {
    Est(c, b, [], [], 0, None, {}, {})
  }

  function Track(e: Est, p: Pod, n: NodeName): Est {
    e.(scheduled := e.scheduled + [p], homes := e.homes + [n], withPods := e.withPods + {n})
  }

  function Place(e: Est, p: Pod, n: NodeName): Est
    requires n in e.cluster
  {
    Track(e.(cluster := AddPod(e.cluster, n, p)), p, n)
  }

  function Ask(w: World, e: Est): Est {
    e.(budget := e.budget.Next(w.clock(e.budget.asked)))
  }

  predicate Granted(w: World, e: Est) {
    e.budget.Grants(w.clock(e.budget.asked))
  }

  /** Adding a node named after the running index; it fails when the name is taken. */
  function AddNode(e: Est, t: NodeInfo): Option<Est> {
    var name := Simulated(e.nextIndex);
    if name in e.cluster then None
    else Some(e.(cluster := e.cluster[name := t], nextIndex := e.nextIndex + 1,
                 last := Option.Some(name), newNodes := e.newNodes + {name}))
  }

  function Try(w: World, e: Est, p: Pod, n: NodeName): Verdict {
    if n in e.cluster then w.check(e.cluster, p, n) else Broken
  }

  function OnExisting(w: World, e: Est, pods: seq<Pod>): Rest
    requires w.Sound()
    decreases |pods|
  {
    if pods == [] then Rest(e, pods)
    else
      match w.pick(e.cluster, pods[0], e.newNodes)
      case ChoiceBroken => RestError(e)
      case Nowhere => Rest(e, pods)
      case On(n) => OnExisting(w, Place(e, pods[0], n), pods[1..])
  }

  /** Trying the node added last, and any other node for a pod rejected there by hostname spreading. */
  function TryLast(w: World, e: Est, p: Pod): Attempt
    requires w.Sound()
  {
    if e.last.None? then NotPlaced
    else
      var n := e.last.value;
      match Try(w, e, p, n)
      case Fits => Placed(Place(e, p, n))
      case Broken => AttemptError
      case Rejected(topology) =>
        if p.spec.hostSpread && topology then
          match w.pick(e.cluster, p, e.cluster.Keys - {n})
          case ChoiceBroken => AttemptError
          case Nowhere => NotPlaced
          case On(m) => Placed(Place(e, p, m))
        else NotPlaced
  }

  /** What happens with one pod: the loop ends, or goes on with the next pod. */
  datatype Progress = Done(step: Step) | Go(e: Est)

  function OnNewNext(w: World, t: NodeInfo, e: Est, p: Pod): Progress
    requires w.Sound()
  {
    match TryLast(w, e, p)
    case Placed(e1) => Go(e1)
    case AttemptError => Done(StepError(e))
    case NotPlaced =>
      if e.last.Some? && e.last.value !in e.withPods then Done(Step(e, true))
      else if !Granted(w, e) then Done(Step(Ask(w, e), false))
      else
        match AddNode(Ask(w, e), t)
        case None => Done(StepError(Ask(w, e)))
        case Some(e2) =>
          match Try(w, e2, p, e2.last.value)
          case Broken => Done(StepError(e2))
          case Rejected(_) => Done(Step(e2, true))
          case Fits => Go(Place(e2, p, e2.last.value))
  }

  function OnNew(w: World, t: NodeInfo, e: Est, pods: seq<Pod>): Step
    requires w.Sound()
    decreases |pods|
  {
    if pods == [] then Step(e, true)
    else
      match OnNewNext(w, t, e, pods[0])
      case Done(s) => s
      case Go(e1) => OnNew(w, t, e1, pods[1..])
  }

  /** Filling the node added last with pods until one is rejected. */
  function Fill(w: World, e: Est, n: NodeName, pods: seq<Pod>): Rest
    decreases |pods|
  {
    if pods == [] then Rest(e, pods)
    else
      match Try(w, e, pods[0], n)
      case Broken => RestError(e)
      case Rejected(_) => Rest(e, pods)
      case Fits => Fill(w, Place(e, pods[0], n), n, pods[1..])
  }

  function TrackAll(e: Est, pods: seq<Pod>, n: NodeName): Est
    decreases |pods|
  {
    if pods == [] then e else TrackAll(Track(e, pods[0], n), pods[1..], n)
  }

  /** Marking pods on pretended nodes `j`, `j + 1`, ..., below `size`, `perNode` at a time. */
  function Pretend(w: World, e: Est, of: NodeName, pods: seq<Pod>, perNode: nat, j: nat, size: nat): Step
    decreases size - j
  {
    if j >= size then Step(e, true)
    else if !Granted(w, e) then Step(Ask(w, e), false)
    else
      var k := if perNode < |pods| then perNode else |pods|;
      Pretend(w, TrackAll(Ask(w, e), pods[..k], Fake(of, j)), of, pods[k..], perNode, j + 1, size)
  }

  /** How many portions of `k` pods make up `n` pods. */
  function CeilDiv(n: nat, k: nat): nat
    requires k > 0
  {
    if n == 0 then 0 else if n <= k then 1 else 1 + CeilDiv(n - k, k)
  }

  lemma {:induction false} CeilDivBounds(n: nat, k: nat)
    requires n > 0 && k > 0
    ensures CeilDiv(n, k) > 0 && k * (CeilDiv(n, k) - 1) < n <= k * CeilDiv(n, k)
  {
    if n > k {
      CeilDivBounds(n - k, k);
      var d := CeilDiv(n - k, k);
      assert k * d == k * (d - 1) + k && k * (d + 1) == k * d + k;
    }
  }

  function FastPath(w: World, t: NodeInfo, e: Est, pods: seq<Pod>): Step {
    if pods == [] then Step(e, true)
    else if !Granted(w, e) then Step(Ask(w, e), false)
    else
      match AddNode(Ask(w, e), t)
      case None => StepError(Ask(w, e))
      case Some(e1) => AfterOpening(w, e1, e1.last.value, pods)
  }

  /** The fast path once its first node `n` is open. */
  function AfterOpening(w: World, e: Est, n: NodeName, pods: seq<Pod>): Step {
    match Fill(w, e, n, pods)
    case RestError(e2) => StepError(e2)
    case Rest(e2, rest) =>
      var perNode := |pods| - |rest|;
      if perNode <= 0 then Step(e2, true)
      else Pretend(w, e2, n, rest, perNode, 1, CeilDiv(|pods|, perNode))
  }

  /** One group: the nodes simulated so far first, then new nodes while they are available. */
  function Round(w: World, t: NodeInfo, e: Est, pods: seq<Pod>, fast: bool, more: bool): Step
    requires w.Sound()
  {
    match OnExisting(w, e, pods)
    case RestError(e1) => StepError(e1)
    case Rest(e1, rest) =>
      if !more then Step(e1, false)
      else if fast then FastPath(w, t, e1, rest)
      else OnNew(w, t, e1, rest)
  }

  /** The loop over the groups; `fast` sends the last one through the fast path. */
  function Pack(w: World, t: NodeInfo, e: Est, groups: seq<seq<Pod>>, fast: bool, more: bool): Step
    requires w.Sound()
    decreases |groups|
  {
    if groups == [] then Step(e, more)
    else
      var s := Round(w, t, e, groups[0], fast && |groups| == 1, more);
      if s.StepError? then s else Pack(w, t, s.e, groups[1..], fast, s.more)
  }

  /** The nodes that carry a pod. */
  ghost function Carrying(homes: seq<NodeName>): set<NodeName> {
    set n | n in homes
  }

  // ----- every input pod at most once -----

  /** `b` continues `a` by scheduling a prefix of `pods`. */
  ghost predicate Extends(a: Est, b: Est, pods: seq<Pod>) {
    && |a.scheduled| <= |b.scheduled| <= |a.scheduled| + |pods|
    && b.scheduled == a.scheduled + pods[..|b.scheduled| - |a.scheduled|]
  }

  lemma ExtendsOne(a: Est, b: Est, c: Est, pods: seq<Pod>)
    requires pods != [] && b.scheduled == a.scheduled + [pods[0]] && Extends(b, c, pods[1..])
    ensures Extends(a, c, pods)
  {
    var k := |c.scheduled| - |b.scheduled|;
    assert [pods[0]] + pods[1..][..k] == pods[..k + 1];
  }

  lemma ExtendsMany(a: Est, b: Est, c: Est, pods: seq<Pod>, k: nat)
    requires k <= |pods| && b.scheduled == a.scheduled + pods[..k] && Extends(b, c, pods[k..])
    ensures Extends(a, c, pods)
  {
    var i := |c.scheduled| - |b.scheduled|;
    assert pods[..k] + pods[k..][..i] == pods[..k + i];
  }

  lemma {:induction false} OnExistingPrefix(w: World, e: Est, pods: seq<Pod>)
    requires w.Sound()
    ensures var r := OnExisting(w, e, pods);
      Extends(e, r.e, pods) && (r.Rest? ==> r.pods == pods[|r.e.scheduled| - |e.scheduled|..])
    decreases |pods|
  {
    if pods != [] {
      var c := w.pick(e.cluster, pods[0], e.newNodes);
      if c.On? {
        var e1 := Place(e, pods[0], c.node);
        OnExistingPrefix(w, e1, pods[1..]);
        ExtendsOne(e, e1, OnExisting(w, e1, pods[1..]).e, pods);
      }
    }
  }

  lemma {:induction false} OnNewPrefix(w: World, t: NodeInfo, e: Est, pods: seq<Pod>)
    requires w.Sound()
    ensures Extends(e, OnNew(w, t, e, pods).e, pods)
    decreases |pods|
  {
    if pods != [] {
      var a := TryLast(w, e, pods[0]);
      if a.Placed? {
        OnNewPrefix(w, t, a.e, pods[1..]);
        ExtendsOne(e, a.e, OnNew(w, t, a.e, pods[1..]).e, pods);
      } else if a.NotPlaced? && Granted(w, e) && AddNode(Ask(w, e), t).Some? {
        var e2 := AddNode(Ask(w, e), t).value;
        if Try(w, e2, pods[0], e2.last.value) == Fits {
          var e3 := Place(e2, pods[0], e2.last.value);
          OnNewPrefix(w, t, e3, pods[1..]);
          ExtendsOne(e, e3, OnNew(w, t, e3, pods[1..]).e, pods);
        }
      }
    }
  }

  lemma {:induction false} FillPrefix(w: World, e: Est, n: NodeName, pods: seq<Pod>)
    ensures var r := Fill(w, e, n, pods);
      Extends(e, r.e, pods) && (r.Rest? ==> r.pods == pods[|r.e.scheduled| - |e.scheduled|..])
    decreases |pods|
  {
    if pods != [] && Try(w, e, pods[0], n) == Fits {
      var e1 := Place(e, pods[0], n);
      FillPrefix(w, e1, n, pods[1..]);
      ExtendsOne(e, e1, Fill(w, e1, n, pods[1..]).e, pods);
    }
  }

  lemma {:induction false} TrackAllEffect(e: Est, pods: seq<Pod>, n: NodeName)
    ensures var r := TrackAll(e, pods, n);
      && r.scheduled == e.scheduled + pods
      && r.homes == e.homes + seq(|pods|, _ => n)
      && r.withPods == (if pods == [] then e.withPods else e.withPods + {n})
      && (e.withPods == Carrying(e.homes) ==> r.withPods == Carrying(r.homes))
      && r == e.(scheduled := r.scheduled, homes := r.homes, withPods := r.withPods)
    decreases |pods|
  {
    if pods == [] {
      assert seq(|pods|, _ => n) == [];
    } else {
      TrackAllEffect(Track(e, pods[0], n), pods[1..], n);
      assert [pods[0]] + pods[1..] == pods;
      assert [n] + seq(|pods[1..]|, _ => n) == seq(|pods|, _ => n);
    }
  }

  lemma {:induction false} PretendPrefix(w: World, e: Est, of: NodeName, pods: seq<Pod>, perNode: nat, j: nat,
      size: nat)
    ensures Extends(e, Pretend(w, e, of, pods, perNode, j, size).e, pods)
    decreases size - j
  {
    if j < size && Granted(w, e) {
      var k := if perNode < |pods| then perNode else |pods|;
      var e1 := TrackAll(Ask(w, e), pods[..k], Fake(of, j));
      TrackAllEffect(Ask(w, e), pods[..k], Fake(of, j));
      PretendPrefix(w, e1, of, pods[k..], perNode, j + 1, size);
      ExtendsMany(e, e1, Pretend(w, e1, of, pods[k..], perNode, j + 1, size).e, pods, k);
    }
  }

  /** Continuing with what was left over. */
  lemma ExtendsThen(a: Est, b: Est, c: Est, pods: seq<Pod>, rest: seq<Pod>)
    requires Extends(a, b, pods) && rest == pods[|b.scheduled| - |a.scheduled|..] && Extends(b, c, rest)
    ensures Extends(a, c, pods)
  {
    ExtendsMany(a, b, c, pods, |b.scheduled| - |a.scheduled|);
  }

  lemma AfterOpeningPrefix(w: World, e: Est, n: NodeName, pods: seq<Pod>)
    ensures Extends(e, AfterOpening(w, e, n, pods).e, pods)
  {
    FillPrefix(w, e, n, pods);
    match Fill(w, e, n, pods)
    case RestError(_) =>
    case Rest(e2, rest) =>
      var perNode := |pods| - |rest|;
      if perNode > 0 {
        var size := CeilDiv(|pods|, perNode);
        var r := Pretend(w, e2, n, rest, perNode, 1, size);
        PretendPrefix(w, e2, n, rest, perNode, 1, size);
        ExtendsThen(e, e2, r.e, pods, rest);
        assert AfterOpening(w, e, n, pods) == r;
      }
  }

  lemma FastPathPrefix(w: World, t: NodeInfo, e: Est, pods: seq<Pod>)
    ensures Extends(e, FastPath(w, t, e, pods).e, pods)
  {
    if pods != [] && Granted(w, e) && AddNode(Ask(w, e), t).Some? {
      var e1 := AddNode(Ask(w, e), t).value;
      AfterOpeningPrefix(w, e1, e1.last.value, pods);
    }
  }

  /** `pods` consists of a prefix of each group, in group order. */
  ghost predicate Prefixes(groups: seq<seq<Pod>>, pods: seq<Pod>)
    decreases |groups|
  {
    if groups == [] then pods == []
    else exists k: nat ::
        k <= |groups[0]| && k <= |pods| && pods[..k] == groups[0][..k] && Prefixes(groups[1..], pods[k..])
  }

  lemma RoundPrefix(w: World, t: NodeInfo, e: Est, pods: seq<Pod>, fast: bool, more: bool)
    requires w.Sound()
    ensures Extends(e, Round(w, t, e, pods, fast, more).e, pods)
  {
    var r := OnExisting(w, e, pods);
    OnExistingPrefix(w, e, pods);
    if r.Rest? && more {
      if fast { FastPathPrefix(w, t, r.e, r.pods); } else { OnNewPrefix(w, t, r.e, r.pods); }
      ExtendsMany(e, r.e, Round(w, t, e, pods, fast, more).e, pods, |r.e.scheduled| - |e.scheduled|);
    }
  }

  /** The schedule is made of one prefix per group, so no input pod is returned twice. */
  lemma {:induction false} PackSchedulesPrefixes(w: World, t: NodeInfo, e: Est, groups: seq<seq<Pod>>, fast: bool,
      more: bool)
    requires w.Sound() && Pack(w, t, e, groups, fast, more).Step?
    ensures var r := Pack(w, t, e, groups, fast, more);
      |e.scheduled| <= |r.e.scheduled| && r.e.scheduled[..|e.scheduled|] == e.scheduled
      && Prefixes(groups, r.e.scheduled[|e.scheduled|..])
    decreases |groups|
  {
    if groups != [] {
      var s := Round(w, t, e, groups[0], fast && |groups| == 1, more);
      RoundPrefix(w, t, e, groups[0], fast && |groups| == 1, more);
      PackSchedulesPrefixes(w, t, s.e, groups[1..], fast, s.more);
      PrefixesGrow(e.scheduled, s.e.scheduled, Pack(w, t, e, groups, fast, more).e.scheduled, groups);
    }
  }

  /** A prefix of the first group, followed by prefixes of the others. */
  lemma PrefixesGrow(a: seq<Pod>, b: seq<Pod>, all: seq<Pod>, groups: seq<seq<Pod>>)
    requires groups != [] && |a| <= |b| <= |a| + |groups[0]| && b == a + groups[0][..|b| - |a|]
    requires |b| <= |all| && all[..|b|] == b && Prefixes(groups[1..], all[|b|..])
    ensures all[..|a|] == a && Prefixes(groups, all[|a|..])
  {
    var k := |b| - |a|;
    assert all[..|a|] == all[..|b|][..|a|] == a;
    assert all[|a|..][..k] == all[..|b|][|a|..] == groups[0][..k];
    assert all[|a|..][k..] == all[|b|..];
  }

  // ----- the count against the limiter -----

  /** Invariant of the packing: pods are tracked on added nodes or on nodes of `others`, and
      there are no more added nodes than permissions. */
  ghost predicate Inv(e: Est, others: set<NodeName>) {
    && |e.homes| == |e.scheduled|
    && e.withPods == Carrying(e.homes)
    && e.newNodes <= e.cluster.Keys
    && e.withPods <= e.newNodes + others
    && |e.newNodes| <= e.budget.nodes
    && (e.last.Some? ==> e.last.value in e.newNodes)
    && (e.last.None? ==> e.newNodes == {})
    && e.budget.Within()
  }

  /** What is left of the invariant once pods are tracked on pretended nodes. */
  ghost predicate Counted(e: Est, others: set<NodeName>) {
    && |e.homes| == |e.scheduled|
    && e.withPods == Carrying(e.homes)
    && |e.withPods - others| <= e.budget.nodes
    && e.budget.Within()
  }

  /** Some pod spreads over hostnames. */
  ghost predicate Spreads(pods: seq<Pod>) {
    exists i :: 0 <= i < |pods| && pods[i].spec.hostSpread
  }

  /** No pod is ever rejected for its topology. */
  ghost predicate NeverTopology(w: World) {
    forall c: Cluster, p: Pod, n: NodeName :: w.check(c, p, n) != Rejected(true)
  }

  /** Pods may end up outside the added nodes only by hostname spreading, and not before a node is added. */
  ghost predicate Confined(w: World, e: Est, pods: seq<Pod>, others: set<NodeName>) {
    || NeverTopology(w)
    || !Spreads(pods)
    || (e.last.None? && !Spreads(pods[1..]))
    || e.cluster.Keys <= e.newNodes + others
  }

  lemma InvCounts(e: Est, others: set<NodeName>)
    requires Inv(e, others)
    ensures Counted(e, others)
  {
    Subset(e.withPods - others, e.newNodes);
  }

  lemma Subset<T>(a: set<T>, b: set<T>)
    requires a <= b
    ensures |a| <= |b|
  {
    assert b == a + (b - a);
  }

  lemma PlaceKeeps(e: Est, p: Pod, n: NodeName, others: set<NodeName>)
    requires Inv(e, others) && n in e.cluster && n in e.newNodes + others
    ensures Inv(Place(e, p, n), others)
    ensures Place(e, p, n).cluster.Keys == e.cluster.Keys
  {
  }

  lemma AddNodeKeeps(w: World, e: Est, t: NodeInfo, others: set<NodeName>)
    requires Inv(e, others) && Granted(w, e) && AddNode(Ask(w, e), t).Some?
    ensures Inv(AddNode(Ask(w, e), t).value, others)
  {
  }

  lemma {:induction false} OnExistingKeeps(w: World, e: Est, pods: seq<Pod>, others: set<NodeName>)
    requires w.Sound() && Inv(e, others)
    ensures var r := OnExisting(w, e, pods).e;
      Inv(r, others) && r.cluster.Keys == e.cluster.Keys && r.newNodes == e.newNodes && r.budget == e.budget
      && r.last == e.last && r.nextIndex == e.nextIndex
    decreases |pods|
  {
    if pods != [] {
      var c := w.pick(e.cluster, pods[0], e.newNodes);
      if c.On? {
        PlaceKeeps(e, pods[0], c.node, others);
        OnExistingKeeps(w, Place(e, pods[0], c.node), pods[1..], others);
      }
    }
  }

  lemma TryLastKeeps(w: World, e: Est, p: Pod, others: set<NodeName>)
    requires w.Sound() && Inv(e, others) && TryLast(w, e, p).Placed?
    requires NeverTopology(w) || !p.spec.hostSpread || e.cluster.Keys <= e.newNodes + others
    ensures var r := TryLast(w, e, p).e;
      && Inv(r, others) && r.budget == e.budget && r.cluster.Keys == e.cluster.Keys && r.newNodes == e.newNodes
  {
    var n := e.last.value;
    if Try(w, e, p, n) == Fits {
      PlaceKeeps(e, p, n, others);
    } else {
      PlaceKeeps(e, p, w.pick(e.cluster, p, e.cluster.Keys - {n}).node, others);
    }
  }

  ghost predicate Keeps(e: Est, r: Est, others: set<NodeName>) {
    && Inv(r, others) && r.budget.maxNodes == e.budget.maxNodes
    && (e.cluster.Keys <= e.newNodes + others ==> r.cluster.Keys <= r.newNodes + others)
  }

  ghost function EndOf(p: Progress): Est {
    match p case Done(s) => s.e case Go(e) => e
  }

  /** The states in which the handling of one pod can end. */
  lemma OnNewNextEnds(w: World, t: NodeInfo, e: Est, p: Pod)
    requires w.Sound() && !TryLast(w, e, p).Placed?
    ensures var x := EndOf(OnNewNext(w, t, e, p));
      || x == e || x == Ask(w, e)
      || (Granted(w, e) && AddNode(Ask(w, e), t).Some? && x == AddNode(Ask(w, e), t).value)
      || (Granted(w, e) && AddNode(Ask(w, e), t).Some? && var e2 := AddNode(Ask(w, e), t).value;
          e2.last.value in e2.cluster && x == Place(e2, p, e2.last.value))
  {
  }

  lemma OnNewNextKeeps(w: World, t: NodeInfo, e: Est, p: Pod, others: set<NodeName>)
    requires w.Sound() && Inv(e, others)
    requires NeverTopology(w) || !p.spec.hostSpread || e.last.None? || e.cluster.Keys <= e.newNodes + others
    ensures Keeps(e, EndOf(OnNewNext(w, t, e, p)), others)
  {
    if TryLast(w, e, p).Placed? {
      TryLastKeeps(w, e, p, others);
      assert EndOf(OnNewNext(w, t, e, p)) == TryLast(w, e, p).e;
    } else {
      var x := EndOf(OnNewNext(w, t, e, p));
      OnNewNextEnds(w, t, e, p);
      AskKeeps(w, e, others);
      if x != e && x != Ask(w, e) {
        OpenKeeps(w, t, e, p, others);
      }
    }
  }

  lemma AskKeeps(w: World, e: Est, others: set<NodeName>)
    requires Inv(e, others)
    ensures Keeps(e, e, others) && Keeps(e, Ask(w, e), others)
  {
  }

  /** Opening a node, and placing a pod on it. */
  lemma OpenKeeps(w: World, t: NodeInfo, e: Est, p: Pod, others: set<NodeName>)
    requires Inv(e, others) && Granted(w, e) && AddNode(Ask(w, e), t).Some?
    ensures var e2 := AddNode(Ask(w, e), t).value;
      Keeps(e, e2, others) && e2.last.value in e2.cluster && Keeps(e, Place(e2, p, e2.last.value), others)
  {
    AddNodeKeeps(w, e, t, others);
    var e2 := AddNode(Ask(w, e), t).value;
    PlaceKeeps(e2, p, e2.last.value, others);
  }

  lemma {:induction false} OnNewKeeps(w: World, t: NodeInfo, e: Est, pods: seq<Pod>, others: set<NodeName>)
    requires w.Sound() && Inv(e, others) && Confined(w, e, pods, others)
    ensures Keeps(e, OnNew(w, t, e, pods).e, others)
    decreases |pods|
  {
    if pods != [] {
      SpreadsSplit([pods[0]], pods[1..]);
      assert [pods[0]] + pods[1..] == pods && [pods[0]][0] == pods[0];
      OnNewNextKeeps(w, t, e, pods[0], others);
      match OnNewNext(w, t, e, pods[0])
      case Done(s) => assert OnNew(w, t, e, pods) == s;
      case Go(e1) => OnNewKeeps(w, t, e1, pods[1..], others);
    }
  }

  lemma {:induction false} FillKeeps(w: World, e: Est, n: NodeName, pods: seq<Pod>, others: set<NodeName>)
    requires Inv(e, others) && n in e.newNodes
    ensures var r := Fill(w, e, n, pods).e; Inv(r, others) && r.budget == e.budget
    decreases |pods|
  {
    if pods != [] && Try(w, e, pods[0], n) == Fits {
      PlaceKeeps(e, pods[0], n, others);
      FillKeeps(w, Place(e, pods[0], n), n, pods[1..], others);
    }
  }

  lemma {:induction false} PretendCounts(w: World, e: Est, of: NodeName, pods: seq<Pod>, perNode: nat, j: nat,
      size: nat, others: set<NodeName>)
    requires Counted(e, others)
    ensures var r := Pretend(w, e, of, pods, perNode, j, size).e;
      Counted(r, others) && r.budget.maxNodes == e.budget.maxNodes
    decreases size - j
  {
    if j < size && Granted(w, e) {
      var k := if perNode < |pods| then perNode else |pods|;
      var e1 := TrackAll(Ask(w, e), pods[..k], Fake(of, j));
      TrackAllEffect(Ask(w, e), pods[..k], Fake(of, j));
      assert |(e.withPods + {Fake(of, j)}) - others| <= |e.withPods - others| + 1 by {
        Subset((e.withPods + {Fake(of, j)}) - others, (e.withPods - others) + {Fake(of, j)});
      }
      PretendCounts(w, e1, of, pods[k..], perNode, j + 1, size, others);
    }
  }

  lemma AfterOpeningCounts(w: World, e: Est, n: NodeName, pods: seq<Pod>, others: set<NodeName>)
    requires Inv(e, others) && n in e.newNodes
    ensures var r := AfterOpening(w, e, n, pods).e;
      Counted(r, others) && r.budget.maxNodes == e.budget.maxNodes
  {
    FillKeeps(w, e, n, pods, others);
    var r := Fill(w, e, n, pods);
    InvCounts(r.e, others);
    if r.Rest? && |pods| - |r.pods| > 0 {
      var perNode := |pods| - |r.pods|;
      PretendCounts(w, r.e, n, r.pods, perNode, 1, CeilDiv(|pods|, perNode), others);
    }
  }

  lemma FastPathCounts(w: World, t: NodeInfo, e: Est, pods: seq<Pod>, others: set<NodeName>)
    requires Inv(e, others)
    ensures var r := FastPath(w, t, e, pods).e;
      Counted(r, others) && r.budget.maxNodes == e.budget.maxNodes
  {
    InvCounts(e, others);
    if pods != [] && Granted(w, e) && AddNode(Ask(w, e), t).Some? {
      AddNodeKeeps(w, e, t, others);
      var e1 := AddNode(Ask(w, e), t).value;
      AfterOpeningCounts(w, e1, e1.last.value, pods, others);
    }
  }

  lemma SpreadsSplit(a: seq<Pod>, b: seq<Pod>)
    ensures Spreads(a + b) <==> Spreads(a) || Spreads(b)
  {
    if Spreads(a) {
      var i :| 0 <= i < |a| && a[i].spec.hostSpread;
      assert (a + b)[i] == a[i];
    }
    if Spreads(b) {
      var i :| 0 <= i < |b| && b[i].spec.hostSpread;
      assert (a + b)[|a| + i] == b[i];
    }
    if Spreads(a + b) {
      var i :| 0 <= i < |a + b| && (a + b)[i].spec.hostSpread;
      assert if i < |a| then a[i].spec.hostSpread else b[i - |a|].spec.hostSpread;
    }
  }

  /** The pods of all groups but the one that goes through the fast path, in order. */
  function SlowPods(groups: seq<seq<Pod>>, fast: bool): seq<Pod>
    decreases |groups|
  {
    if groups == [] || (fast && |groups| == 1) then [] else groups[0] + SlowPods(groups[1..], fast)
  }

  /** A pod that spreads over hostnames comes after the first pod, outside the fast group. */
  ghost predicate SpreadsLate(groups: seq<seq<Pod>>, fast: bool) {
    SlowPods(groups, fast) != [] && Spreads(SlowPods(groups, fast)[1..])
  }

  lemma RestConfined(w: World, e: Est, pods: seq<Pod>, others: set<NodeName>)
    requires w.Sound() && Inv(e, others) && OnExisting(w, e, pods).Rest? && Confined(w, e, pods, others)
    ensures var r := OnExisting(w, e, pods); Confined(w, r.e, r.pods, others)
  {
    var r := OnExisting(w, e, pods);
    OnExistingKeeps(w, e, pods, others);
    OnExistingPrefix(w, e, pods);
    if NeverTopology(w) {
      assert Confined(w, r.e, r.pods, others);
    } else if e.last.None? {
      assert r.pods == pods;
    } else {
      var k := |r.e.scheduled| - |e.scheduled|;
      assert pods == pods[..k] + pods[k..];
      SpreadsSplit(pods[..k], pods[k..]);
    }
  }

  lemma RoundCounts(w: World, t: NodeInfo, e: Est, pods: seq<Pod>, fast: bool, more: bool, others: set<NodeName>)
    requires w.Sound() && Inv(e, others) && (fast || Confined(w, e, pods, others))
    ensures var r := Round(w, t, e, pods, fast, more).e;
      && Counted(r, others) && r.budget.maxNodes == e.budget.maxNodes
      && (!fast ==> Inv(r, others))
      && (!fast && e.cluster.Keys <= e.newNodes + others ==> r.cluster.Keys <= r.newNodes + others)
  {
    var r := OnExisting(w, e, pods);
    OnExistingKeeps(w, e, pods, others);
    InvCounts(r.e, others);
    if r.Rest? && more {
      if fast {
        FastPathCounts(w, t, r.e, r.pods, others);
      } else {
        RestConfined(w, e, pods, others);
        OnNewKeeps(w, t, r.e, r.pods, others);
        InvCounts(OnNew(w, t, r.e, r.pods).e, others);
      }
    }
  }

  /** Nodes counted outside `others` never outnumber the permissions granted: with `others` the
      nodes already in the cluster for any pods, with `others` empty when no pod spreads late. */
  lemma {:induction false} PackCounts(w: World, t: NodeInfo, e: Est, groups: seq<seq<Pod>>, fast: bool, more: bool,
      others: set<NodeName>)
    requires w.Sound() && Inv(e, others)
    requires Confined(w, e, SlowPods(groups, fast), others)
    ensures var r := Pack(w, t, e, groups, fast, more).e;
      Counted(r, others) && r.budget.maxNodes == e.budget.maxNodes
    decreases |groups|
  {
    if groups == [] {
      InvCounts(e, others);
    } else {
      var last := fast && |groups| == 1;
      var s := Round(w, t, e, groups[0], last, more);
      if !last {
        GroupConfined(w, e, groups[0], SlowPods(groups[1..], fast), others);
      }
      RoundCounts(w, t, e, groups[0], last, more, others);
      if s.Step? && groups[1..] != [] {
        if groups[0] == [] {
          assert [] + SlowPods(groups[1..], fast) == SlowPods(groups[1..], fast) && s.e == e;
        }
        PackCounts(w, t, s.e, groups[1..], fast, s.more, others);
      }
    }
  }

  /** The first group is confined, and the others are once a pod of it was handled. */
  lemma GroupConfined(w: World, e: Est, group: seq<Pod>, rest: seq<Pod>, others: set<NodeName>)
    requires Confined(w, e, group + rest, others)
    ensures Confined(w, e, group, others)
    ensures group != [] && !(e.cluster.Keys <= e.newNodes + others) && !NeverTopology(w) ==> !Spreads(rest)
  {
    SpreadsSplit(group, rest);
    if group != [] {
      assert (group + rest)[1..] == group[1..] + rest;
      SpreadsSplit(group[1..], rest);
    } else {
      assert group + rest == rest;
    }
  }

  // ----- a limiter that grants nothing -----

  /** No node was added and none can be. */
  ghost predicate Idle(e: Est) {
    && e.newNodes == {} && e.last.None? && e.withPods == {}
    && (e.budget.maxNodes < 0 || e.budget.maxDuration < 0)
  }

  lemma {:induction false} PackIdle(w: World, t: NodeInfo, e: Est, groups: seq<seq<Pod>>, fast: bool, more: bool)
    requires w.Sound() && Idle(e)
    ensures Idle(Pack(w, t, e, groups, fast, more).e)
    decreases |groups|
  {
    if groups != [] {
      var s := Round(w, t, e, groups[0], fast && |groups| == 1, more);
      assert OnExisting(w, e, groups[0]) == RestError(e) || OnExisting(w, e, groups[0]) == Rest(e, groups[0]);
      assert !Granted(w, e);
      if s.Step? {
        PackIdle(w, t, s.e, groups[1..], fast, s.more);
      }
    }
  }
}
