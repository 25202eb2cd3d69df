/**
  Which pods an estimation returns when the limiter refuses nothing: a group whose pods fit a fresh
  node in every cluster is returned as a whole, whatever happens to the other groups.
 */
module Completeness {
  import opened Wrappers
  import opened Snapshots
  import opened Limiter
  import opened Estimation

  /** In every cluster the pod fits a node that holds nothing but the template's pods. */
  ghost predicate FitsFresh(w: World, t: NodeInfo, p: Pod) {
    forall c: Cluster, n: NodeName :: n in c && c[n] == t ==> w.check(c, p, n) == Fits
  }

  ghost predicate AllFitFresh(w: World, t: NodeInfo, pods: seq<Pod>) {
    forall p :: p in pods ==> FitsFresh(w, t, p)
  }

  lemma FitSplit(w: World, t: NodeInfo, pods: seq<Pod>, k: nat)
    requires AllFitFresh(w, t, pods) && k <= |pods|
    ensures AllFitFresh(w, t, pods[k..]) && (k > 0 ==> FitsFresh(w, t, pods[0]))
  {
    assert k > 0 ==> pods[0] in pods;
    forall p | p in pods[k..] ensures FitsFresh(w, t, p) {
      assert p in pods;
    }
  }

  /** How often the limiter refused a node. */
  ghost function Refusals(b: Budget): int {
    b.asked - b.nodes
  }

  /** The node added last is in the cluster, and as the template made it as long as nothing was tracked on it. */
  ghost predicate LastIsFresh(e: Est, t: NodeInfo) {
    e.last.Some? ==> e.last.value in e.cluster && (e.last.value !in e.withPods ==> e.cluster[e.last.value] == t)
  }

  lemma PlaceFresh(e: Est, t: NodeInfo, p: Pod, n: NodeName)
    requires LastIsFresh(e, t) && n in e.cluster
    ensures LastIsFresh(Place(e, p, n), t)
  {
  }

  lemma {:induction false} OnExistingFresh(w: World, t: NodeInfo, e: Est, pods: seq<Pod>)
    requires w.Sound() && LastIsFresh(e, t)
    ensures var r := OnExisting(w, e, pods).e; LastIsFresh(r, t) && r.budget == e.budget
    decreases |pods|
  {
    if pods != [] {
      var c := w.pick(e.cluster, pods[0], e.newNodes);
      if c.On? {
        PlaceFresh(e, t, pods[0], c.node);
        OnExistingFresh(w, t, Place(e, pods[0], c.node), pods[1..]);
      }
    }
  }

  lemma TryLastFresh(w: World, t: NodeInfo, e: Est, p: Pod)
    requires w.Sound() && LastIsFresh(e, t)
    ensures var a := TryLast(w, e, p);
      && (a.Placed? ==> LastIsFresh(a.e, t) && a.e.budget == e.budget && a.e.scheduled == e.scheduled + [p])
      && (a.NotPlaced? && FitsFresh(w, t, p) && e.last.Some? ==> e.last.value in e.withPods)
  {
  }

  /** What one pod, or the rest of the pods, did to the limiter: the loop is told to ask no more only by a refusal. */
  ghost predicate Honest(e: Est, s: Step) {
    && Refusals(e.budget) <= Refusals(s.e.budget) <= Refusals(e.budget) + 1
    && (s.Step? ==> (s.more <==> Refusals(s.e.budget) == Refusals(e.budget)))
  }

  lemma OnNewNextFresh(w: World, t: NodeInfo, e: Est, p: Pod)
    requires w.Sound() && LastIsFresh(e, t)
    ensures match OnNewNext(w, t, e, p)
      case Done(s) => Honest(e, s) && LastIsFresh(s.e, t) && (s.Step? && s.more ==> !FitsFresh(w, t, p))
      case Go(r) => Refusals(r.budget) == Refusals(e.budget) && LastIsFresh(r, t) && r.scheduled == e.scheduled + [p]
  {
    TryLastFresh(w, t, e, p);
  }

  lemma {:induction false} OnNewFresh(w: World, t: NodeInfo, e: Est, pods: seq<Pod>)
    requires w.Sound() && LastIsFresh(e, t)
    ensures var s := OnNew(w, t, e, pods); Honest(e, s) && LastIsFresh(s.e, t)
    decreases |pods|
  {
    if pods != [] {
      OnNewNextFresh(w, t, e, pods[0]);
      match OnNewNext(w, t, e, pods[0])
      case Done(s) => assert OnNew(w, t, e, pods) == s;
      case Go(r) => OnNewFresh(w, t, r, pods[1..]);
    }
  }

  lemma {:induction false} OnNewTakesAll(w: World, t: NodeInfo, e: Est, pods: seq<Pod>)
    requires w.Sound() && LastIsFresh(e, t) && AllFitFresh(w, t, pods)
    ensures var s := OnNew(w, t, e, pods); s.Step? && s.more ==> Whole(e.scheduled, s.e.scheduled, pods)
    decreases |pods|
  {
    if pods != [] {
      OnNewNextFresh(w, t, e, pods[0]);
      FitSplit(w, t, pods, 1);
      match OnNewNext(w, t, e, pods[0])
      case Done(s) => assert OnNew(w, t, e, pods) == s;
      case Go(r) =>
        OnNewTakesAll(w, t, r, pods[1..]);
        WholeStep(e.scheduled, OnNew(w, t, r, pods[1..]).e.scheduled, pods);
    }
  }

  /** All pods were appended. */
  ghost predicate Whole(a: seq<Pod>, b: seq<Pod>, pods: seq<Pod>) {
    b == a + pods
  }

  lemma WholeStep(a: seq<Pod>, b: seq<Pod>, pods: seq<Pod>)
    requires pods != []
    ensures Whole(a + [pods[0]], b, pods[1..]) ==> Whole(a, b, pods)
  {
    assert a + [pods[0]] + pods[1..] == a + pods;
  }

  lemma {:induction false} FillFresh(w: World, e: Est, n: NodeName, pods: seq<Pod>)
    ensures Fill(w, e, n, pods).e.budget == e.budget
    decreases |pods|
  {
    if pods != [] && Try(w, e, pods[0], n) == Fits {
      FillFresh(w, Place(e, pods[0], n), n, pods[1..]);
    }
  }

  /** Enough pretended nodes take all pods, unless one is refused. */
  lemma {:induction false} PretendTakesAll(w: World, e: Est, of: NodeName, pods: seq<Pod>, k: nat, j: nat, size: nat)
    requires k > 0 && j <= size && size - j == CeilDiv(|pods|, k)
    ensures var s := Pretend(w, e, of, pods, k, j, size);
      s.Step? && Honest(e, s) && (s.more ==> s.e.scheduled == e.scheduled + pods)
    decreases size - j
  {
    if j < size && Granted(w, e) {
      var q := if k < |pods| then k else |pods|;
      var e1 := TrackAll(Ask(w, e), pods[..q], Fake(of, j));
      TrackAllEffect(Ask(w, e), pods[..q], Fake(of, j));
      PretendTakesAll(w, e1, of, pods[q..], k, j + 1, size);
      AppendSplit(e.scheduled, pods, q);
    }
  }

  lemma FillTakesOne(w: World, e: Est, n: NodeName, pods: seq<Pod>)
    requires pods != [] && Try(w, e, pods[0], n) == Fits
    ensures var r := Fill(w, e, n, pods); r.Rest? ==> |r.pods| < |pods|
  {
    FillPrefix(w, Place(e, pods[0], n), n, pods[1..]);
  }

  lemma AfterOpeningFresh(w: World, e: Est, n: NodeName, pods: seq<Pod>)
    requires pods != []
    ensures var s := AfterOpening(w, e, n, pods);
      && Honest(e, s)
      && (s.Step? && s.more && Try(w, e, pods[0], n) == Fits ==> s.e.scheduled == e.scheduled + pods)
  {
    FillFresh(w, e, n, pods);
    if Try(w, e, pods[0], n) == Fits {
      FillTakesOne(w, e, n, pods);
    }
    match Fill(w, e, n, pods)
    case RestError(e2) => assert AfterOpening(w, e, n, pods) == StepError(e2);
    case Rest(e2, rest) =>
      FillPrefix(w, e, n, pods);
      var k := |pods| - |rest|;
      if k > 0 {
        assert AfterOpening(w, e, n, pods) == Pretend(w, e2, n, rest, k, 1, CeilDiv(|pods|, k));
        assert CeilDiv(|pods|, k) == 1 + CeilDiv(|rest|, k);
        PretendTakesAll(w, e2, n, rest, k, 1, CeilDiv(|pods|, k));
        AppendSplit(e.scheduled, pods, k);
      } else {
        assert AfterOpening(w, e, n, pods) == Step(e2, true);
      }
  }

  lemma FastPathFresh(w: World, t: NodeInfo, e: Est, pods: seq<Pod>)
    ensures var s := FastPath(w, t, e, pods);
      && Honest(e, s)
      && (s.Step? && s.more && AllFitFresh(w, t, pods) ==> s.e.scheduled == e.scheduled + pods)
  {
    if pods != [] && Granted(w, e) && AddNode(Ask(w, e), t).Some? {
      var e1 := AddNode(Ask(w, e), t).value;
      AfterOpeningFresh(w, e1, e1.last.value, pods);
      if AllFitFresh(w, t, pods) {
        FitSplit(w, t, pods, 1);
      }
    }
  }

  /** One group: more nodes are out of reach only after a refusal, and without one its fitting pods are all placed. */
  lemma RoundFresh(w: World, t: NodeInfo, e: Est, pods: seq<Pod>, fast: bool)
    requires w.Sound() && LastIsFresh(e, t)
    ensures var s := Round(w, t, e, pods, fast, true);
      && Honest(e, s) && (!fast ==> LastIsFresh(s.e, t))
      && (s.Step? && s.more && AllFitFresh(w, t, pods) ==> s.e.scheduled == e.scheduled + pods)
  {
    OnExistingFresh(w, t, e, pods);
    OnExistingPrefix(w, e, pods);
    var r := OnExisting(w, e, pods);
    if r.Rest? {
      if AllFitFresh(w, t, pods) {
        FitSplit(w, t, pods, |pods| - |r.pods|);
      }
      AppendSplit(e.scheduled, pods, |pods| - |r.pods|);
      if fast {
        FastPathFresh(w, t, r.e, r.pods);
      } else {
        OnNewFresh(w, t, r.e, r.pods);
        if AllFitFresh(w, t, pods) {
          OnNewTakesAll(w, t, r.e, r.pods);
        }
      }
    }
  }

  /** Once no more nodes are available, the limiter is not asked again. */
  lemma {:induction false} PackAsksNoMore(w: World, t: NodeInfo, e: Est, groups: seq<seq<Pod>>, fast: bool)
    requires w.Sound()
    ensures Pack(w, t, e, groups, fast, false).e.budget == e.budget
    decreases |groups|
  {
    if groups != [] {
      OnExistingBudget(w, e, groups[0]);
      var s := Round(w, t, e, groups[0], fast && |groups| == 1, false);
      if s.Step? {
        PackAsksNoMore(w, t, s.e, groups[1..], fast);
      }
    }
  }

  lemma {:induction false} OnExistingBudget(w: World, e: Est, pods: seq<Pod>)
    requires w.Sound()
    ensures OnExisting(w, e, pods).e.budget == e.budget
    decreases |pods|
  {
    if pods != [] {
      var c := w.pick(e.cluster, pods[0], e.newNodes);
      if c.On? {
        OnExistingBudget(w, Place(e, pods[0], c.node), pods[1..]);
      }
    }
  }

  /** `pods` consists of a prefix of each group, and of the whole of each group whose pods fit a fresh node. */
  ghost predicate Complete(w: World, t: NodeInfo, groups: seq<seq<Pod>>, pods: seq<Pod>)
    decreases |groups|
  {
    if groups == [] then pods == []
    else exists k: nat ::
        && k <= |groups[0]| && k <= |pods| && pods[..k] == groups[0][..k]
        && (AllFitFresh(w, t, groups[0]) ==> k == |groups[0]|)
        && Complete(w, t, groups[1..], pods[k..])
  }

  /** The schedule went on from `e` with the groups, completely. */
  ghost predicate Completed(w: World, t: NodeInfo, e: Est, r: Est, groups: seq<seq<Pod>>) {
    |e.scheduled| <= |r.scheduled| && r.scheduled[..|e.scheduled|] == e.scheduled
    && Complete(w, t, groups, r.scheduled[|e.scheduled|..])
  }

  /** Over all groups: the limiter refuses at most once, and if it never does every group that fits is complete. */
  lemma {:induction false} PackCompletes(w: World, t: NodeInfo, e: Est, groups: seq<seq<Pod>>, fast: bool)
    requires w.Sound() && LastIsFresh(e, t)
    ensures var s := Pack(w, t, e, groups, fast, true);
      && Refusals(e.budget) <= Refusals(s.e.budget) <= Refusals(e.budget) + 1
      && (s.Step? && Refusals(s.e.budget) == Refusals(e.budget) ==> Completed(w, t, e, s.e, groups))
    decreases |groups|
  {
    if groups != [] {
      var s := Round(w, t, e, groups[0], fast && |groups| == 1, true);
      RoundFresh(w, t, e, groups[0], fast && |groups| == 1);
      RoundPrefix(w, t, e, groups[0], fast && |groups| == 1, true);
      if s.Step? && s.more && |groups| > 1 {
        PackCompletes(w, t, s.e, groups[1..], fast);
      } else if s.Step? && !s.more {
        PackAsksNoMore(w, t, s.e, groups[1..], fast);
      } else if s.Step? {
        assert groups[1..] == [] && Pack(w, t, e, groups, fast, true).e == s.e;
      }
      var r := Pack(w, t, e, groups, fast, true);
      if s.Step? && s.more && r.Step? && Refusals(r.e.budget) == Refusals(e.budget) {
        CompleteGrows(w, t, e, s.e, r.e, groups);
      }
    }
  }

  lemma CompleteGrows(w: World, t: NodeInfo, a: Est, b: Est, r: Est, groups: seq<seq<Pod>>)
    requires groups != [] && Extends(a, b, groups[0]) && Completed(w, t, b, r, groups[1..])
    requires AllFitFresh(w, t, groups[0]) ==> b.scheduled == a.scheduled + groups[0]
    ensures Completed(w, t, a, r, groups)
  {
    var k, all := |b.scheduled| - |a.scheduled|, r.scheduled;
    assert all[..|a.scheduled|] == all[..|b.scheduled|][..|a.scheduled|] == a.scheduled;
    assert all[|a.scheduled|..][..k] == all[..|b.scheduled|][|a.scheduled|..] == groups[0][..k];
    assert all[|a.scheduled|..][k..] == all[|b.scheduled|..];
  }

  /**
    An estimation that ends without an error and to which the limiter refused no node returns all pods
    of every group whose pods fit a fresh node, whatever the other groups do. The limiter never has to
    refuse twice.
   */
  lemma EstimateIsComplete(w: World, t: NodeInfo, c: Cluster, b: Budget, groups: seq<seq<Pod>>, fast: bool)
    requires w.Sound() && b.nodes == b.asked == 0
    ensures var s := Pack(w, t, Start(c, b), groups, fast, true);
      && 0 <= Refusals(s.e.budget) <= 1
      && (s.Step? && Refusals(s.e.budget) == 0 ==> Complete(w, t, groups, s.e.scheduled))
  {
    PackCompletes(w, t, Start(c, b), groups, fast);
    var s := Pack(w, t, Start(c, b), groups, fast, true);
    assert s.e.scheduled[0..] == s.e.scheduled;
  }

  /** In a complete schedule no pod of a fitting group is missing. */
  lemma {:induction false} CompleteHasAll(w: World, t: NodeInfo, groups: seq<seq<Pod>>, pods: seq<Pod>, i: nat, p: Pod)
    requires Complete(w, t, groups, pods) && i < |groups| && AllFitFresh(w, t, groups[i]) && p in groups[i]
    ensures p in pods
    decreases |groups|
  {
    var k: nat :|
      && k <= |groups[0]| && k <= |pods| && pods[..k] == groups[0][..k]
      && (AllFitFresh(w, t, groups[0]) ==> k == |groups[0]|)
      && Complete(w, t, groups[1..], pods[k..]);
    if i == 0 {
      assert p in pods[..k];
    } else {
      CompleteHasAll(w, t, groups[1..], pods[k..], i - 1, p);
    }
  }

  // ----- nodes added in vain -----

  /** Every added node but the last carries a pod. */
  ghost predicate OnlyLastEmpty(e: Est) {
    forall n :: n in e.newNodes ==> n in e.withPods || e.last == Some(n)
  }

  lemma {:induction false} OnExistingOnlyLast(w: World, e: Est, pods: seq<Pod>)
    requires w.Sound() && OnlyLastEmpty(e)
    ensures OnlyLastEmpty(OnExisting(w, e, pods).e)
    decreases |pods|
  {
    if pods != [] {
      var c := w.pick(e.cluster, pods[0], e.newNodes);
      if c.On? {
        OnExistingOnlyLast(w, Place(e, pods[0], c.node), pods[1..]);
      }
    }
  }

  lemma OnNewNextOnlyLast(w: World, t: NodeInfo, e: Est, p: Pod)
    requires w.Sound() && OnlyLastEmpty(e)
    ensures OnlyLastEmpty(EndOf(OnNewNext(w, t, e, p)))
  {
  }

  lemma {:induction false} OnNewOnlyLast(w: World, t: NodeInfo, e: Est, pods: seq<Pod>)
    requires w.Sound() && OnlyLastEmpty(e)
    ensures OnlyLastEmpty(OnNew(w, t, e, pods).e)
    decreases |pods|
  {
    if pods != [] {
      OnNewNextOnlyLast(w, t, e, pods[0]);
      match OnNewNext(w, t, e, pods[0])
      case Done(s) => assert OnNew(w, t, e, pods) == s;
      case Go(r) => OnNewOnlyLast(w, t, r, pods[1..]);
    }
  }

  /** Node by node, at most one of the added nodes stays empty: none is added next to an empty one. */
  lemma {:induction false} OneNodeInVain(w: World, t: NodeInfo, e: Est, groups: seq<seq<Pod>>, more: bool)
    requires w.Sound() && OnlyLastEmpty(e)
    ensures var r := Pack(w, t, e, groups, false, more).e; OnlyLastEmpty(r) && |r.newNodes - r.withPods| <= 1
    decreases |groups|
  {
    if groups == [] {
      AtMostLast(e);
    } else {
      OnExistingOnlyLast(w, e, groups[0]);
      var r := OnExisting(w, e, groups[0]);
      if r.Rest? && more {
        OnNewOnlyLast(w, t, r.e, r.pods);
      }
      var s := Round(w, t, e, groups[0], false, more);
      AtMostLast(s.e);
      if s.Step? {
        OneNodeInVain(w, t, s.e, groups[1..], s.more);
      }
    }
  }

  lemma AtMostLast(e: Est)
    requires OnlyLastEmpty(e)
    ensures |e.newNodes - e.withPods| <= 1
  {
    if e.last.Some? {
      Subset(e.newNodes - e.withPods, {e.last.value});
    } else {
      Subset(e.newNodes - e.withPods, {});
    }
  }

  // ----- internal errors -----

  /** The predicates break down on this pod wherever it is tried. */
  ghost predicate BreaksDown(w: World, p: Pod) {
    forall c: Cluster, n: NodeName :: n in c ==> w.check(c, p, n) == Broken
  }

  ghost predicate NoneBreaks(w: World, groups: seq<seq<Pod>>) {
    forall i :: 0 <= i < |groups| && groups[i] != [] ==> !BreaksDown(w, groups[i][0])
  }

  lemma BrokenOnExisting(w: World, e: Est, pods: seq<Pod>)
    requires w.Sound() && pods != [] && BreaksDown(w, pods[0])
    ensures OnExisting(w, e, pods) == RestError(e) || OnExisting(w, e, pods) == Rest(e, pods)
  {
  }

  lemma BrokenRound(w: World, t: NodeInfo, e: Est, pods: seq<Pod>, fast: bool)
    requires w.Sound() && LastIsFresh(e, t) && pods != [] && BreaksDown(w, pods[0])
    ensures var s := Round(w, t, e, pods, fast, true); s.Step? ==> !s.more
  {
    BrokenOnExisting(w, e, pods);
    if OnExisting(w, e, pods).Rest? && !fast {
      BrokenOnNew(w, t, e, pods[0]);
    }
  }

  lemma BrokenOnNew(w: World, t: NodeInfo, e: Est, p: Pod)
    requires w.Sound() && LastIsFresh(e, t) && BreaksDown(w, p)
    ensures var n := OnNewNext(w, t, e, p); n.Done? && (n.step.Step? ==> !n.step.more)
  {
  }

  /** Without a refusal, an estimation over a group whose first pod breaks the predicates ends with an error. */
  lemma {:induction false} ErrorsAreReported(w: World, t: NodeInfo, e: Est, groups: seq<seq<Pod>>, fast: bool)
    requires w.Sound() && LastIsFresh(e, t)
    ensures var s := Pack(w, t, e, groups, fast, true);
      s.Step? && Refusals(s.e.budget) == Refusals(e.budget) ==> NoneBreaks(w, groups)
    decreases |groups|
  {
    if groups != [] {
      var s := Round(w, t, e, groups[0], fast && |groups| == 1, true);
      RoundFresh(w, t, e, groups[0], fast && |groups| == 1);
      if groups[0] != [] && BreaksDown(w, groups[0][0]) {
        BrokenRound(w, t, e, groups[0], fast && |groups| == 1);
      }
      if s.Step? && !s.more {
        PackAsksNoMore(w, t, s.e, groups[1..], fast);
      } else if s.Step? && |groups| > 1 {
        PackCompletes(w, t, s.e, groups[1..], fast);
        ErrorsAreReported(w, t, s.e, groups[1..], fast);
        assert forall i :: 0 < i < |groups| ==> groups[i] == groups[1..][i-1];
      }
    }
  }

  /** A scheduler without internal errors. */
  ghost predicate NeverBroken(w: World) {
    && (forall c: Cluster, p: Pod, n: NodeName :: n in c ==> w.check(c, p, n) != Broken)
    && (forall c: Cluster, p: Pod, names: set<NodeName> :: w.pick(c, p, names) != ChoiceBroken)
  }

  /** The names of the nodes still to be added are free, and the node added last is there. */
  ghost predicate NamesFree(e: Est) {
    (forall i :: e.nextIndex <= i ==> Simulated(i) !in e.cluster) && (e.last.Some? ==> e.last.value in e.cluster)
  }

  lemma {:induction false} OnExistingSucceeds(w: World, e: Est, pods: seq<Pod>)
    requires w.Sound() && NeverBroken(w) && NamesFree(e)
    ensures OnExisting(w, e, pods).Rest? && NamesFree(OnExisting(w, e, pods).e)
    decreases |pods|
  {
    if pods != [] {
      var c := w.pick(e.cluster, pods[0], e.newNodes);
      if c.On? {
        OnExistingSucceeds(w, Place(e, pods[0], c.node), pods[1..]);
      }
    }
  }

  lemma OnNewNextSucceeds(w: World, t: NodeInfo, e: Est, p: Pod)
    requires w.Sound() && NeverBroken(w) && NamesFree(e)
    ensures match OnNewNext(w, t, e, p)
      case Done(s) => s.Step? && NamesFree(s.e)
      case Go(r) => NamesFree(r)
  {
  }

  lemma {:induction false} OnNewSucceeds(w: World, t: NodeInfo, e: Est, pods: seq<Pod>)
    requires w.Sound() && NeverBroken(w) && NamesFree(e)
    ensures OnNew(w, t, e, pods).Step? && NamesFree(OnNew(w, t, e, pods).e)
    decreases |pods|
  {
    if pods != [] {
      OnNewNextSucceeds(w, t, e, pods[0]);
      match OnNewNext(w, t, e, pods[0])
      case Done(s) => assert OnNew(w, t, e, pods) == s;
      case Go(r) => OnNewSucceeds(w, t, r, pods[1..]);
    }
  }

  lemma {:induction false} FillSucceeds(w: World, e: Est, n: NodeName, pods: seq<Pod>)
    requires NeverBroken(w) && n in e.cluster
    ensures Fill(w, e, n, pods).Rest?
    decreases |pods|
  {
    if pods != [] && Try(w, e, pods[0], n) == Fits {
      FillSucceeds(w, Place(e, pods[0], n), n, pods[1..]);
    }
  }

  lemma {:induction false} PretendSucceeds(w: World, e: Est, of: NodeName, pods: seq<Pod>, k: nat, j: nat, size: nat)
    ensures Pretend(w, e, of, pods, k, j, size).Step?
    decreases size - j
  {
    if j < size && Granted(w, e) {
      var q := if k < |pods| then k else |pods|;
      PretendSucceeds(w, TrackAll(Ask(w, e), pods[..q], Fake(of, j)), of, pods[q..], k, j + 1, size);
    }
  }

  lemma FastPathSucceeds(w: World, t: NodeInfo, e: Est, pods: seq<Pod>)
    requires NeverBroken(w) && NamesFree(e)
    ensures FastPath(w, t, e, pods).Step?
  {
    if pods != [] && Granted(w, e) {
      var e1 := AddNode(Ask(w, e), t).value;
      var n := e1.last.value;
      FillSucceeds(w, e1, n, pods);
      var r := Fill(w, e1, n, pods);
      if |pods| > |r.pods| {
        var k := |pods| - |r.pods|;
        PretendSucceeds(w, r.e, n, r.pods, k, 1, CeilDiv(|pods|, k));
      }
    }
  }

  /** With a scheduler that never breaks down and free names an estimation never ends with an error. */
  lemma {:induction false} EstimateSucceeds(w: World, t: NodeInfo, e: Est, groups: seq<seq<Pod>>, fast: bool,
      more: bool)
    requires w.Sound() && NeverBroken(w) && NamesFree(e)
    ensures Pack(w, t, e, groups, fast, more).Step?
    decreases |groups|
  {
    if groups != [] {
      var last := fast && |groups| == 1;
      OnExistingSucceeds(w, e, groups[0]);
      var r := OnExisting(w, e, groups[0]);
      if more && last {
        FastPathSucceeds(w, t, r.e, r.pods);
      } else if more {
        OnNewSucceeds(w, t, r.e, r.pods);
      }
      var s := Round(w, t, e, groups[0], last, more);
      if |groups| > 1 {
        EstimateSucceeds(w, t, s.e, groups[1..], fast, s.more);
      }
    }
  }
}
