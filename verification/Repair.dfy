/**
  The two repair steps of the main loop: targets are lowered to sizes that were wrong for too long,
  and instances that failed to register for too long are removed.
 */
module Repair {
  import opened Wrappers
  import opened Stretches
  import opened ScaleRequests
  import opened ClusterState
  import R = Readiness

  // ----- fixing sizes -----

  datatype FixError = NoProvisionTime(group: GroupId) | DecreaseFailed(group: GroupId)

  /** A recorded mismatch calls for a decrease when it is older than the provision time and the group is too small. */
  predicate Due(incorrect: map<GroupId, Since<Sizes>>, provision: map<GroupId, int>, now: int, g: GroupId) {
    && g in incorrect && g in provision
    && incorrect[g].since + provision[g] < now
    && incorrect[g].value.current < incorrect[g].value.expected
  }

  /** The decreases called for by the first groups. */
  function DueFor(incorrect: map<GroupId, Since<Sizes>>, provision: map<GroupId, int>, now: int,
      groups: seq<GroupId>): seq<Decrease> {
    if groups == [] then []
    else
      var g := groups[|groups|-1];
      DueFor(incorrect, provision, now, groups[..|groups|-1])
      + if Due(incorrect, provision, now,
          g) then [Decrease(g, incorrect[g].value.current - incorrect[g].value.expected)] else []
  }

  lemma DueForSnoc(incorrect: map<GroupId, Since<Sizes>>, provision: map<GroupId, int>, now: int,
      groups: seq<GroupId>, k: nat)
    requires k < |groups|
    ensures DueFor(incorrect, provision, now, groups[..k+1]) == DueFor(incorrect, provision, now, groups[..k])
      + if Due(incorrect, provision, now, groups[k])
        then [Decrease(groups[k], incorrect[groups[k]].value.current - incorrect[groups[k]].value.expected)] else []
  {
    assert groups[..k+1][..k] == groups[..k];
  }

  lemma {:induction false} DueForContents(incorrect: map<GroupId, Since<Sizes>>, provision: map<GroupId, int>,
      now: int, groups: seq<GroupId>, d: Decrease)
    ensures d in DueFor(incorrect, provision, now, groups) <==>
      && d.group in groups && Due(incorrect, provision, now, d.group)
      && d.delta == incorrect[d.group].value.current - incorrect[d.group].value.expected
  {
    if groups != [] {
      DueForContents(incorrect, provision, now, groups[..|groups|-1], d);
      assert groups == groups[..|groups|-1] + [groups[|groups|-1]];
    }
  }

  /** The group showed the same too small size, against the same target, at every observation for longer than the
      provision time. */
  ghost predicate LongTooSmall(h: seq<Observation>, g: GroupId, provision: int, now: int, delta: int) {
    exists start: nat, s: Sizes ::
        SameMismatchSince(h, g, s, start) && h[start].now + provision < now && delta == s.current - s.expected
        && delta < 0
  }

  lemma StretchesAgree(h: seq<Observation>, g: GroupId, s: Sizes, a: nat, t: Sizes, b: nat)
    requires SameMismatchSince(h, g, s, a) && SameMismatchSince(h, g, t, b)
    ensures s == t && a == b
  {
    assert Mismatched(h[|h|-1], g);
  }

  /**
    Over any run of observations, a decrease is called for exactly when the same mismatch was observed
    without a break for longer than the provision time, and by observed registered minus observed target.
   */
  lemma DueExactlyWhen(h: seq<Observation>, provision: map<GroupId, int>, now: int, groups: seq<GroupId>, d: Decrease)
    ensures d in DueFor(Replay(Mismatches(h)), provision, now, groups) <==>
      d.group in groups && d.group in provision && LongTooSmall(h, d.group, provision[d.group], now, d.delta)
  {
    DueForContents(Replay(Mismatches(h)), provision, now, groups, d);
    if d.group in provision {
      RecordExactlyWhen(h, d.group, provision[d.group], now, d.delta);
    }
  }

  /** The record of a group calls for a decrease exactly when the group was too small for too long. */
  lemma RecordExactlyWhen(h: seq<Observation>, g: GroupId, provision: int, now: int, delta: int)
    ensures var m := Replay(Mismatches(h));
      LongTooSmall(h, g, provision, now, delta) <==>
      (g in m && m[g].since + provision < now && delta == m[g].value.current - m[g].value.expected && delta < 0)
  {
    var m := Replay(Mismatches(h));
    FirstObservedMeans(h, g);
    if LongTooSmall(h, g, provision, now, delta) {
      DecreaseClosesGap(h, g, provision, now, delta);
      var start: nat :| SameMismatchSince(h, g, m[g].value, start) && m[g].since == h[start].now;
      var b: nat, t: Sizes :| SameMismatchSince(h, g, t, b) && h[b].now + provision < now
          && delta == t.current - t.expected && delta < 0;
      StretchesAgree(h, g, m[g].value, start, t, b);
    }
  }

  /** The observed sizes behind a decrease are those of the last observation. */
  lemma DecreaseClosesGap(h: seq<Observation>, g: GroupId, provision: int, now: int, delta: int)
    requires LongTooSmall(h, g, provision, now, delta)
    ensures h != [] && Mismatched(h[|h|-1], g) && Lookup(h[|h|-1].targets, g) + delta == RegisteredIn(h[|h|-1].nodes, g)
  {
    var start: nat, s: Sizes :| SameMismatchSince(h, g, s, start) && h[start].now + provision < now
        && delta == s.current - s.expected && delta < 0;
    assert Mismatched(h[|h|-1], g);
  }

  /** The groups up to the one at which fixing stops: all of them, or up to the first failure. */
  ghost predicate StoppedAt(incorrect: map<GroupId, Since<Sizes>>, provision: map<GroupId, int>, now: int,
      groups: seq<GroupId>, failing: set<GroupId>, error: Option<FixError>, k: nat) {
    && k <= |groups|
    && (forall i :: 0 <= i < k ==>
        (groups[i] in incorrect ==> groups[i] in provision)
        && !(Due(incorrect, provision, now, groups[i]) && groups[i] in failing))
    && match error
       case None => k == |groups|
       case Some(NoProvisionTime(g)) => k < |groups| && g == groups[k] && g in incorrect && g !in provision
       case Some(DecreaseFailed(g)) =>
         k < |groups| && g == groups[k] && Due(incorrect, provision, now, g) && g in failing
  }

  /** The groups for which a decrease was asked: those done, and the one at which it failed. */
  function AskedOf(groups: seq<GroupId>, error: Option<FixError>, k: nat): seq<GroupId>
    requires k <= |groups| && (error.Some? ==> k < |groups|)
  {
    if error.Some? && error.value.DecreaseFailed? then groups[..k+1] else groups[..k]
  }

  /** `failing` are the groups whose decrease the provider refuses; `asked` are the decreases asked for, `k` the
      groups done. */
  method FixSizes(incorrect: map<GroupId, Since<Sizes>>, groups: seq<GroupId>, provision: map<GroupId, int>,
      failing: set<GroupId>, now: int)
    returns (fixed: bool, error: Option<FixError>, asked: seq<Decrease>, k: nat)
    ensures StoppedAt(incorrect, provision, now, groups, failing, error, k)
    ensures asked == DueFor(incorrect, provision, now, AskedOf(groups, error, k))
    ensures fixed <==>
        !(error.Some? && error.value.NoProvisionTime?) && DueFor(incorrect, provision, now, groups[..k]) != []
  {
    fixed, error, asked, k := false, None, [], 0;
    while k < |groups|
      invariant k <= |groups|
      invariant StoppedAt(incorrect, provision, now, groups[..k], failing, None, k)
      invariant asked == DueFor(incorrect, provision, now, groups[..k])
      invariant fixed <==> asked != []
    {
      var g := groups[k];
      DueForSnoc(incorrect, provision, now, groups, k);
      if g in incorrect {
        if g !in provision {
          return false, Some(NoProvisionTime(g)), asked, k;
        }
        if incorrect[g].since + provision[g] < now {
          var delta := incorrect[g].value.current - incorrect[g].value.expected;
          if delta < 0 {
            asked := asked + [Decrease(g, delta)];
            if g in failing {
              return fixed, Some(DecreaseFailed(g)), asked, k;
            }
            fixed := true;
          }
        }
      }
      k := k + 1;
    }
    assert groups[..k] == groups;
  }

  /** Decreases are asked only of groups that were too small in the same way for longer than their provision time. */
  method FixNodeGroupSize(csr: ClusterStateRegistry, groups: seq<GroupId>, provision: map<GroupId, int>,
      failing: set<GroupId>, now: int)
    returns (fixed: bool, error: Option<FixError>, asked: seq<Decrease>, k: nat)
    requires csr.Valid()
    ensures StoppedAt(csr.incorrectSizes, provision, now, groups, failing, error, k)
    ensures fixed <==>
        !(error.Some? && error.value.NoProvisionTime?) && DueFor(csr.incorrectSizes, provision, now, groups[..k]) != []
    ensures forall d :: d in asked <==>
      d.group in AskedOf(groups, error, k) && d.group in provision
          && LongTooSmall(csr.history, d.group, provision[d.group], now, d.delta)
  {
    fixed, error, asked, k := FixSizes(csr.incorrectSizes, groups, provision, failing, now);
    OnRecordMeans(csr.unregistered, csr.incorrectSizes, csr.history);
    forall d ensures d in asked <==>
      d.group in AskedOf(groups, error, k) && d.group in provision
          && LongTooSmall(csr.history, d.group, provision[d.group], now, d.delta)
    {
      DueExactlyWhen(csr.history, provision, now, AskedOf(groups, error, k), d);
    }
  }

  // ----- two decreases in one loop -----

  /** The open request of the group is past its deadline at the observation. */
  predicate PastDeadline(rs: Requests, g: GroupId, now: int) {
    g in rs && rs[g].expectedAddTime < now
  }

  /**
    Fixing alone brings a target to the registered count. The update before it lowers the same target too
    exactly when the group's open request is past its deadline, and since fixing goes by the target read before
    that, the two together go below the registered count by the whole increase of the request.
   */
  lemma LoweredTwiceExactlyWhen(h: seq<Observation>, unregistered: map<string, Since<Absence>>,
      perGroup: map<GroupId, R.Stats>, total: R.Stats, rs: Requests, lowered: seq<Decrease>,
      g: GroupId, provision: int, now: int, delta: int)
    requires h != [] && LongTooSmall(h, g, provision, now, delta) && AllPositive(rs)
    requires unregistered.Keys == Missing(h[|h|-1]) && ReadinessFor(h[|h|-1], unregistered, perGroup, total)
    requires Reverted(lowered, rs, h[|h|-1], perGroup)
    ensures var o := h[|h|-1];
      && Lookup(o.targets, g) + delta == RegisteredIn(o.nodes, g)
      && ((exists d :: d in lowered && d.group == g) <==> PastDeadline(rs, g, o.now))
      && forall d :: d in lowered && d.group == g ==>
           Lookup(o.targets, g) + d.delta + delta == RegisteredIn(o.nodes, g) - rs[g].increase
             < RegisteredIn(o.nodes, g)
  {
    var o := h[|h|-1];
    DecreaseClosesGap(h, g, provision, now, delta);
    TooSmallHasUpcoming(o, unregistered, perGroup, total, g);
    if PastDeadline(rs, g, o.now) {
      assert Decrease(g, -rs[g].increase) in lowered;
    }
  }

  /** What one loop does to a group it fixes, against the requests open before. */
  ghost predicate FixedOrBelow(o: Observation, rs: Requests, lowered: seq<Decrease>, asked: seq<Decrease>,
      d: Decrease) {
    d in asked ==>
      && Lookup(o.targets, d.group) + d.delta == RegisteredIn(o.nodes, d.group)
      && ((exists e :: e in lowered && e.group == d.group) <==> PastDeadline(rs, d.group, o.now))
      && forall e :: e in lowered && e.group == d.group ==>
           Lookup(o.targets, d.group) + e.delta + d.delta == RegisteredIn(o.nodes, d.group) - rs[d.group].increase
             < RegisteredIn(o.nodes, d.group)
  }

  /** The update and the size fixing of one loop. */
  method UpdateThenFix(csr: ClusterStateRegistry, o: Observation, groups: seq<GroupId>, provision: map<GroupId, int>,
      failing: set<GroupId>)
    returns (lowered: seq<Decrease>, error: Option<FixError>, asked: seq<Decrease>, k: nat)
    requires csr.Valid() && o.WellFormed()
    modifies csr
    ensures csr.Valid() && csr.history == old(csr.history) + [o]
    ensures RequestsAfter(csr.scaleUpRequests, old(csr.scaleUpRequests), o, old(csr.history), csr.perGroup)
    ensures StoppedAt(csr.incorrectSizes, provision, o.now, groups, failing, error, k)
    ensures csr.unregistered.Keys == Missing(o) && ReadinessFor(o, csr.unregistered, csr.perGroup, csr.total)
    ensures forall d :: d in asked <==>
      d.group in AskedOf(groups, error, k) && d.group in provision
          && LongTooSmall(csr.history, d.group, provision[d.group], o.now, d.delta)
    ensures forall d :: FixedOrBelow(o, old(csr.scaleUpRequests), lowered, asked, d)
  {
    ghost var rs := csr.scaleUpRequests;
    lowered := csr.UpdateNodes(Some(o));
    var fixed;
    fixed, error, asked, k := FixNodeGroupSize(csr, groups, provision, failing, o.now);
    OnRecordMeans(csr.unregistered, csr.incorrectSizes, csr.history);
    forall id ensures id in csr.unregistered <==> id in Missing(o) {
      UnregisteredSinceMeans(csr.history, id);
    }
    forall d | d in asked ensures FixedOrBelow(o, rs, lowered, asked, d) {
      LoweredTwiceExactlyWhen(csr.history, csr.unregistered, csr.perGroup, csr.total, rs, lowered, d.group,
          provision[d.group], o.now, d.delta);
    }
  }

  /** One ready node against a target of three, and no other instance listed. */
  function OneOfThree(now: int): Observation {
    Observation(now, [R.Node("n", "n", Some("pool"), false, true, false, false, 0, false)], ["pool"], {},
                map["pool" := 3], map[], map[], map[], map[])
  }

  lemma OneOfThreeIsMismatched(now: int)
    ensures var o := OneOfThree(now);
      Mismatched(o, "pool") && RegisteredIn(o.nodes, "pool") == 1 && Lookup(o.targets, "pool") == 3
  {
    var o := OneOfThree(now);
    assert o.nodes[..0] == [] && RegisteredIn(o.nodes, "pool") == 1;
    assert Missing(o) == {};
  }

  /** Seen at 1 and at 100, the gap of two is older than a provision time of ten. */
  lemma GapIsOld()
    ensures LongTooSmall([OneOfThree(1), OneOfThree(100)], "pool", 10, 100, -2)
  {
    var h := [OneOfThree(1), OneOfThree(100)];
    OneOfThreeIsMismatched(1);
    OneOfThreeIsMismatched(100);
    assert h[0] == OneOfThree(1) && h[1] == OneOfThree(100);
    assert SameMismatchSince(h, "pool", Sizes(1, 3), 0);
  }

  /** The update at 1 leaves the open request alone. */
  lemma StillRequested(unregistered: map<string, Since<Absence>>, perGroup: map<GroupId, R.Stats>, total: R.Stats,
      rs: Requests, after: Requests)
    requires var o := OneOfThree(1);
      && unregistered.Keys == Missing(o) && ReadinessFor(o, unregistered, perGroup, total)
      && RequestsAfter(after, rs, o, [], perGroup)
    requires "pool" in rs && rs["pool"] == ScaleUpRequest(2, 0, 10)
    ensures "pool" in after && after["pool"] == ScaleUpRequest(2, 0, 10)
  {
    var o := OneOfThree(1);
    OneOfThreeIsMismatched(1);
    TooSmallHasUpcoming(o, unregistered, perGroup, total, "pool");
    assert RequestAfterIn(after, rs, o, [], perGroup, "pool");
  }

  /** With a provision time and a willing provider every group is asked. */
  lemma NothingStops(incorrect: map<GroupId, Since<Sizes>>, provision: map<GroupId, int>, now: int,
      groups: seq<GroupId>, error: Option<FixError>, k: nat)
    requires StoppedAt(incorrect, provision, now, groups, {}, error, k)
    requires forall g :: g in groups ==> g in provision
    ensures AskedOf(groups, error, k) == groups
  {
  }

  /** A run in which a target of three is lowered by two twice, to below the one node that is there. */
  method TimeoutAndFixLowerTwice() returns (lowered: seq<Decrease>, asked: seq<Decrease>)
    ensures Decrease("pool", -2) in lowered && Decrease("pool", -2) in asked
    ensures Lookup(OneOfThree(100).targets, "pool") - 2 - 2 < RegisteredIn(OneOfThree(100).nodes, "pool")
  {
    var csr := new ClusterStateRegistry();
    csr.RegisterScaleUp("pool", 2, 0, Some(10));
    ghost var registered := csr.scaleUpRequests;
    var error, k;
    lowered, error, asked, k := UpdateThenFix(csr, OneOfThree(1), ["pool"], map["pool" := 10], {});
    StillRequested(csr.unregistered, csr.perGroup, csr.total, registered, csr.scaleUpRequests);
    ghost var open := csr.scaleUpRequests;
    lowered, error, asked, k := UpdateThenFix(csr, OneOfThree(100), ["pool"], map["pool" := 10], {});
    NothingStops(csr.incorrectSizes, map["pool" := 10], 100, ["pool"], error, k);
    GapIsOld();
    assert csr.history == [OneOfThree(1), OneOfThree(100)];
    assert Decrease("pool", -2) in asked;
    assert FixedOrBelow(OneOfThree(100), open, lowered, asked, Decrease("pool", -2));
    OneOfThreeIsMismatched(100);
    ghost var d :| d in lowered && d.group == "pool";
    assert d == Decrease("pool", -2);
  }

  // ----- removing instances that did not register -----

  datatype Options = OptionsFailed | NoOptions | Options(zeroOrMax: bool, allowNonAtomic: bool)

  datatype DeleteResult = DeleteOk | NotImplemented | DeleteFailed

  /** What the provider answers about a group; None is an error. */
  datatype Group = Group(targetSize: Option<int>, minSize: int, options: Options, instances: Option<seq<string>>,
      forceDelete: DeleteResult, delete: DeleteResult) {
    predicate ZeroOrMax() {
      options.Options? && options.zeroOrMax
    }
  }

  datatype Setting = Setting(groups: map<GroupId, Group>, groupOf: map<string, GroupId>, provision: map<GroupId, int>,
      now: int, force: bool) {
    /** The group of every instance is one of the provider's groups. */
    ghost predicate Consistent() {
      forall id :: id in groupOf ==> groupOf[id] in groups
    }

    predicate Old(unregistered: map<string, Since<Absence>>, id: string) {
      id in unregistered && id in groupOf && groupOf[id] in provision
          && unregistered[id].since + provision[groupOf[id]] < now
    }
  }

  /** The old instances of a group, in listing order. */
  function OldIn(s: Setting, unregistered: map<string, Since<Absence>>, ids: seq<string>, g: GroupId): seq<string> {
    if ids == [] then []
    else
      var id := ids[|ids|-1];
      OldIn(s, unregistered, ids[..|ids|-1], g) + if s.Old(unregistered, id) && s.groupOf[id] == g then [id] else []
  }

  lemma {:induction false} OldInContents(s: Setting, unregistered: map<string, Since<Absence>>, ids: seq<string>,
      g: GroupId, id: string)
    ensures id in OldIn(s, unregistered, ids, g) <==> id in ids && s.Old(unregistered, id) && s.groupOf[id] == g
    ensures multiset(OldIn(s, unregistered, ids, g))[id] <= multiset(ids)[id]
  {
    if ids != [] {
      OldInContents(s, unregistered, ids[..|ids|-1], g, id);
      assert ids == ids[..|ids|-1] + [ids[|ids|-1]];
    }
  }

  ghost predicate Unprovisioned(s: Setting, ids: seq<string>) {
    exists i :: 0 <= i < |ids| && ids[i] in s.groupOf && s.groupOf[ids[i]] !in s.provision
  }

  function Listed(m: map<GroupId, seq<string>>, g: GroupId): seq<string> {
    if g in m then m[g] else []
  }

  /** The map holds the old instances of each group that has any. */
  ghost predicate Grouped(s: Setting, unregistered: map<string, Since<Absence>>, ids: seq<string>,
      m: map<GroupId, seq<string>>) {
    forall g :: Listed(m, g) == OldIn(s, unregistered, ids, g) && (g in m ==> m[g] != [])
  }

  lemma GroupedSnoc(s: Setting, unregistered: map<string, Since<Absence>>, ids: seq<string>, id: string,
      m: map<GroupId, seq<string>>)
    requires Grouped(s, unregistered, ids, m) && id in unregistered
        && (id in s.groupOf ==> s.groupOf[id] in s.provision)
    ensures !s.Old(unregistered, id) ==> Grouped(s, unregistered, ids + [id], m)
    ensures s.Old(unregistered, id) ==>
        Grouped(s, unregistered, ids + [id], m[s.groupOf[id] := Listed(m, s.groupOf[id]) + [id]])
  {
    assert (ids + [id])[..|ids|] == ids;
  }

  /** Old instances by group, or None when a provision time is unknown. */
  method OldUnregisteredNodes(s: Setting, unregistered: map<string, Since<Absence>>, ids: seq<string>)
      returns (byGroup: Option<map<GroupId, seq<string>>>)
    requires forall id :: id in ids ==> id in unregistered
    ensures byGroup.None? <==> Unprovisioned(s, ids)
    ensures byGroup.Some? ==> Grouped(s, unregistered, ids, byGroup.value)
  {
    var m: map<GroupId, seq<string>> := map[];
    for i := 0 to |ids|
      invariant !Unprovisioned(s, ids[..i])
      invariant Grouped(s, unregistered, ids[..i], m)
    {
      var id := ids[i];
      assert ids[..i+1] == ids[..i] + [id] && id in ids;
      if id in s.groupOf && s.groupOf[id] !in s.provision {
        return None;
      }
      GroupedSnoc(s, unregistered, ids[..i], id, m);
      if id in s.groupOf {
        var g := s.groupOf[id];
        if unregistered[id].since + s.provision[g] < s.now {
          m := m[g := Listed(m, g) + [id]];
        }
      }
    }
    assert ids[..|ids|] == ids;
    return Some(m);
  }

  /** The part of a list that may be removed without going below the group's minimum; None skips the group. */
  function Capped(s: Setting, g: Group, ids: seq<string>): Option<seq<string>> {
    if s.force then Some(ids)
    else if g.targetSize.None? || g.targetSize.value - g.minSize <= 0 then None
    else if |ids| > g.targetSize.value - g.minSize then Some(ids[..g.targetSize.value - g.minSize])
    else Some(ids)
  }

  /** A zero-or-max group loses all of its instances or none; None is an error. */
  function OverrideForZeroOrMax(g: Group, ids: seq<string>): Option<seq<string>> {
    if g.options.OptionsFailed? then None
    else if !g.ZeroOrMax() then Some(ids)
    else if g.instances.None? then None
    else if |g.instances.value| == |ids| || !g.options.allowNonAtomic then g.instances
    else Some([])
  }

  /** What is asked to be removed of a group with the given old instances. */
  function ToRemove(s: Setting, g: Group, ids: seq<string>): seq<string> {
    match Capped(s, g, ids)
    case None => []
    case Some(capped) => match OverrideForZeroOrMax(g, capped) case None => [] case Some(r) => r
  }

  /** The answer of the provider to a removal. */
  function Answer(s: Setting, g: Group): DeleteResult {
    if s.force && g.forceDelete != NotImplemented then g.forceDelete else g.delete
  }

  datatype Removal = Removal(group: GroupId, ids: seq<string>)

  /** What one group is asked to remove. */
  function RemovalOf(s: Setting, unregistered: map<string, Since<Absence>>, ids: seq<string>, g: GroupId): seq<string>
    requires g in s.groups
  {
    ToRemove(s, s.groups[g], OldIn(s, unregistered, ids, g))
  }

  /** The removals asked of the given groups, in order. */
  ghost function Removals(s: Setting, unregistered: map<string, Since<Absence>>, ids: seq<string>,
      order: seq<GroupId>): seq<Removal>
    requires forall g :: g in order ==> g in s.groups
  {
    if order == [] then []
    else
      var g := order[|order|-1];
      var r := RemovalOf(s, unregistered, ids, g);
      Removals(s, unregistered, ids, order[..|order|-1]) + if r == [] then [] else [Removal(g, r)]
  }

  lemma {:induction false} RemovalsContents(s: Setting, unregistered: map<string, Since<Absence>>, ids: seq<string>,
      order: seq<GroupId>, r: Removal)
    requires forall g :: g in order ==> g in s.groups
    ensures r in Removals(s, unregistered, ids, order) <==>
        r.group in order && r.ids != [] && r.ids == RemovalOf(s, unregistered, ids, r.group)
  {
    if order != [] {
      RemovalsContents(s, unregistered, ids, order[..|order|-1], r);
      assert order == order[..|order|-1] + [order[|order|-1]];
    }
  }

  /** The instance was missing at every observation for longer than the provision time of its group. */
  ghost predicate LongMissing(s: Setting, h: seq<Observation>, id: string, g: GroupId) {
    && id in s.groupOf && s.groupOf[id] == g && g in s.provision
    && exists start: nat :: MissingSince(h, id, start) && h[start].now + s.provision[g] < s.now
  }

  lemma MissingStretchesAgree(h: seq<Observation>, id: string, a: nat, b: nat)
    requires MissingSince(h, id, a) && MissingSince(h, id, b)
    ensures a == b
  {
  }

  /** Over any run, an instance is old exactly when the unbroken stretch in which it was missing exceeds the provision
      time. */
  lemma OldExactlyWhen(s: Setting, h: seq<Observation>, id: string, g: GroupId)
    ensures s.Old(Replay(Absences(h)), id) && s.groupOf[id] == g <==> LongMissing(s, h, id, g)
  {
    var m := Replay(Absences(h));
    UnregisteredSinceMeans(h, id);
    if id in m {
      var start: nat :| MissingSince(h, id, start) && m[id].since == h[start].now;
      if LongMissing(s, h, id, g) {
        var b: nat :| MissingSince(h, id, b) && h[b].now + s.provision[g] < s.now;
        MissingStretchesAgree(h, id, start, b);
      }
    }
  }

  /**
    What is removed of a group: not more than its target exceeds its minimum, and only old instances,
    as many as that allows; of a zero-or-max group all instances or none, and all of them only if
    every instance is to go or partial scale-ups are not allowed.
   */
  lemma RemovalIsBounded(s: Setting, g: Group, ids: seq<string>)
    ensures var r := ToRemove(s, g, ids);
      && (!g.ZeroOrMax() ==>
            && |r| <= |ids| && r == ids[..|r|]
            && (!s.force && r != [] ==> g.targetSize.Some? && |r| <= g.targetSize.value - g.minSize)
            && (s.force && !g.options.OptionsFailed? ==> r == ids)
            && (!s.force && !g.options.OptionsFailed? && g.targetSize.Some? && g.targetSize.value > g.minSize ==>
                  r == ids || |r| == g.targetSize.value - g.minSize))
      && (g.ZeroOrMax() ==> r == [] || Some(r) == g.instances)
      && (g.ZeroOrMax() && r != [] && g.options.allowNonAtomic ==> CappedCount(s, g, |ids|) == Some(|r|))
      && (g.options.OptionsFailed? ==> r == [])
      && (g.ZeroOrMax() && KeepsAll(s, g, |ids|) ==> r == [])
      && (g.ZeroOrMax() && !KeepsAll(s, g, |ids|) ==> Some(r) == g.instances)
  {
  }

  /** The number of instances that may be removed of `n` old ones; None skips the group. */
  function CappedCount(s: Setting, g: Group, n: nat): Option<nat> {
    if s.force then Some(n)
    else if g.targetSize.None? || g.targetSize.value - g.minSize <= 0 then None
    else if n > g.targetSize.value - g.minSize then Some(g.targetSize.value - g.minSize)
    else Some(n)
  }

  /** A group of which `n` old instances are to go is kept as it is, for a reason other than the absence of old ones. */
  predicate KeepsAll(s: Setting, g: Group, n: nat)
    requires g.ZeroOrMax()
  {
    var capped := CappedCount(s, g, n);
    capped.None? || g.instances.None? || (g.options.allowNonAtomic && |g.instances.value| != capped.value)
  }

  /** Only given instances are removed exactly when the group is not a zero-or-max one, keeps all instances, or has no
      other ones. */
  lemma RemovesOnlyGivenExactlyWhen(s: Setting, g: Group, ids: seq<string>)
    ensures (forall id :: id in ToRemove(s, g, ids) ==> id in ids)
      <==> (g.ZeroOrMax() && !KeepsAll(s, g, |ids|) ==> forall id :: id in g.instances.value ==> id in ids)
  {
    if !g.ZeroOrMax() {
      RemovalIsBounded(s, g, ids);
    }
  }

  /** The instances of a group that are missing for too long. */
  ghost function LongMissingIn(s: Setting, h: seq<Observation>, g: GroupId): set<string> {
    set id | id in s.groupOf && LongMissing(s, h, id, g)
  }

  /** The old instances listed are those missing for too long, each once. */
  lemma OldInIsLongMissing(s: Setting, h: seq<Observation>, ids: seq<string>, g: GroupId)
    requires multiset(ids) == multiset(Replay(Absences(h)).Keys)
    ensures |OldIn(s, Replay(Absences(h)), ids, g)| == |LongMissingIn(s, h, g)|
    ensures forall id :: id in OldIn(s, Replay(Absences(h)), ids, g) <==> LongMissing(s, h, id, g)
  {
    var m := Replay(Absences(h));
    var long, missing := OldIn(s, m, ids, g), LongMissingIn(s, h, g);
    forall id ensures id in long <==> LongMissing(s, h, id, g)
      ensures multiset(long)[id] == multiset(missing)[id]
    {
      assert id in ids <==> id in multiset(ids);
      assert id in long <==> id in multiset(long);
      OldInContents(s, m, ids, g, id);
      OldExactlyWhen(s, h, id, g);
    }
    CountOfSet(long, missing);
  }

  /** Only instances missing for too long are removed of this group, in terms of what was observed and what the
      provider says. */
  ghost predicate SparesYoung(s: Setting, h: seq<Observation>, g: GroupId)
    requires g in s.groups
  {
    s.groups[g].ZeroOrMax() && !KeepsAll(s, s.groups[g], |LongMissingIn(s, h, g)|) ==>
      forall id :: id in s.groups[g].instances.value ==> LongMissing(s, h, id, g)
  }

  /** Over any run: what is asked of a group is long missing exactly when the group spares its young instances. */
  lemma TakesOnlyOldExactlyWhen(s: Setting, h: seq<Observation>, ids: seq<string>, g: GroupId)
    requires g in s.groups && multiset(ids) == multiset(Replay(Absences(h)).Keys)
    ensures (forall id :: id in RemovalOf(s, Replay(Absences(h)), ids, g) ==> LongMissing(s, h, id, g)) <==>
        SparesYoung(s, h, g)
  {
    OldInIsLongMissing(s, h, ids, g);
    RemovesOnlyGivenExactlyWhen(s, s.groups[g], OldIn(s, Replay(Absences(h)), ids, g));
  }

  // ----- one old instance and a young one -----

  /** An observation of a group without nodes and with the given instances, which are expected to register. */
  function Listing(now: int, ids: seq<string>): Observation {
    Observation(now, [], ["pool"], {}, map["pool" := 2],
                map["pool" := seq(|ids|, i requires 0 <= i < |ids| => Instance(ids[i], None))], map[], map[],
                    map["pool" := 10])
  }

  lemma ListingMissing(now: int, ids: seq<string>, id: string)
    ensures id in Missing(Listing(now, ids)) <==> id in ids
  {
    var o := Listing(now, ids);
    if id in ids {
      var k :| 0 <= k < |ids| && ids[k] == id;
      assert Awaited(o, o.instances["pool"][k]) && o.instances["pool"][k].id == id;
    }
  }

  /** Instance "a" is listed at time 0, and "b" beside it at time 100; a zero-or-max group scales all or nothing. */
  function YoungSetting(): Setting {
    Setting(map["pool" := Group(Some(2), 0, Options(true, false), Some(["a", "b"]), DeleteOk, DeleteOk)],
            map["a" := "pool", "b" := "pool"], map["pool" := 10], 101, true)
  }

  function YoungHistory(): seq<Observation> {
    [Listing(0, ["a"]), Listing(100, ["a", "b"])]
  }

  lemma YoungFacts()
    ensures var s, h := YoungSetting(), YoungHistory();
      LongMissing(s, h, "a", "pool") && MissingSince(h, "b", 1) && !LongMissing(s, h, "b", "pool")
  {
    var s, h := YoungSetting(), YoungHistory();
    ListingMissing(0, ["a"], "a");
    ListingMissing(0, ["a"], "b");
    ListingMissing(100, ["a", "b"], "a");
    ListingMissing(100, ["a", "b"], "b");
    assert MissingSince(h, "a", 0) && MissingSince(h, "b", 1);
    forall start: nat | MissingSince(h, "b", start) ensures start == 1 {
      MissingStretchesAgree(h, "b", start, 1);
    }
  }

  /** Removing the old instance of a zero-or-max group takes an instance that was missing for one second. */
  lemma OldInstanceTakesYoungOne()
    ensures var s, h := YoungSetting(), YoungHistory(); var m := Replay(Absences(h));
      && OldIn(s, m, ["a", "b"], "pool") == ["a"] && RemovalOf(s, m, ["a", "b"], "pool") == ["a", "b"]
      && LongMissing(s, h, "a", "pool") && !LongMissing(s, h, "b", "pool")
  {
    var s, h := YoungSetting(), YoungHistory();
    YoungFacts();
    OldExactlyWhen(s, h, "a", "pool");
    OldExactlyWhen(s, h, "b", "pool");
    FirstIsOld(s, Replay(Absences(h)), "a", "b", "pool");
  }

  lemma FirstIsOld(s: Setting, unregistered: map<string, Since<Absence>>, a: string, b: string, g: GroupId)
    requires s.Old(unregistered, a) && s.groupOf[a] == g && !(s.Old(unregistered, b) && s.groupOf[b] == g)
    ensures OldIn(s, unregistered, [a, b], g) == [a]
  {
    assert [a][..0] == [] && OldIn(s, unregistered, [a], g) == [a];
    assert [a, b][..1] == [a] && [a, b][|[a, b]|-1] == b;
  }

  /** A removal that respects what was observed and the limits of its group. */
  ghost predicate Justified(s: Setting, h: seq<Observation>, r: Removal) {
    && r.group in s.groups && r.ids != []
    && (exists id :: LongMissing(s, h, id, r.group))
    && var g := s.groups[r.group];
       if g.ZeroOrMax() then
         && Some(r.ids) == g.instances
         && (g.options.allowNonAtomic ==> CappedCount(s, g, |LongMissingIn(s, h, r.group)|) == Some(|r.ids|))
       else
         && (forall id :: id in r.ids ==> LongMissing(s, h, id, r.group))
         && (!s.force ==> g.targetSize.Some? && |r.ids| <= g.targetSize.value - g.minSize)
         && (s.force || |r.ids| < g.targetSize.value - g.minSize ==> AllLongMissing(s, h, r))
  }

  /** The removal leaves out no instance that is missing for too long. */
  ghost predicate AllLongMissing(s: Setting, h: seq<Observation>, r: Removal) {
    forall id :: LongMissing(s, h, id, r.group) ==> id in r.ids
  }

  lemma RemovalIsJustified(s: Setting, h: seq<Observation>, ids: seq<string>, g: GroupId)
    requires g in s.groups && OldIn(s, Replay(Absences(h)), ids, g) != []
    requires RemovalOf(s, Replay(Absences(h)), ids, g) != []
    requires multiset(ids) == multiset(Replay(Absences(h)).Keys)
    ensures Justified(s, h, Removal(g, RemovalOf(s, Replay(Absences(h)), ids, g)))
  {
    OldInIsLongMissing(s, h, ids, g);
    RemovingIsJustified(s, h, g, OldIn(s, Replay(Absences(h)), ids, g));
  }

  lemma RemovingIsJustified(s: Setting, h: seq<Observation>, g: GroupId, long: seq<string>)
    requires g in s.groups && long != [] && |long| == |LongMissingIn(s, h, g)|
    requires forall id :: id in long <==> LongMissing(s, h, id, g)
    requires ToRemove(s, s.groups[g], long) != []
    ensures Justified(s, h, Removal(g, ToRemove(s, s.groups[g], long)))
  {
    RemovalIsBounded(s, s.groups[g], long);
    assert long[0] in long;
  }

  /** The instances on record, in any order. */
  method GetUnregisteredNodes(unregistered: map<string, Since<Absence>>) returns (ids: seq<string>)
    ensures multiset(ids) == multiset(unregistered.Keys)
    ensures forall id :: id in ids <==> id in unregistered
  {
    ids := [];
    var todo := unregistered.Keys;
    while todo != {}
      invariant todo <= unregistered.Keys
      invariant multiset(ids) == multiset(unregistered.Keys - todo)
      decreases todo
    {
      var id :| id in todo;
      assert unregistered.Keys - (todo - {id}) == (unregistered.Keys - todo) + {id};
      ids := ids + [id];
      todo := todo - {id};
    }
    assert unregistered.Keys - {} == unregistered.Keys;
    forall id ensures id in ids <==> id in unregistered {
      assert id in ids <==> id in multiset(ids);
    }
  }

  datatype Outcome = AllDone | ProvisionUnknown | RemovalFailed(group: GroupId)

  ghost predicate Removed(s: Setting, unregistered: map<string, Since<Absence>>, ids: seq<string>,
      order: seq<GroupId>) {
    && (forall i, j :: 0 <= i < j < |order| ==> order[i] != order[j])
    && (forall g :: g in order ==> g in s.groups && OldIn(s, unregistered, ids, g) != [])
    && (forall g :: g in order && RemovalOf(s, unregistered, ids, g) != [] ==> Answer(s, s.groups[g]) == DeleteOk)
  }

  lemma RemovedSnoc(s: Setting, unregistered: map<string, Since<Absence>>, ids: seq<string>, order: seq<GroupId>,
      g: GroupId)
    requires Removed(s, unregistered, ids, order) && g !in order && g in s.groups
        && OldIn(s, unregistered, ids, g) != []
    requires RemovalOf(s, unregistered, ids, g) != [] ==> Answer(s, s.groups[g]) == DeleteOk
    ensures Removed(s, unregistered, ids, order + [g])
    ensures var r := RemovalOf(s, unregistered, ids, g);
      Removals(s, unregistered, ids, order + [g]) == Removals(s, unregistered, ids, order) + if r == [] then []
          else [Removal(g, r)]
  {
    assert (order + [g])[..|order|] == order;
  }

  /** The loop over the groups with old instances, in any order; `order` are the groups done without failure. */
  method RemoveByGroup(s: Setting, ghost unregistered: map<string, Since<Absence>>, ghost ids: seq<string>,
      byGroup: map<GroupId, seq<string>>)
    returns (removedAny: bool, outcome: Outcome, asked: seq<Removal>, order: seq<GroupId>)
    requires forall g :: g in byGroup ==>
        g in s.groups && byGroup[g] != [] && byGroup[g] == OldIn(s, unregistered, ids, g)
    ensures Removed(s, unregistered, ids, order) && (forall g :: g in order ==> g in byGroup)
    ensures removedAny <==> Removals(s, unregistered, ids, order) != []
    ensures match outcome
      case ProvisionUnknown => false
      case AllDone => (forall g :: g in byGroup ==> g in order) && asked == Removals(s, unregistered, ids, order)
      case RemovalFailed(g) =>
        && g in byGroup && g !in order && Answer(s, s.groups[g]) != DeleteOk
        && asked == Removals(s, unregistered, ids, order) + [Removal(g, RemovalOf(s, unregistered, ids, g))]
            && RemovalOf(s, unregistered, ids, g) != []
  {
    removedAny, outcome, asked, order := false, AllDone, [], [];
    var todo := byGroup.Keys;
    while todo != {}
      invariant todo <= byGroup.Keys
      invariant forall g :: g in order <==> g in byGroup && g !in todo
      invariant Removed(s, unregistered, ids, order)
      invariant asked == Removals(s, unregistered, ids, order)
      invariant removedAny <==> asked != []
      decreases todo
    {
      var g :| g in todo;
      todo := todo - {g};
      var group := s.groups[g];
      var removal := ToRemove(s, group, byGroup[g]);
      assert removal == RemovalOf(s, unregistered, ids, g);
      if removal != [] {
        asked := asked + [Removal(g, removal)];
        if Answer(s, group) != DeleteOk {
          outcome := RemovalFailed(g);
          return;
        }
        removedAny := true;
      }
      RemovedSnoc(s, unregistered, ids, order, g);
      order := order + [g];
    }
  }

  /** What holds of the removals when none failed. */
  ghost predicate Concluded(s: Setting, h: seq<Observation>, asked: seq<Removal>) {
    && (forall id, g :: MustGo(s, h, id, g) ==> RemovalAsked(asked, id, g))
    && (AllOld(s, h, asked) <==> AllSpareYoung(s, h))
    && (forall g :: MustLose(s, h, g) ==> AskedAtAll(asked, g))
    && (forall r :: r in asked ==> r.group in s.groups && Deletes(s, s.groups[r.group]))
  }

  lemma DoneConcludes(s: Setting, h: seq<Observation>, ids: seq<string>, order: seq<GroupId>)
    requires multiset(ids) == multiset(Replay(Absences(h)).Keys) && Removed(s, Replay(Absences(h)), ids, order)
    requires forall k :: k in ids <==> k in Replay(Absences(h))
    requires forall k :: k in order ==> k in s.groups
    requires forall k :: k in order <==> OldIn(s, Replay(Absences(h)), ids, k) != []
    ensures Concluded(s, h, Removals(s, Replay(Absences(h)), ids, order))
  {
    var m := Replay(Absences(h));
    var asked := Removals(s, m, ids, order);
    forall id, g | MustGo(s, h, id, g) ensures RemovalAsked(asked, id, g) {
      AskedWhenOld(s, h, ids, order, id, g);
    }
    AllOldExactlyWhen(s, h, ids, order);
    forall g | MustLose(s, h, g) ensures AskedAtAll(asked, g) {
      AskedWhenDue(s, h, ids, order, g);
    }
    forall r | r in asked ensures r.group in s.groups && Deletes(s, s.groups[r.group]) {
      RemovalsContents(s, m, ids, order, r);
      assert r.group in order;
    }
  }

  /** What holds of the removals when one failed: it is the last one asked for. */
  ghost predicate FailedAt(s: Setting, asked: seq<Removal>, removedAny: bool, g: GroupId) {
    && g in s.groups && !Deletes(s, s.groups[g])
    && asked != [] && asked[|asked|-1].group == g && (removedAny <==> |asked| > 1)
  }

  /** The groups with old instances are groups of the provider, and their lists are those instances. */
  lemma GroupsOfOld(s: Setting, m: map<string, Since<Absence>>, ids: seq<string>, byGroup: map<GroupId, seq<string>>)
    requires Grouped(s, m, ids, byGroup) && s.Consistent()
    ensures forall g :: g in byGroup <==> OldIn(s, m, ids, g) != []
    ensures forall g :: g in byGroup ==>
      g in s.groups && byGroup[g] != [] && byGroup[g] == OldIn(s, m, ids, g)
  {
    forall g ensures g in byGroup <==> OldIn(s, m, ids, g) != [] {
      assert Listed(byGroup, g) == OldIn(s, m, ids, g);
    }
    forall g | g in byGroup ensures g in s.groups && byGroup[g] == OldIn(s, m, ids, g) {
      assert Listed(byGroup, g) == OldIn(s, m, ids, g);
      var id := OldIn(s, m, ids, g)[0];
      assert id in OldIn(s, m, ids, g);
      OldInContents(s, m, ids, g, id);
    }
  }

  /** Old instances are removed group by group; every removal asked for is justified by the history. */
  method RemoveOldUnregisteredNodes(csr: ClusterStateRegistry, s: Setting)
    returns (removedAny: bool, outcome: Outcome, asked: seq<Removal>)
    requires csr.Valid() && s.Consistent()
    ensures forall r :: r in asked ==> Justified(s, csr.history, r)
    ensures outcome == ProvisionUnknown <==>
        exists id :: id in csr.unregistered && id in s.groupOf && s.groupOf[id] !in s.provision
    ensures outcome == ProvisionUnknown ==> asked == [] && !removedAny
    ensures outcome == AllDone ==> (removedAny <==> asked != [])
    ensures outcome == AllDone ==> Concluded(s, csr.history, asked)
    ensures outcome.RemovalFailed? ==> FailedAt(s, asked, removedAny, outcome.group)
  {
    ghost var m := Replay(Absences(csr.history));
    OnRecordMeans(csr.unregistered, csr.incorrectSizes, csr.history);
    removedAny, outcome, asked := false, ProvisionUnknown, [];
    var ids := GetUnregisteredNodes(csr.unregistered);
    var byGroup := OldUnregisteredNodes(s, csr.unregistered, ids);
    if byGroup.None? {
      return;
    }
    assert !Unprovisioned(s, ids);
    forall id | id in ids ensures !(id in s.groupOf && s.groupOf[id] !in s.provision) {
    }
    GroupsOfOld(s, m, ids, byGroup.value);
    var order;
    removedAny, outcome, asked, order := RemoveByGroup(s, m, ids, byGroup.value);
    forall r | r in asked ensures Justified(s, csr.history, r) {
      RemovalsContents(s, m, ids, order, r);
      RemovalIsJustified(s, csr.history, ids, r.group);
    }
    if outcome == AllDone {
      DoneConcludes(s, csr.history, ids, order);
    }
  }

  /** The provider carries out the deletion: by force if that is wanted and implemented, and in the normal way
      otherwise. */
  ghost predicate Deletes(s: Setting, g: Group) {
    || (!s.force && g.delete == DeleteOk)
    || (s.force && g.forceDelete == DeleteOk)
    || (s.force && g.forceDelete == NotImplemented && g.delete == DeleteOk)
  }

  /** A group with long missing instances from which something must be removed if no removal fails. */
  ghost predicate MustLose(s: Setting, h: seq<Observation>, g: GroupId) {
    && g in s.groups && LongMissingIn(s, h, g) != {} && !s.groups[g].options.OptionsFailed?
    && (s.force || (s.groups[g].targetSize.Some? && s.groups[g].targetSize.value > s.groups[g].minSize))
    && (s.groups[g].ZeroOrMax() ==>
          !KeepsAll(s, s.groups[g], |LongMissingIn(s, h, g)|) && s.groups[g].instances.value != [])
  }

  ghost predicate AskedAtAll(asked: seq<Removal>, g: GroupId) {
    exists r :: r in asked && r.group == g
  }

  lemma AskedWhenDue(s: Setting, h: seq<Observation>, ids: seq<string>, order: seq<GroupId>, g: GroupId)
    requires MustLose(s, h, g) && multiset(ids) == multiset(Replay(Absences(h)).Keys)
    requires forall k :: k in order ==> k in s.groups
    requires forall k :: k in order <==> OldIn(s, Replay(Absences(h)), ids, k) != []
    ensures AskedAtAll(Removals(s, Replay(Absences(h)), ids, order), g)
  {
    var m := Replay(Absences(h));
    OldInIsLongMissing(s, h, ids, g);
    RemovalIsBounded(s, s.groups[g], OldIn(s, m, ids, g));
    var r := Removal(g, RemovalOf(s, m, ids, g));
    RemovalsContents(s, m, ids, order, r);
    assert r in Removals(s, m, ids, order);
  }

  /** Every instance asked to be removed is missing for too long. */
  ghost predicate AllOld(s: Setting, h: seq<Observation>, asked: seq<Removal>) {
    forall r, id :: r in asked && id in r.ids ==> LongMissing(s, h, id, r.group)
  }

  /** Every group with an instance missing for too long spares its young ones. */
  ghost predicate AllSpareYoung(s: Setting, h: seq<Observation>) {
    forall g :: g in s.groups && LongMissingIn(s, h, g) != {} ==> SparesYoung(s, h, g)
  }

  lemma AllOldExactlyWhen(s: Setting, h: seq<Observation>, ids: seq<string>, order: seq<GroupId>)
    requires multiset(ids) == multiset(Replay(Absences(h)).Keys)
    requires forall g :: g in order ==> g in s.groups
    requires forall g :: g in order <==> OldIn(s, Replay(Absences(h)), ids, g) != []
    ensures AllOld(s, h, Removals(s, Replay(Absences(h)), ids, order)) <==> AllSpareYoung(s, h)
  {
    var m := Replay(Absences(h));
    var asked := Removals(s, m, ids, order);
    if AllOld(s, h, asked) {
      forall g | g in s.groups && LongMissingIn(s, h, g) != {} ensures SparesYoung(s, h, g) {
        OldInIsLongMissing(s, h, ids, g);
        TakesOnlyOldExactlyWhen(s, h, ids, g);
        var r := Removal(g, RemovalOf(s, m, ids, g));
        RemovalsContents(s, m, ids, order, r);
        assert r.ids != [] ==> r in asked;
      }
    }
    if AllSpareYoung(s, h) {
      forall r, id | r in asked && id in r.ids ensures LongMissing(s, h, id, r.group) {
        RemovalsContents(s, m, ids, order, r);
        OldInIsLongMissing(s, h, ids, r.group);
        TakesOnlyOldExactlyWhen(s, h, ids, r.group);
      }
    }
  }

  /** An instance that must be removed if no removal fails: long missing, with deletion forced and no zero-or-max
      rule. */
  ghost predicate MustGo(s: Setting, h: seq<Observation>, id: string, g: GroupId) {
    LongMissing(s, h, id, g) && s.force && g in s.groups && !s.groups[g].options.OptionsFailed?
        && !s.groups[g].ZeroOrMax()
  }

  ghost predicate RemovalAsked(asked: seq<Removal>, id: string, g: GroupId) {
    exists r :: r in asked && r.group == g && id in r.ids
  }

  lemma AskedWhenOld(s: Setting, h: seq<Observation>, ids: seq<string>, order: seq<GroupId>, id: string, g: GroupId)
    requires MustGo(s, h, id, g)
    requires forall k :: k in order ==> k in s.groups
    requires forall k :: k in order <==> OldIn(s, Replay(Absences(h)), ids, k) != []
    requires forall k :: k in ids <==> k in Replay(Absences(h))
    ensures RemovalAsked(Removals(s, Replay(Absences(h)), ids, order), id, g)
  {
    var m := Replay(Absences(h));
    OldExactlyWhen(s, h, id, g);
    OldInContents(s, m, ids, g, id);
    RemovalIsBounded(s, s.groups[g], OldIn(s, m, ids, g));
    var r := Removal(g, RemovalOf(s, m, ids, g));
    RemovalsContents(s, m, ids, order, r);
    assert r in Removals(s, m, ids, order);
  }
}
