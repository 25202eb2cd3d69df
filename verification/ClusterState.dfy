/**
  The cluster state registry over whole runs: what each timed observation does to its records, and
  what the records mean in the history of all observations.
 */
module ClusterState {
  import opened Wrappers
  import opened Stretches
  import opened ScaleRequests
  import R = Readiness

  /** Everything one update reads from Kubernetes and the cloud provider. */
  datatype Observation = Observation(
    now: int, nodes: seq<R.Node>, groups: seq<GroupId>, async: set<GroupId>, targets: map<GroupId, int>,
    instances: map<GroupId, seq<Instance>>, groupOf: map<string, GroupId>,
    startup: map<GroupId, int>, provision: map<GroupId, int>)
  {
    /** Group identifiers are unique. */
    ghost predicate WellFormed() {
      R.Distinct(groups)
    }

    function Listing(g: GroupId): seq<Instance> {
      if g in instances then instances[g] else []
    }

    function Provision(g: GroupId): Option<int> {
      if g in provision then Some(provision[g]) else None
    }
  }

  // ----- what an observation shows -----

  /** The groups that are not still being created, in the provider's order. */
  function RunningOf(groups: seq<GroupId>, async: set<GroupId>): seq<GroupId> {
    if groups == [] then []
    else RunningOf(groups[..|groups|-1], async) + if groups[|groups|-1] in async then [] else [groups[|groups|-1]]
  }

  lemma {:induction false} RunningGroups(groups: seq<GroupId>, async: set<GroupId>)
    ensures forall g :: g in RunningOf(groups, async) <==> g in groups && g !in async
    ensures R.Distinct(groups) ==> R.Distinct(RunningOf(groups, async))
  {
    if groups != [] {
      var init, g := groups[..|groups|-1], groups[|groups|-1];
      assert groups == init + [g];
      RunningGroups(init, async);
    }
  }

  predicate ExpectedToRegister(i: Instance) {
    i.status.None? || (i.status.value.state != Deleting && i.status.value.error.None?)
  }

  function Registered(nodes: seq<R.Node>): set<string> {
    set i | 0 <= i < |nodes| :: nodes[i].providerId
  }

  /** The listed instances that are expected to register and have not. */
  function Missing(o: Observation): set<string> {
    set g, k | g in o.instances && 0 <= k < |o.instances[g]| && Awaited(o, o.instances[g][k]) :: o.instances[g][k].id
  }

  predicate Awaited(o: Observation, i: Instance) {
    i.id !in Registered(o.nodes) && ExpectedToRegister(i)
  }

  /** Seeing an instance as missing carries no further value. */
  datatype Absence = Absent

  function AbsenceSight(o: Observation): Sight<string, Absence> {
    Sight(o.now, map id | id in Missing(o) :: Absent)
  }

  function GoneNames(nodes: seq<R.Node>): set<string> {
    set i | 0 <= i < |nodes| && nodes[i].gone :: nodes[i].name
  }

  function CensusOf(o: Observation): R.Census {
    R.Census(o.nodes, GoneNames(o.nodes), o.startup, o.now)
  }

  /** The number of nodes of a group. */
  ghost function RegisteredIn(nodes: seq<R.Node>, g: GroupId): nat {
    if nodes == [] then 0
    else RegisteredIn(nodes[..|nodes|-1], g) + if nodes[|nodes|-1].group == Some(g) then 1 else 0
  }

  /** The missing instances of a group whose provision time is known. */
  ghost function MissingIn(o: Observation, g: GroupId): set<string> {
    set id | id in Missing(o) && id in o.groupOf && o.groupOf[id] == g && g in o.provision
  }

  datatype Sizes = Sizes(current: int, expected: int)

  /** A group's size is wrong when it has more nodes than its target, or fewer even if all missing instances
      registered. */
  ghost predicate Mismatched(o: Observation, g: GroupId) {
    && g in o.groups && g !in o.async
    && (RegisteredIn(o.nodes, g) > 0 || MissingIn(o, g) != {})
    && (RegisteredIn(o.nodes, g) > Lookup(o.targets, g)
        || RegisteredIn(o.nodes, g) < Lookup(o.targets, g) - |MissingIn(o, g)|)
  }

  ghost function MismatchedGroups(o: Observation): set<GroupId> {
    set i | 0 <= i < |o.groups| && Mismatched(o, o.groups[i]) :: o.groups[i]
  }

  ghost function MismatchSight(o: Observation): Sight<GroupId, Sizes> {
    Sight(o.now, map g | g in MismatchedGroups(o) :: Sizes(RegisteredIn(o.nodes, g), Lookup(o.targets, g)))
  }

  ghost function Absences(h: seq<Observation>): seq<Sight<string, Absence>> {
    seq(|h|, i requires 0 <= i < |h| => AbsenceSight(h[i]))
  }

  ghost function Mismatches(h: seq<Observation>): seq<Sight<GroupId, Sizes>> {
    seq(|h|, i requires 0 <= i < |h| => MismatchSight(h[i]))
  }

  /** The listing of a group at the last observation of a run. */
  function LastListing(h: seq<Observation>, g: GroupId): seq<Instance> {
    if h == [] then [] else h[|h|-1].Listing(g)
  }

  // ----- what the records mean -----

  ghost predicate SameMismatchSince(h: seq<Observation>, g: GroupId, s: Sizes, start: nat) {
    && start < |h|
    && (forall i :: start <= i < |h| ==>
        Mismatched(h[i], g) && RegisteredIn(h[i].nodes, g) == s.current && Lookup(h[i].targets, g) == s.expected)
    && (start > 0 ==>
        !(Mismatched(h[start-1], g) && RegisteredIn(h[start-1].nodes, g) == s.current
        && Lookup(h[start-1].targets, g) == s.expected))
  }

  lemma SeenMismatch(o: Observation, g: GroupId, s: Sizes)
    ensures SeenAs(MismatchSight(o), g, s) <==>
      Mismatched(o, g) && RegisteredIn(o.nodes, g) == s.current && Lookup(o.targets, g) == s.expected
  {
  }

  /**
    Over any run, a recorded mismatch holds the sizes of the last observation and the time of the first
    of the unbroken sequence of observations that all showed the same registered count and target.
   */
  lemma FirstObservedMeans(h: seq<Observation>, g: GroupId)
    ensures g in Replay(Mismatches(h)) <==> h != [] && Mismatched(h[|h|-1], g)
    ensures g in Replay(Mismatches(h)) ==>
      exists start: nat ::
          SameMismatchSince(h, g, Replay(Mismatches(h))[g].value, start)
          && Replay(Mismatches(h))[g].since == h[start].now
  {
    var m := Mismatches(h);
    if h != [] {
      RecordMeansStretch(m, g);
    }
    if g in Replay(m) {
      var s := Replay(m)[g].value;
      var start := StretchStart(m, g, s);
      forall i | 0 <= i < |h| ensures SeenAs(m[i], g, s) <==>
        Mismatched(h[i], g) && RegisteredIn(h[i].nodes, g) == s.current && Lookup(h[i].targets, g) == s.expected
      {
        SeenMismatch(h[i], g, s);
      }
      assert SameMismatchSince(h, g, s, start);
    }
  }

  ghost predicate MissingSince(h: seq<Observation>, id: string, start: nat) {
    && start < |h|
    && (forall i :: start <= i < |h| ==> id in Missing(h[i]))
    && (start > 0 ==> id !in Missing(h[start-1]))
  }

  /** Over any run, an instance is recorded as unregistered exactly when it is missing, since the start of the
      unbroken stretch. */
  lemma UnregisteredSinceMeans(h: seq<Observation>, id: string)
    ensures id in Replay(Absences(h)) <==> h != [] && id in Missing(h[|h|-1])
    ensures id in Replay(Absences(h)) ==>
      exists start: nat :: MissingSince(h, id, start) && Replay(Absences(h))[id].since == h[start].now
  {
    var m := Absences(h);
    if h != [] {
      RecordMeansStretch(m, id);
    }
    if id in Replay(m) {
      var start := StretchStart(m, id, Absent);
      forall i | 0 <= i < |h| ensures SeenAs(m[i], id, Absent) <==> id in Missing(h[i]) {
      }
      assert MissingSince(h, id, start);
    }
  }

  function At<V>(m: map<string, Since<V>>, k: string): Option<Since<V>> {
    if k in m then Some(m[k]) else None
  }

  /** What is recorded under a name, of an instance or of a group, is what the history calls for. */
  ghost predicate OnRecordAt(unregistered: map<string, Since<Absence>>, incorrect: map<GroupId, Since<Sizes>>,
      h: seq<Observation>, name: string) {
    && At(unregistered, name) == At(Replay(Absences(h)), name)
    && At(incorrect, name) == At(Replay(Mismatches(h)), name)
  }

  ghost predicate OnRecord(unregistered: map<string, Since<Absence>>, incorrect: map<GroupId, Since<Sizes>>,
      h: seq<Observation>) {
    forall name :: OnRecordAt(unregistered, incorrect, h, name)
  }

  lemma SameRecords<V>(a: map<string, Since<V>>, b: map<string, Since<V>>)
    requires forall k :: At(a, k) == At(b, k)
    ensures a == b
  {
    forall k ensures k in a <==> k in b {
      assert At(a, k) == At(b, k);
    }
    forall k | k in a ensures a[k] == b[k] {
      assert At(a, k) == At(b, k);
    }
  }

  lemma OnRecordMeans(unregistered: map<string, Since<Absence>>, incorrect: map<GroupId, Since<Sizes>>,
      h: seq<Observation>)
    requires OnRecord(unregistered, incorrect, h)
    ensures unregistered == Replay(Absences(h)) && incorrect == Replay(Mismatches(h))
  {
    forall k ensures At(unregistered, k) == At(Replay(Absences(h)), k)
        && At(incorrect, k) == At(Replay(Mismatches(h)), k) {
      assert OnRecordAt(unregistered, incorrect, h, k);
    }
    SameRecords(unregistered, Replay(Absences(h)));
    SameRecords(incorrect, Replay(Mismatches(h)));
  }

  /** The record of missing instances after one more observation. */
  ghost predicate AdvancedAt(before: map<string, Since<Absence>>, after: map<string, Since<Absence>>, o: Observation,
      id: string) {
    At(after, id) == At(Advance(before, AbsenceSight(o)), id)
  }

  ghost predicate Advanced(before: map<string, Since<Absence>>, after: map<string, Since<Absence>>, o: Observation) {
    forall id :: AdvancedAt(before, after, o, id)
  }

  lemma AdvancedMeans(before: map<string, Since<Absence>>, after: map<string, Since<Absence>>, o: Observation)
    requires Advanced(before, after, o)
    ensures after == Advance(before, AbsenceSight(o)) && after.Keys == Missing(o)
  {
    forall k ensures At(after, k) == At(Advance(before, AbsenceSight(o)), k) {
      assert AdvancedAt(before, after, o, k);
    }
    SameRecords(after, Advance(before, AbsenceSight(o)));
  }

  /** An update keeps both records in step with the history. */
  lemma RecordsGrow(unregistered: map<string, Since<Absence>>, incorrect: map<GroupId, Since<Sizes>>,
      h: seq<Observation>, o: Observation)
    requires OnRecord(unregistered, incorrect, h)
    ensures OnRecord(Advance(unregistered, AbsenceSight(o)), Advance(incorrect, MismatchSight(o)), h + [o])
  {
    OnRecordMeans(unregistered, incorrect, h);
    assert Absences(h + [o])[..|h|] == Absences(h);
    assert Mismatches(h + [o])[..|h|] == Mismatches(h);
  }

  // ----- steps of an update -----

  method GetRunningNodeGroups(groups: seq<GroupId>, async: set<GroupId>) returns (r: seq<GroupId>)
    ensures r == RunningOf(groups, async)
  {
    r := [];
    for i := 0 to |groups|
      invariant r == RunningOf(groups[..i], async)
    {
      assert groups[..i+1][..i] == groups[..i];
      if groups[i] !in async {
        r := r + [groups[i]];
      }
    }
    assert groups[..|groups|] == groups;
  }

  /** Instances of every listing, in any order of the groups. */
  /** A listed instance that no node of the cluster stands for, that is not being deleted and has no error. */
  ghost predicate ListedOnly(o: Observation, g: GroupId, k: nat, id: string) {
    && g in o.instances && k < |o.instances[g]| && o.instances[g][k].id == id
    && (forall i :: 0 <= i < |o.nodes| ==> o.nodes[i].providerId != id)
    && (o.instances[g][k].status.Some? ==>
          o.instances[g][k].status.value.state != Deleting && o.instances[g][k].status.value.error.None?)
  }

  lemma MissingMeans(o: Observation, id: string)
    ensures id in Missing(o) <==> exists g, k: nat :: ListedOnly(o, g, k, id)
  {
    if exists g, k: nat :: ListedOnly(o, g, k, id) {
      var g, k: nat :| ListedOnly(o, g, k, id);
      assert Awaited(o, o.instances[g][k]);
    }
    if id in Missing(o) {
      var g, k: nat :| g in o.instances && k < |o.instances[g]| && Awaited(o, o.instances[g][k])
          && o.instances[g][k].id == id;
      assert ListedOnly(o, g, k, id);
    }
  }

  method GetNotRegisteredNodes(o: Observation) returns (ids: seq<string>)
    ensures forall id :: id in ids <==> id in Missing(o)
  {
    var registered: set<string> := {};
    for i := 0 to |o.nodes|
      invariant registered == set j | 0 <= j < i :: o.nodes[j].providerId
    {
      registered := registered + {o.nodes[i].providerId};
    }
    assert registered == Registered(o.nodes);
    ids := [];
    var todo := o.instances.Keys;
    while todo != {}
      invariant todo <= o.instances.Keys
      invariant forall id :: id in ids <==> MissingOutside(o, todo, id)
      decreases todo
    {
      var g :| g in todo;
      ghost var whole := todo;
      todo := todo - {g};
      ghost var before := ids;
      var listing := o.instances[g];
      for k := 0 to |listing|
        invariant forall id :: id in ids <==> id in before || MissingFrom(o, g, k, id)
      {
        if listing[k].id !in registered && ExpectedToRegister(listing[k]) {
          ids := ids + [listing[k].id];
        }
      }
      forall id ensures MissingOutside(o, todo, id) <==>
          MissingOutside(o, whole, id) || MissingFrom(o, g, |listing|, id) {
        MissingSplit(o, whole, g, id);
      }
    }
  }

  ghost predicate MissingFrom(o: Observation, g: GroupId, k: nat, id: string)
    requires g in o.instances && k <= |o.instances[g]|
  {
    exists j :: 0 <= j < k && Awaited(o, o.instances[g][j]) && o.instances[g][j].id == id
  }

  ghost predicate MissingOutside(o: Observation, todo: set<GroupId>, id: string) {
    exists g :: g in o.instances && g !in todo && MissingFrom(o, g, |o.instances[g]|, id)
  }

  lemma MissingSplit(o: Observation, todo: set<GroupId>, g: GroupId, id: string)
    requires g in o.instances && g in todo
    ensures MissingOutside(o, todo - {g}, id) <==>
        MissingOutside(o, todo, id) || MissingFrom(o, g, |o.instances[g]|, id)
  {
    if MissingOutside(o, todo, id) {
      var k :| k in o.instances && k !in todo && MissingFrom(o, k, |o.instances[k]|, id);
      assert k !in todo - {g};
    }
  }

  /** The numbers of an update that depend on the readiness of a group. */
  function Settled(perGroup: map<GroupId, R.Stats>, g: GroupId): nat {
    if g !in perGroup then 0
    else
      var s := perGroup[g];
      |s.Of(R.Ready)| + |s.Of(R.Unready)| + |s.Of(R.Suspended)| + |s.longUnregistered|
  }

  function GetUpcoming(ranges: map<GroupId, Range>, perGroup: map<GroupId, R.Stats>, g: GroupId): Option<int> {
    if g !in ranges then None else Some(ranges[g].currentTarget - Settled(perGroup, g))
  }

  /** The nodes still to come in a group: its target, if it is running, less the nodes that are there or given up. */
  function UpcomingAt(o: Observation, perGroup: map<GroupId, R.Stats>, g: GroupId): int {
    (if g in o.groups && g !in o.async then Lookup(o.targets, g) else 0) - Settled(perGroup, g)
  }

  function LongCounts(perGroup: map<GroupId, R.Stats>): map<GroupId, int> {
    map g | g in perGroup :: |perGroup[g].longUnregistered|
  }

  ghost predicate RangesFor(ranges: map<GroupId, Range>, o: Observation, perGroup: map<GroupId, R.Stats>,
      rs: Requests, ds: seq<ScaleDownRequest>) {
    forall g :: RangeFor(ranges, o, perGroup, rs, ds, g)
  }

  /** A group has the range that its target, its long unregistered instances and its open requests call for. */
  ghost predicate RangeFor(ranges: map<GroupId, Range>, o: Observation, perGroup: map<GroupId, R.Stats>, rs: Requests,
      ds: seq<ScaleDownRequest>, g: GroupId) {
    var running := RunningOf(o.groups, o.async);
    (g in ranges <==> HasRange(g, running, rs, ds))
        && RangeAt(ranges, g) == RangeOf(g, running, o.targets, LongCounts(perGroup), rs, ds)
  }

  lemma UpcomingFromRanges(ranges: map<GroupId, Range>, o: Observation, perGroup: map<GroupId, R.Stats>, rs: Requests,
      ds: seq<ScaleDownRequest>, g: GroupId)
    requires RangesFor(ranges, o, perGroup, rs, ds)
    requires g in rs || (g in o.groups && g !in o.async)
    ensures g in ranges && GetUpcoming(ranges, perGroup, g) == Some(UpcomingAt(o, perGroup, g))
  {
    RunningGroups(o.groups, o.async);
    assert RangeFor(ranges, o, perGroup, rs, ds, g);
    assert HasRange(g, RunningOf(o.groups, o.async), rs, ds);
  }

  lemma TargetFromRanges(ranges: map<GroupId, Range>, o: Observation, perGroup: map<GroupId, R.Stats>, rs: Requests,
      ds: seq<ScaleDownRequest>, g: GroupId)
    requires RangesFor(ranges, o, perGroup, rs, ds) && g in o.groups && g !in o.async
    ensures g in ranges && ranges[g].currentTarget == Lookup(o.targets, g)
  {
    UpcomingFromRanges(ranges, o, perGroup, rs, ds, g);
  }

  function RequestAt(rs: Requests, g: GroupId): Option<ScaleUpRequest> {
    if g in rs then Some(rs[g]) else None
  }

  /** A group's open request after `n` new creation errors: saturating subtraction. */
  function ChargedRequest(r: Option<ScaleUpRequest>, n: nat): Option<ScaleUpRequest> {
    if r.None? then None
    else if r.value.increase <= n then None
    else Some(r.value.(increase := r.value.increase - n))
  }

  /**
    A group's open request after an update: requests without upcoming nodes and requests past their
    deadline are gone, and each new creation error of a running group takes one off the rest.
   */
  function RequestAfter(r: Option<ScaleUpRequest>, o: Observation, g: GroupId, upcoming: int,
      n: nat): Option<ScaleUpRequest> {
    if r.None? || !Survives(r.value, g in o.async, upcoming, o.now) then None
    else if g in o.groups && g !in o.async && g in o.provision then ChargedRequest(r, n)
    else r
  }

  /** A request after finished and timed-out ones are removed. */
  function Kept(r: Option<ScaleUpRequest>, o: Observation, g: GroupId, upcoming: int): Option<ScaleUpRequest> {
    if r.Some? && Survives(r.value, g in o.async, upcoming, o.now) then r else None
  }

  /** A timed-out request lowers its group's target by exactly its increase. */
  predicate RevertedBy(r: Option<ScaleUpRequest>, o: Observation, g: GroupId, upcoming: int, delta: int) {
    r.Some? && TimesOut(r.value, g in o.async, upcoming, o.now) && delta == -r.value.increase
  }

  /** The targets asked to be lowered are those of the timed-out requests, each by its increase. */
  ghost predicate Reverted(lowered: seq<Decrease>, rs: Requests, o: Observation, perGroup: map<GroupId, R.Stats>) {
    forall d :: d in lowered <==>
        RevertedBy(RequestAt(rs, d.group), o, d.group, UpcomingAt(o, perGroup, d.group), d.delta)
  }

  /** Finished and timed-out requests are dropped. */
  method PruneRequests(rs: Requests, ghost ds: seq<ScaleDownRequest>, o: Observation, ranges: map<GroupId, Range>,
      perGroup: map<GroupId, R.Stats>)
    returns (kept: Requests, lowered: seq<Decrease>)
    requires AllPositive(rs) && RangesFor(ranges, o, perGroup, rs, ds)
    ensures AllPositive(kept)
    ensures forall g :: RequestAt(kept, g) == Kept(RequestAt(rs, g), o, g, UpcomingAt(o, perGroup, g))
    ensures Reverted(lowered, rs, o, perGroup)
  {
    var upcoming := map g | g in rs :: match GetUpcoming(ranges, perGroup, g) case Some(n) => n case None => 0;
    forall g | g in rs ensures upcoming[g] == UpcomingAt(o, perGroup, g) {
      UpcomingFromRanges(ranges, o, perGroup, rs, ds, g);
    }
    kept, lowered := UpdateScaleUpRequests(rs, o.async, upcoming, o.now);
  }

  /** The instances of a group newly in creating-with-error. */
  ghost function NewErrorsIn(o: Observation, previous: seq<Instance>, g: GroupId): nat {
    NewErrors(o.Listing(g), ErrorIds(previous), None)
  }

  /** A request after the error handling of the given groups. */
  ghost function AfterErrors(r: Option<ScaleUpRequest>, o: Observation, g: GroupId, previous: seq<Instance>,
      handled: seq<GroupId>): Option<ScaleUpRequest> {
    if g in handled && g in o.provision then ChargedRequest(r, NewErrorsIn(o, previous, g)) else r
  }

  /** Every group's request after an update that follows the observations `h`. */
  ghost predicate RequestsAfter(after: Requests, rs: Requests, o: Observation, h: seq<Observation>,
      perGroup: map<GroupId, R.Stats>) {
    forall g :: RequestAfterIn(after, rs, o, h, perGroup, g)
  }

  ghost predicate RequestAfterIn(after: Requests, rs: Requests, o: Observation, h: seq<Observation>,
      perGroup: map<GroupId, R.Stats>, g: GroupId) {
    RequestAt(after, g) == RequestAfter(RequestAt(rs, g), o, g, UpcomingAt(o, perGroup, g),
        NewErrorsIn(o, LastListing(h, g), g))
  }

  /** An open request of a group that is not still being created has upcoming nodes and time left. */
  ghost predicate StillOpen(rs: Requests, o: Observation, perGroup: map<GroupId, R.Stats>, g: GroupId) {
    g in rs && g !in o.async ==> UpcomingAt(o, perGroup, g) > 0 && rs[g].expectedAddTime >= o.now
  }

  /** Pruning followed by error handling. */
  lemma PrunedThenCharged(rs: Requests, kept: Requests, after: Requests, o: Observation, h: seq<Observation>,
      perGroup: map<GroupId, R.Stats>, previous: map<GroupId, seq<Instance>>)
    requires forall g :: RequestAt(kept, g) == Kept(RequestAt(rs, g), o, g, UpcomingAt(o, perGroup, g))
    requires forall g ::
        RequestAt(after, g) == AfterErrors(RequestAt(kept, g), o, g, ListingIn(previous, g),
        RunningOf(o.groups, o.async))
    requires previous == if h == [] then map[] else h[|h|-1].instances
    ensures RequestsAfter(after, rs, o, h, perGroup)
    ensures forall g :: StillOpen(after, o, perGroup, g)
  {
    RunningGroups(o.groups, o.async);
    forall g
      ensures RequestAfterIn(after, rs, o, h, perGroup, g)
      ensures StillOpen(after, o, perGroup, g)
    {
      assert ListingIn(previous, g) == LastListing(h, g);
      assert RequestAt(kept, g) == Kept(RequestAt(rs, g), o, g, UpcomingAt(o, perGroup, g));
      assert RequestAt(after, g) ==
          AfterErrors(RequestAt(kept, g), o, g, LastListing(h, g), RunningOf(o.groups, o.async));
    }
  }

  lemma KeptHasUpcoming(rs: Requests, kept: Requests, o: Observation, perGroup: map<GroupId, R.Stats>, g: GroupId)
    requires forall g :: RequestAt(kept, g) == Kept(RequestAt(rs, g), o, g, UpcomingAt(o, perGroup, g))
    requires g in kept && g !in o.async
    ensures UpcomingAt(o, perGroup, g) > 0
  {
    assert RequestAt(kept, g) == Kept(RequestAt(rs, g), o, g, UpcomingAt(o, perGroup, g));
  }

  /** Error handling of all running groups, one after the other. */
  method ChargeErrors(rs: Requests, o: Observation, previous: map<GroupId, seq<Instance>>, running: seq<GroupId>,
      ranges: map<GroupId, Range>, perGroup: map<GroupId, R.Stats>)
    returns (after: Requests)
    requires AllPositive(rs) && R.Distinct(running)
    requires forall g :: g in running && g in rs ==> g in ranges && GetUpcoming(ranges, perGroup, g).value > 0
    ensures AllPositive(after)
    ensures forall g :: RequestAt(after, g) == AfterErrors(RequestAt(rs, g), o, g, ListingIn(previous, g), running)
  {
    after := rs;
    for i := 0 to |running|
      invariant AllPositive(after)
      invariant forall g ::
          RequestAt(after, g) == AfterErrors(RequestAt(rs, g), o, g, ListingIn(previous, g), running[..i])
    {
      var g := running[i];
      assert g !in running[..i];
      var upcoming := GetUpcoming(ranges, perGroup, g);
      ghost var was := after;
      after := HandleInstanceCreationErrors(after, g, o.Listing(g), ListingIn(previous, g),
          if upcoming.Some? then upcoming.value else 0, o.now, o.Provision(g));
      forall k ensures RequestAt(after, k) ==
          AfterErrors(RequestAt(rs, k), o, k, ListingIn(previous, k), running[..i+1]) {
        assert running[..i+1] == running[..i] + [g];
        assert RequestAt(was, k) == AfterErrors(RequestAt(rs, k), o, k, ListingIn(previous, k), running[..i]);
      }
    }
    assert running[..|running|] == running;
  }

  function ListingIn(instances: map<GroupId, seq<Instance>>, g: GroupId): seq<Instance> {
    if g in instances then instances[g] else []
  }

  // ----- sizes seen by the registry -----

  lemma {:induction false} RegisteredCount(c: R.Census, g: GroupId, i: nat)
    requires i <= |c.nodes|
    ensures |R.Tally(c, R.Within(g), i).registered| == RegisteredIn(c.nodes[..i], g)
    ensures R.SomeNodeIn(c, g, i) <==> RegisteredIn(c.nodes[..i], g) > 0
  {
    if i > 0 {
      RegisteredCount(c, g, i - 1);
      assert c.nodes[..i][..i-1] == c.nodes[..i-1];
      SomeNodeStep(c, g, i);
    }
  }

  lemma SomeNodeStep(c: R.Census, g: GroupId, i: nat)
    requires 0 < i <= |c.nodes|
    ensures R.SomeNodeIn(c, g, i) <==> R.SomeNodeIn(c, g, i - 1) || c.nodes[i-1].group == Some(g)
  {
    if R.SomeNodeIn(c, g, i - 1) {
      var j :| 0 <= j < i - 1 && c.nodes[j].group == Some(g);
      assert c.nodes[j].group == Some(g);
    }
  }

  function WaitingOf(o: Observation, unregistered: map<string, Since<Absence>>): R.Waiting {
    R.Waiting(map id | id in unregistered :: unregistered[id].since, o.groupOf, o.provision, o.now)
  }

  /** The statistics of one group, or of the cluster, are those of the observation and of the missing instances on
      record. */
  ghost predicate ReadinessIn(o: Observation, unregistered: map<string, Since<Absence>>,
      perGroup: map<GroupId, R.Stats>, total: R.Stats, scope: Option<GroupId>) {
    var c, u := CensusOf(o), WaitingOf(o, unregistered);
    match scope
    case None => R.TotalStats(c, u, {}, total)
    case Some(g) => (g in perGroup <==> g in R.GroupsSeen(c, u)) && (g in perGroup ==>
        R.GroupStats(c, u, g, perGroup[g]))
  }

  ghost predicate ReadinessFor(o: Observation, unregistered: map<string, Since<Absence>>,
      perGroup: map<GroupId, R.Stats>, total: R.Stats) {
    forall scope :: ReadinessIn(o, unregistered, perGroup, total, scope)
  }

  lemma MissingCount(o: Observation, unregistered: map<string, Since<Absence>>, g: GroupId)
    requires unregistered.Keys == Missing(o)
    ensures |MissingIn(o, g)| == |R.LongIn(WaitingOf(o, unregistered), g)| + |R.RecentIn(WaitingOf(o, unregistered), g)|
    ensures MissingIn(o, g) == R.LongIn(WaitingOf(o, unregistered), g) + R.RecentIn(WaitingOf(o, unregistered), g)
  {
    var u := WaitingOf(o, unregistered);
    assert MissingIn(o, g) == R.LongIn(u, g) + R.RecentIn(u, g);
    assert R.LongIn(u, g) !! R.RecentIn(u, g);
  }

  lemma CountOfSet(a: seq<string>, s: set<string>)
    requires multiset(a) == multiset(s)
    ensures |a| == |s|
  {
    assert |multiset(a)| == |a| && |multiset(s)| == |s|;
  }

  /** What the registry reads off its statistics is what the observation shows. */
  lemma SizesAsObserved(o: Observation, unregistered: map<string, Since<Absence>>, perGroup: map<GroupId, R.Stats>,
      total: R.Stats, g: GroupId)
    requires unregistered.Keys == Missing(o) && ReadinessFor(o, unregistered, perGroup, total)
    ensures g in perGroup <==> RegisteredIn(o.nodes, g) > 0 || MissingIn(o, g) != {}
    ensures g in perGroup ==> |perGroup[g].registered| == RegisteredIn(o.nodes, g)
    ensures g in perGroup ==> |perGroup[g].unregistered| + |perGroup[g].longUnregistered| == |MissingIn(o, g)|
  {
    var c, u := CensusOf(o), WaitingOf(o, unregistered);
    RegisteredCount(c, g, |c.nodes|);
    assert c.nodes[..|c.nodes|] == o.nodes;
    MissingCount(o, unregistered, g);
    SeenExactlyWhen(o, unregistered, g);
    assert ReadinessIn(o, unregistered, perGroup, total, Some(g));
    if g in perGroup {
      assert R.GroupStats(c, u, g, perGroup[g]);
      CountOfSet(perGroup[g].longUnregistered, R.LongIn(u, g));
      CountOfSet(perGroup[g].unregistered, R.RecentIn(u, g));
    }
  }

  /** The class lists together are as long as the list of registered nodes. */
  lemma {:induction false} ClassSizes(c: R.Census, scope: R.Scope, i: nat)
    requires i <= |c.nodes|
    ensures var s := R.Tally(c, scope, i);
      |s.registered| ==
        |s.Of(R.Deleted)| + |s.Of(R.Suspended)| + |s.Of(R.Ready)| + |s.Of(R.NotStarted)| + |s.Of(R.Unready)|
  {
    if i > 0 {
      ClassSizes(c, scope, i - 1);
    }
  }

  /** A group that is too small even with all its missing instances has nodes still to come. */
  lemma TooSmallHasUpcoming(o: Observation, unregistered: map<string, Since<Absence>>,
      perGroup: map<GroupId, R.Stats>, total: R.Stats, g: GroupId)
    requires unregistered.Keys == Missing(o) && ReadinessFor(o, unregistered, perGroup, total)
    requires Mismatched(o, g) && RegisteredIn(o.nodes, g) < Lookup(o.targets, g)
    ensures UpcomingAt(o, perGroup, g) > 0
  {
    SizesAsObserved(o, unregistered, perGroup, total, g);
    var c := CensusOf(o);
    assert ReadinessIn(o, unregistered, perGroup, total, Some(g));
    ClassSizes(c, R.Within(g), |c.nodes|);
    var t := R.Tally(c, R.Within(g), |c.nodes|);
    assert forall k: R.Class :: perGroup[g].Of(k) == t.Of(k);
  }

  // ----- which requests end -----

  /** A node of the cluster that arrived: the provider still has it, and it is suspended, ready, or older than the
      startup time in effect for it. */
  ghost predicate Arrived(o: Observation, i: nat)
    requires i < |o.nodes|
  {
    && (forall j :: 0 <= j < |o.nodes| && o.nodes[j].gone ==> o.nodes[j].name != o.nodes[i].name)
    && (o.nodes[i].suspended || o.nodes[i].ready
        || o.nodes[i].created + R.StartupTime(o.nodes, o.startup, i) <= o.now)
  }

  /** How many of the first `k` nodes are nodes of the group that arrived. */
  ghost function ArrivedIn(o: Observation, g: GroupId, k: nat): nat
    requires k <= |o.nodes|
  {
    if k == 0 then 0
    else ArrivedIn(o, g, k - 1) + if o.nodes[k-1].group == Some(g) && Arrived(o, k - 1) then 1 else 0
  }

  /** The instances of a group that were missing without a break for longer than its provision time. */
  ghost function LongMissingOf(h: seq<Observation>, g: GroupId): set<string>
    requires h != []
  {
    set id | id in MissingIn(h[|h|-1], g) && MissingTooLong(h, id, g)
  }

  ghost predicate MissingTooLong(h: seq<Observation>, id: string, g: GroupId)
    requires h != []
  {
    g in h[|h|-1].provision
    && exists start: nat :: MissingSince(h, id, start) && h[start].now + h[|h|-1].provision[g] < h[|h|-1].now
  }

  lemma {:induction false} ArrivedCount(o: Observation, g: GroupId, k: nat)
    requires k <= |o.nodes|
    ensures var s := R.Tally(CensusOf(o), R.Within(g), k);
      |s.Of(R.Ready)| + |s.Of(R.Unready)| + |s.Of(R.Suspended)| == ArrivedIn(o, g, k)
  {
    if k > 0 {
      ArrivedCount(o, g, k - 1);
      ArrivedExactlyWhen(o, k - 1);
    }
  }

  lemma ArrivedExactlyWhen(o: Observation, i: nat)
    requires i < |o.nodes|
    ensures var c := CensusOf(o).ClassAt(i);
      Arrived(o, i) <==> c == R.Ready || c == R.Unready || c == R.Suspended
  {
  }

  lemma StretchesOfMissingAgree(h: seq<Observation>, id: string, a: nat, b: nat)
    requires MissingSince(h, id, a) && MissingSince(h, id, b)
    ensures a == b
  {
  }

  /** The time on record tells whether an instance is missing for too long. */
  lemma TooLongOnRecord(h: seq<Observation>, id: string, g: GroupId)
    requires h != [] && id in Missing(h[|h|-1]) && g in h[|h|-1].provision
    ensures var o, m := h[|h|-1], Replay(Absences(h));
      id in m && (MissingTooLong(h, id, g) <==> m[id].since + o.provision[g] < o.now)
  {
    var m := Replay(Absences(h));
    UnregisteredSinceMeans(h, id);
    var start: nat :| MissingSince(h, id, start) && m[id].since == h[start].now;
    forall b: nat | MissingSince(h, id, b) ensures b == start {
      StretchesOfMissingAgree(h, id, start, b);
    }
  }

  lemma LongAsObserved(h: seq<Observation>, g: GroupId)
    requires h != [] && Replay(Absences(h)).Keys == Missing(h[|h|-1])
    ensures R.LongIn(WaitingOf(h[|h|-1], Replay(Absences(h))), g) == LongMissingOf(h, g)
  {
    var o, m := h[|h|-1], Replay(Absences(h));
    var u := WaitingOf(o, m);
    forall id ensures id in R.LongIn(u, g) <==> id in LongMissingOf(h, g) {
      if id in m && g in o.provision {
        TooLongOnRecord(h, id, g);
      }
    }
  }

  /** The nodes that a running group still waits for: its target less those that arrived and those given up. */
  ghost function Outstanding(h: seq<Observation>, g: GroupId): int
    requires h != []
  {
    var o := h[|h|-1];
    Lookup(o.targets, g) - ArrivedIn(o, g, |o.nodes|) - |LongMissingOf(h, g)|
  }

  lemma UpcomingIsOutstanding(h: seq<Observation>, perGroup: map<GroupId, R.Stats>, total: R.Stats, g: GroupId)
    requires h != [] && ReadinessFor(h[|h|-1], Replay(Absences(h)), perGroup, total)
    requires g in h[|h|-1].groups && g !in h[|h|-1].async
    ensures UpcomingAt(h[|h|-1], perGroup, g) == Outstanding(h, g)
  {
    var o, m := h[|h|-1], Replay(Absences(h));
    assert m.Keys == Missing(o) by {
      forall id ensures id in m <==> id in Missing(o) {
        UnregisteredSinceMeans(h, id);
      }
    }
    ArrivedCount(o, g, |o.nodes|);
    LongAsObserved(h, g);
    assert ReadinessIn(o, m, perGroup, total, Some(g));
    if g in perGroup {
      var t := R.Tally(CensusOf(o), R.Within(g), |o.nodes|);
      assert forall k: R.Class :: perGroup[g].Of(k) == t.Of(k);
      CountOfSet(perGroup[g].longUnregistered, R.LongIn(WaitingOf(o, m), g));
    } else {
      NothingArrived(o, m, perGroup, total, g);
    }
  }

  /** A group without statistics has neither nodes nor missing instances. */
  lemma NothingArrived(o: Observation, unregistered: map<string, Since<Absence>>, perGroup: map<GroupId, R.Stats>,
      total: R.Stats, g: GroupId)
    requires unregistered.Keys == Missing(o) && ReadinessFor(o, unregistered, perGroup, total) && g !in perGroup
    ensures ArrivedIn(o, g, |o.nodes|) == 0 && R.LongIn(WaitingOf(o, unregistered), g) == {}
  {
    SizesAsObserved(o, unregistered, perGroup, total, g);
    MissingCount(o, unregistered, g);
    ArrivedAreRegistered(o, g, |o.nodes|);
    assert o.nodes[..|o.nodes|] == o.nodes;
  }

  lemma {:induction false} ArrivedAreRegistered(o: Observation, g: GroupId, k: nat)
    requires k <= |o.nodes|
    ensures ArrivedIn(o, g, k) <= RegisteredIn(o.nodes[..k], g)
    ensures (forall i :: 0 <= i < k && o.nodes[i].group == Some(g) ==> Arrived(o, i)) ==>
      ArrivedIn(o, g, k) == RegisteredIn(o.nodes[..k], g)
  {
    if k > 0 {
      ArrivedAreRegistered(o, g, k - 1);
      assert o.nodes[..k][..k-1] == o.nodes[..k-1];
    }
  }

  /**
    What an update does to the open request of a running group, in terms of the observations: it is reverted
    exactly when the group still waits for nodes and the deadline passed, and goes without a revert
    exactly when nothing is outstanding or new creation errors use up its increase.
   */
  ghost predicate EndsAsObserved(after: Requests, lowered: seq<Decrease>, rs: Requests, h: seq<Observation>,
      prior: seq<Observation>, g: GroupId)
    requires h != []
  {
    var o := h[|h|-1];
    g in rs && g in o.groups && g !in o.async ==>
      var late, errors := rs[g].expectedAddTime < o.now, NewErrorsIn(o, LastListing(prior, g), g);
      && (Decrease(g, -rs[g].increase) in lowered <==> Outstanding(h, g) > 0 && late)
      && (forall d :: d in lowered && d.group == g ==> d.delta == -rs[g].increase)
      && (g in after <==>
            Outstanding(h, g) > 0 && !late && !(g in o.provision && rs[g].increase <= errors))
      && (g in after ==>
            after[g] == rs[g].(increase := rs[g].increase - if g in o.provision then errors else 0))
  }

  lemma RequestsEndAsObserved(after: Requests, lowered: seq<Decrease>, rs: Requests, h: seq<Observation>,
      perGroup: map<GroupId, R.Stats>, total: R.Stats, prior: seq<Observation>, g: GroupId)
    requires h != [] && ReadinessFor(h[|h|-1], Replay(Absences(h)), perGroup, total) && AllPositive(rs)
    requires RequestsAfter(after, rs, h[|h|-1], prior, perGroup) && Reverted(lowered, rs, h[|h|-1], perGroup)
    ensures EndsAsObserved(after, lowered, rs, h, prior, g)
  {
    var o := h[|h|-1];
    if g in rs && g in o.groups && g !in o.async {
      UpcomingIsOutstanding(h, perGroup, total, g);
      assert RequestAfterIn(after, rs, o, prior, perGroup, g);
    }
  }

  /** A group whose target nodes are all registered and ready, and known to the provider, waits for nothing. */
  lemma CompleteGroupWaitsForNothing(h: seq<Observation>, g: GroupId)
    requires h != []
    requires var o := h[|h|-1];
      && RegisteredIn(o.nodes, g) >= Lookup(o.targets, g)
      && (forall i :: 0 <= i < |o.nodes| ==> !o.nodes[i].gone)
      && (forall i :: 0 <= i < |o.nodes| && o.nodes[i].group == Some(g) ==> o.nodes[i].ready)
    ensures Outstanding(h, g) <= 0
  {
    var o := h[|h|-1];
    ArrivedAreRegistered(o, g, |o.nodes|);
    assert o.nodes[..|o.nodes|] == o.nodes;
  }

  /** The open request of such a group ends without a revert. */
  lemma CompleteGroupIsNotReverted(after: Requests, lowered: seq<Decrease>, rs: Requests, h: seq<Observation>,
      prior: seq<Observation>, g: GroupId)
    requires h != [] && EndsAsObserved(after, lowered, rs, h, prior, g)
    requires var o := h[|h|-1];
      && g in rs && g in o.groups && g !in o.async && RegisteredIn(o.nodes, g) >= Lookup(o.targets, g)
      && (forall i :: 0 <= i < |o.nodes| ==> !o.nodes[i].gone)
      && (forall i :: 0 <= i < |o.nodes| && o.nodes[i].group == Some(g) ==> o.nodes[i].ready)
    ensures g !in after && forall d :: d in lowered ==> d.group != g
  {
    CompleteGroupWaitsForNothing(h, g);
    forall d | d in lowered && d.group == g ensures d == Decrease(g, -rs[g].increase) {
    }
  }

  lemma SeenExactlyWhen(o: Observation, unregistered: map<string, Since<Absence>>, g: GroupId)
    requires unregistered.Keys == Missing(o)
    ensures g in R.GroupsSeen(CensusOf(o), WaitingOf(o, unregistered)) <==>
      R.SomeNodeIn(CensusOf(o), g, |o.nodes|) || MissingIn(o, g) != {}
  {
    var c, u := CensusOf(o), WaitingOf(o, unregistered);
    if MissingIn(o, g) != {} {
      var id :| id in MissingIn(o, g);
      assert id in u.since && u.Known(id) && u.groupOf[id] == g;
    }
    if exists id :: id in u.since && u.Known(id) && u.groupOf[id] == g {
      var id :| id in u.since && u.Known(id) && u.groupOf[id] == g;
      assert id in MissingIn(o, g);
    }
  }

  /** The record of one group, from what the registry holds. */
  function IncorrectSize(prev: map<GroupId, Since<Sizes>>, now: int, g: GroupId, perGroup: map<GroupId, R.Stats>,
      ranges: map<GroupId, Range>): Option<Since<Sizes>> {
    if g !in ranges || g !in perGroup then None
    else
      var s, target := perGroup[g], ranges[g].currentTarget;
      var missing := |s.unregistered| + |s.longUnregistered|;
      if |s.registered| <= target && |s.registered| >= target - missing then None
      else if g in prev && prev[g].value == Sizes(|s.registered|, target) then Some(prev[g])
      else Some(Since(Sizes(|s.registered|, target), now))
  }

  /** The record made of a running group is the one that its observed sizes call for. */
  lemma IncorrectAsObserved(prev: map<GroupId, Since<Sizes>>, o: Observation,
      unregistered: map<string, Since<Absence>>, perGroup: map<GroupId, R.Stats>, total: R.Stats,
      ranges: map<GroupId, Range>, rs: Requests, ds: seq<ScaleDownRequest>, g: GroupId)
    requires unregistered.Keys == Missing(o) && ReadinessFor(o, unregistered, perGroup, total)
    requires RangesFor(ranges, o, perGroup, rs, ds) && g in o.groups && g !in o.async
    ensures IncorrectSize(prev, o.now, g, perGroup, ranges) == At(Advance(prev, MismatchSight(o)), g)
  {
    SizesAsObserved(o, unregistered, perGroup, total, g);
    TargetFromRanges(ranges, o, perGroup, rs, ds, g);
    MismatchRecord(prev, o, g);
  }

  lemma MismatchRecord(prev: map<GroupId, Since<Sizes>>, o: Observation, g: GroupId)
    ensures At(Advance(prev, MismatchSight(o)), g) ==
      var s := Sizes(RegisteredIn(o.nodes, g), Lookup(o.targets, g));
      if !Mismatched(o, g) then None
      else if g in prev && prev[g].value == s then Some(prev[g])
      else Some(Since(s, o.now))
  {
  }

  method IncorrectSizes(prev: map<GroupId, Since<Sizes>>, o: Observation,
      ghost unregistered: map<string, Since<Absence>>, perGroup: map<GroupId, R.Stats>, ghost total: R.Stats,
      ranges: map<GroupId, Range>, ghost rs: Requests, ghost ds: seq<ScaleDownRequest>)
    returns (result: map<GroupId, Since<Sizes>>)
    requires unregistered.Keys == Missing(o) && ReadinessFor(o, unregistered, perGroup, total)
    requires RangesFor(ranges, o, perGroup, rs, ds)
    ensures result == Advance(prev, MismatchSight(o))
  {
    RunningGroups(o.groups, o.async);
    var running := GetRunningNodeGroups(o.groups, o.async);
    result := map[];
    for i := 0 to |running|
      invariant forall g ::
          At(result, g) == if g in running[..i] then IncorrectSize(prev, o.now, g, perGroup, ranges) else None
    {
      var g := running[i];
      ghost var was := result;
      if g in ranges && g in perGroup {
        var s, target := perGroup[g], ranges[g].currentTarget;
        var missing := |s.unregistered| + |s.longUnregistered|;
        if |s.registered| > target || |s.registered| < target - missing {
          var incorrect := Since(Sizes(|s.registered|, target), o.now);
          if g in prev && prev[g].value == incorrect.value {
            incorrect := prev[g];
          }
          result := result[g := incorrect];
        }
      }
      forall k ensures At(result, k) == if k in running[..i+1] then IncorrectSize(prev, o.now, k, perGroup, ranges)
          else None {
        assert running[..i+1] == running[..i] + [g];
        assert At(was, k) == if k in running[..i] then IncorrectSize(prev, o.now, k, perGroup, ranges) else None;
      }
    }
    assert running[..|running|] == running;
    ghost var goal := Advance(prev, MismatchSight(o));
    forall g ensures At(result, g) == At(goal, g) {
      if g in running {
        IncorrectAsObserved(prev, o, unregistered, perGroup, total, ranges, rs, ds, g);
      } else {
        MismatchRecord(prev, o, g);
      }
    }
    SameRecords(result, goal);
  }

  class ClusterStateRegistry {
    var scaleUpRequests: Requests
    var scaleDownRequests: seq<ScaleDownRequest>
    var nodes: seq<R.Node>
    var perGroup: map<GroupId, R.Stats>
    var total: R.Stats
    var ranges: map<GroupId, Range>
    var incorrectSizes: map<GroupId, Since<Sizes>>
    var unregistered: map<string, Since<Absence>>
    var deletedNodes: set<string>
    var instances: map<GroupId, seq<Instance>>
    var previousInstances: map<GroupId, seq<Instance>>
    /** All observations so far. */
    ghost var history: seq<Observation>

    /** The records are those of the whole history, and open requests have a positive increase. */
    ghost predicate Valid()
      reads this
    {
      && AllPositive(scaleUpRequests)
      && OnRecord(unregistered, incorrectSizes, history)
      && instances == (if history == [] then map[] else history[|history|-1].instances)
    }

    constructor ()
      ensures Valid() && history == [] && scaleUpRequests == map[] && scaleDownRequests == []
    {
      scaleUpRequests, scaleDownRequests, nodes := map[], [], [];
      perGroup, total, ranges := map[], R.EMPTY, map[];
      incorrectSizes, unregistered, deletedNodes := map[], map[], {};
      instances, previousInstances := map[], map[];
      history := [];
    }

    method RegisterScaleUp(g: GroupId, delta: int, now: int, provision: Option<int>)
      requires Valid()
      modifies this`scaleUpRequests
      ensures Valid()
      ensures scaleUpRequests == RegisterOrUpdate(old(scaleUpRequests), g, delta, now, provision)
    {
      RegisterKeepsPositive(scaleUpRequests, g, delta, now, provision);
      scaleUpRequests := RegisterOrUpdate(scaleUpRequests, g, delta, now, provision);
    }

    method RegisterScaleDown(g: GroupId, nodeName: string, expectedDeleteTime: int)
      requires Valid()
      modifies this`scaleDownRequests
      ensures Valid()
      ensures scaleDownRequests == old(scaleDownRequests) + [ScaleDownRequest(nodeName, g, expectedDeleteTime)]
    {
      scaleDownRequests := scaleDownRequests + [ScaleDownRequest(nodeName, g, expectedDeleteTime)];
    }

    /** Recalculating the ranges outside an update. */
    method Recalculate(o: Observation)
      requires Valid()
      modifies this`ranges
      ensures Valid()
      ensures RangesFor(ranges, o, perGroup, scaleUpRequests, scaleDownRequests)
    {
      UpdateRanges(o);
    }

    method UpdateRanges(o: Observation)
      modifies this`ranges
      ensures RangesFor(ranges, o, perGroup, scaleUpRequests, scaleDownRequests)
    {
      var running := GetRunningNodeGroups(o.groups, o.async);
      ranges := UpdateAcceptableRanges(running, o.targets, LongCounts(perGroup), scaleUpRequests, scaleDownRequests);
      forall g ensures RangeFor(ranges, o, perGroup, scaleUpRequests, scaleDownRequests, g) {
      }
    }

    /** Instances that were missing before keep their time. */
    method UpdateUnregisteredNodes(o: Observation)
      modifies this`unregistered
      ensures unregistered == Advance(old(unregistered), AbsenceSight(o))
    {
      var ids := GetNotRegisteredNodes(o);
      var result: map<string, Since<Absence>> := map[];
      for i := 0 to |ids|
        invariant forall id :: id in result <==> id in ids[..i]
        invariant forall id :: id in result ==>
            result[id] == if id in unregistered then unregistered[id] else Since(Absent, o.now)
      {
        var id := ids[i];
        result := result[id := if id in unregistered then unregistered[id] else Since(Absent, o.now)];
      }
      assert ids[..|ids|] == ids;
      forall id | id in unregistered ensures unregistered[id].value == Absent {
      }
      unregistered := result;
    }

    method UpdateCloudProviderDeletedNodes(o: Observation)
      modifies this`deletedNodes
      ensures deletedNodes == GoneNames(o.nodes)
    {
      var result: set<string> := {};
      for i := 0 to |o.nodes|
        invariant result == set j | 0 <= j < i && o.nodes[j].gone :: o.nodes[j].name
      {
        if o.nodes[i].gone {
          result := result + {o.nodes[i].name};
        }
      }
      deletedNodes := result;
    }

    method UpdateReadiness(o: Observation)
      requires deletedNodes == GoneNames(o.nodes) && nodes == o.nodes
      modifies this`perGroup, this`total
      ensures ReadinessFor(o, unregistered, perGroup, total)
    {
      perGroup, total := R.UpdateReadinessStats(
        R.Census(nodes, deletedNodes, o.startup, o.now), WaitingOf(o, unregistered));
    }

    /** Finished and timed-out requests go; `lowered` are the targets of timed-out ones, asked to be taken back. */
    method UpdateScaleRequests(o: Observation) returns (lowered: seq<Decrease>)
      requires AllPositive(scaleUpRequests)
      requires RangesFor(ranges, o, perGroup, scaleUpRequests, scaleDownRequests)
      modifies this`scaleUpRequests, this`scaleDownRequests
      ensures AllPositive(scaleUpRequests)
      ensures forall g ::
          RequestAt(scaleUpRequests, g) == Kept(RequestAt(old(scaleUpRequests), g), o, g, UpcomingAt(o, perGroup, g))
      ensures scaleDownRequests == Pending(old(scaleDownRequests), o.now)
      ensures Reverted(lowered, old(scaleUpRequests), o, perGroup)
    {
      scaleUpRequests, lowered := PruneRequests(scaleUpRequests, scaleDownRequests, o, ranges, perGroup);
      scaleDownRequests := UpdateScaleDownRequests(scaleDownRequests, o.now);
    }

    method HandleCreationErrors(o: Observation)
      requires AllPositive(scaleUpRequests) && R.Distinct(o.groups)
      requires instances == o.instances
      requires forall g :: g in o.groups && g !in o.async ==>
          GetUpcoming(ranges, perGroup, g) == Some(UpcomingAt(o, perGroup, g))
      requires forall g :: g in scaleUpRequests && g !in o.async ==> UpcomingAt(o, perGroup, g) > 0
      modifies this`scaleUpRequests
      ensures AllPositive(scaleUpRequests)
      ensures forall g ::
          RequestAt(scaleUpRequests, g) ==
          AfterErrors(RequestAt(old(scaleUpRequests), g), o, g, ListingIn(previousInstances, g),
          RunningOf(o.groups, o.async))
    {
      RunningGroups(o.groups, o.async);
      var running := GetRunningNodeGroups(o.groups, o.async);
      scaleUpRequests := ChargeErrors(scaleUpRequests, o, previousInstances, running, ranges, perGroup);
    }

    /** Groups whose mismatch is the one on record keep its time. */
    method UpdateIncorrectNodeGroupSizes(o: Observation)
      requires unregistered.Keys == Missing(o) && ReadinessFor(o, unregistered, perGroup, total)
      requires RangesFor(ranges, o, perGroup, scaleUpRequests, scaleDownRequests)
      modifies this`incorrectSizes
      ensures incorrectSizes == Advance(old(incorrectSizes), MismatchSight(o))
    {
      incorrectSizes := IncorrectSizes(incorrectSizes, o, unregistered, perGroup, total, ranges, scaleUpRequests,
          scaleDownRequests);
    }

    /** What holds right after an update. */
    ghost predicate Settled(o: Observation)
      reads this
    {
      && ReadinessFor(o, unregistered, perGroup, total)
      && RangesFor(ranges, o, perGroup, scaleUpRequests, scaleDownRequests)
      && (forall g :: StillOpen(scaleUpRequests, o, perGroup, g))
      && (forall d :: d in scaleDownRequests ==> d.expectedDeleteTime > o.now)
    }

    /** The part of an update that looks at the cluster. */
    method ReadCluster(o: Observation)
      modifies this`nodes, this`instances, this`previousInstances, this`unregistered, this`deletedNodes,
          this`perGroup, this`total
      ensures instances == o.instances && previousInstances == old(instances)
      ensures Advanced(old(unregistered), unregistered, o)
      ensures ReadinessFor(o, unregistered, perGroup, total)
    {
      nodes := o.nodes;
      previousInstances := instances;
      instances := o.instances;
      UpdateUnregisteredNodes(o);
      UpdateCloudProviderDeletedNodes(o);
      UpdateReadiness(o);
      forall id ensures AdvancedAt(old(unregistered), unregistered, o, id) {
      }
    }

    /** The part of an update that settles the requests. */
    method SettleRequests(o: Observation, ghost h: seq<Observation>) returns (lowered: seq<Decrease>)
      requires AllPositive(scaleUpRequests) && R.Distinct(o.groups) && instances == o.instances
      requires previousInstances == if h == [] then map[] else h[|h|-1].instances
      modifies this`ranges, this`scaleUpRequests, this`scaleDownRequests
      ensures AllPositive(scaleUpRequests)
      ensures RequestsAfter(scaleUpRequests, old(scaleUpRequests), o, h, perGroup)
      ensures forall g :: StillOpen(scaleUpRequests, o, perGroup, g)
      ensures scaleDownRequests == Pending(old(scaleDownRequests), o.now)
      ensures Reverted(lowered, old(scaleUpRequests), o, perGroup)
    {
      UpdateRanges(o);
      forall g | g in o.groups && g !in o.async
          ensures GetUpcoming(ranges, perGroup, g) == Some(UpcomingAt(o, perGroup, g)) {
        UpcomingFromRanges(ranges, o, perGroup, scaleUpRequests, scaleDownRequests, g);
      }
      ghost var was := scaleUpRequests;
      lowered := UpdateScaleRequests(o);
      ghost var kept := scaleUpRequests;
      forall g | g in kept && g !in o.async ensures UpcomingAt(o, perGroup, g) > 0 {
        KeptHasUpcoming(was, kept, o, perGroup, g);
      }
      HandleCreationErrors(o);
      PrunedThenCharged(was, kept, scaleUpRequests, o, h, perGroup, previousInstances);
    }

    /** One update. When the provider cannot be read nothing changes. */
    method UpdateNodes(observed: Option<Observation>) returns (lowered: seq<Decrease>)
      requires Valid() && (observed.Some? ==> observed.value.WellFormed())
      modifies this
      ensures Valid()
      ensures observed.None? ==> unchanged(this) && lowered == []
      ensures observed.Some? ==> history == old(history) + [observed.value] && Settled(observed.value)
      ensures observed.Some? ==> scaleDownRequests == Pending(old(scaleDownRequests), observed.value.now)
      ensures observed.Some? ==>
          RequestsAfter(scaleUpRequests, old(scaleUpRequests), observed.value, old(history), perGroup)
      ensures observed.Some? ==> Reverted(lowered, old(scaleUpRequests), observed.value, perGroup)
      ensures observed.Some? ==>
        forall g :: EndsAsObserved(scaleUpRequests, lowered, old(scaleUpRequests), history, old(history), g)
    {
      lowered := [];
      if observed.Some? {
        lowered := UpdateClusterStateRegistry(observed.value);
        OnRecordMeans(unregistered, incorrectSizes, history);
        forall g ensures EndsAsObserved(scaleUpRequests, lowered, old(scaleUpRequests), history, old(history), g) {
          RequestsEndAsObserved(scaleUpRequests, lowered, old(scaleUpRequests), history, perGroup, total, old(history),
              g);
        }
      }
    }

    method UpdateClusterStateRegistry(o: Observation) returns (lowered: seq<Decrease>)
      requires Valid() && o.WellFormed()
      modifies this
      ensures Valid() && history == old(history) + [o] && Settled(o)
      ensures scaleDownRequests == Pending(old(scaleDownRequests), o.now)
      ensures RequestsAfter(scaleUpRequests, old(scaleUpRequests), o, old(history), perGroup)
      ensures Reverted(lowered, old(scaleUpRequests), o, perGroup)
    {
      lowered := ReadAndSettle(o);
      FinishUpdate(o, old(unregistered));
    }

    /** Everything up to the final ranges. */
    method ReadAndSettle(o: Observation) returns (lowered: seq<Decrease>)
      requires AllPositive(scaleUpRequests) && o.WellFormed()
      requires instances == (if history == [] then map[] else history[|history|-1].instances)
      modifies this`nodes, this`instances, this`previousInstances, this`unregistered, this`deletedNodes,
          this`perGroup, this`total
      modifies this`ranges, this`scaleUpRequests, this`scaleDownRequests
      ensures instances == o.instances && AllPositive(scaleUpRequests)
      ensures Advanced(old(unregistered), unregistered, o)
      ensures ReadinessFor(o, unregistered, perGroup, total)
      ensures RequestsAfter(scaleUpRequests, old(scaleUpRequests), o, history, perGroup)
      ensures forall g :: StillOpen(scaleUpRequests, o, perGroup, g)
      ensures scaleDownRequests == Pending(old(scaleDownRequests), o.now)
      ensures forall d :: d in scaleDownRequests ==> d.expectedDeleteTime > o.now
      ensures Reverted(lowered, old(scaleUpRequests), o, perGroup)
    {
      ReadCluster(o);
      lowered := SettleRequests(o, history);
      PendingExpireLater(old(scaleDownRequests), o.now);
    }

    /** The end of an update: final ranges, and the record of wrong sizes. */
    method FinishUpdate(o: Observation, ghost before: map<string, Since<Absence>>)
      requires OnRecord(before, incorrectSizes, history) && Advanced(before, unregistered, o)
      requires ReadinessFor(o, unregistered, perGroup, total)
      modifies this`ranges, this`incorrectSizes, this`history
      ensures RangesFor(ranges, o, perGroup, scaleUpRequests, scaleDownRequests)
      ensures history == old(history) + [o] && OnRecord(unregistered, incorrectSizes, history)
    {
      AdvancedMeans(before, unregistered, o);
      UpdateRanges(o);
      UpdateIncorrectNodeGroupSizes(o);
      RecordsGrow(before, old(incorrectSizes), history, o);
      history := history + [o];
    }
  }

  /** The acceptable range of a running group, in terms of its observed target. */
  lemma RangeOfRunningGroup(ranges: map<GroupId, Range>, o: Observation, unregistered: map<string, Since<Absence>>,
      perGroup: map<GroupId, R.Stats>, total: R.Stats, rs: Requests, ds: seq<ScaleDownRequest>, g: GroupId)
    requires RangesFor(ranges, o, perGroup, rs, ds) && ReadinessFor(o, unregistered, perGroup, total)
    requires g in o.groups && g !in o.async && g in perGroup
    ensures g in ranges && ranges[g] == Range(
      Lookup(o.targets, g) - |R.LongIn(WaitingOf(o, unregistered), g)| - Increase(rs, g),
      Lookup(o.targets, g) + PendingIn(ds, g),
      Lookup(o.targets, g))
  {
    UpcomingFromRanges(ranges, o, perGroup, rs, ds, g);
    assert RangeFor(ranges, o, perGroup, rs, ds, g);
    RunningGroups(o.groups, o.async);
    assert ReadinessIn(o, unregistered, perGroup, total, Some(g));
    assert R.GroupStats(CensusOf(o), WaitingOf(o, unregistered), g, perGroup[g]);
    CountOfSet(perGroup[g].longUnregistered, R.LongIn(WaitingOf(o, unregistered), g));
  }
}
