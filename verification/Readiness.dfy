/**
  Readiness statistics of the cluster state registry: every registered node is put into one class,
  per node group and for the cluster, and unregistered instances are counted as long or recent.
 */
module Readiness {
  import opened Wrappers

  type GroupId = string

  /** A registered node as the registry sees it. `gone` means that the cloud provider has no instance for it. */
  datatype Node = Node(
    name: string, providerId: string, group: Option<GroupId>, lookupFailed: bool,
    ready: bool, resourceUnready: bool, suspended: bool, created: int, gone: bool)

  datatype Class = Deleted | Suspended | Ready | NotStarted | Unready

  /** Names of nodes: by class, all registered ones, unregistered ones by age, and those unready for lack of a
      resource. */
  datatype Stats = Stats(
    byClass: map<Class, seq<string>>, registered: seq<string>,
    longUnregistered: seq<string>, unregistered: seq<string>, resourceUnready: seq<string>)
  {
    /** The list of one class. */
    function Of(c: Class): seq<string> {
      if c in byClass then byClass[c] else []
    }
  }

  const EMPTY := Stats(map[], [], [], [], [])

  const MAX_NODE_STARTUP_TIME := 900

  /** The startup time in effect for node `i`: that of its group if known, else whatever was in effect before. */
  function StartupTime(nodes: seq<Node>, startup: map<GroupId, int>, i: nat): int
    requires i < |nodes|
  {
    var n := nodes[i];
    if !n.lookupFailed && n.group.Some? && n.group.value in startup then startup[n.group.value]
    else if i == 0 then MAX_NODE_STARTUP_TIME
    else StartupTime(nodes, startup, i - 1)
  }

  function ClassOf(n: Node, deletedNodes: set<string>, startupTime: int, now: int): Class {
    if n.name in deletedNodes then Deleted
    else if n.suspended then Suspended
    else if n.ready then Ready
    else if n.created + startupTime > now then NotStarted
    else Unready
  }

  /** Everything the classification depends on. */
  datatype Census = Census(nodes: seq<Node>, deletedNodes: set<string>, startup: map<GroupId, int>, now: int) {
    function ClassAt(i: nat): Class
      requires i < |nodes|
    {
      ClassOf(nodes[i], deletedNodes, StartupTime(nodes, startup, i), now)
    }
  }

  /** Which nodes a list is about. */
  datatype Scope = Everything | Within(group: GroupId) | Ungrouped {
    predicate Covers(n: Node) {
      match this
      case Everything => true
      case Within(g) => n.group == Some(g)
      case Ungrouped => n.group == None
    }
  }

  /** One node added to the statistics. */
  function AddNode(s: Stats, n: Node, c: Class): Stats {
    Stats(s.byClass[c := s.Of(c) + [n.name]], s.registered + [n.name], s.longUnregistered, s.unregistered,
          if c == Unready && n.resourceUnready then s.resourceUnready + [n.name] else s.resourceUnready)
  }

  /** The statistics of the first `i` nodes in scope. */
  ghost function Tally(c: Census, scope: Scope, i: nat): Stats
    requires i <= |c.nodes|
  {
    if i == 0 then EMPTY
    else
      var s := Tally(c, scope, i - 1);
      if scope.Covers(c.nodes[i-1]) then AddNode(s, c.nodes[i-1], c.ClassAt(i - 1)) else s
  }

  /** The names of the first `i` nodes that are in scope and in the given class, or in any class. */
  ghost function NamesOf(c: Census, scope: Scope, cls: Option<Class>, i: nat): seq<string>
    requires i <= |c.nodes|
  {
    if i == 0 then []
    else NamesOf(c, scope, cls, i - 1)
         + if scope.Covers(c.nodes[i-1]) && (cls.None? || cls.value == c.ClassAt(i - 1)) then [c.nodes[i-1].name]
             else []
  }

  /** Each list holds exactly the nodes of its class, in node order. */
  lemma {:induction false} TallyListsClasses(c: Census, scope: Scope, i: nat)
    requires i <= |c.nodes|
    ensures var s := Tally(c, scope, i);
      && s.registered == NamesOf(c, scope, None, i)
      && (forall k: Class :: s.Of(k) == NamesOf(c, scope, Some(k), i))
      && s.longUnregistered == [] && s.unregistered == []
  {
    if i > 0 {
      TallyListsClasses(c, scope, i - 1);
    }
  }

  ghost function Count(a: seq<string>, x: string): nat {
    multiset(a)[x]
  }

  lemma CountAppended(a: seq<string>, y: string, x: string)
    ensures Count(a + [y], x) == Count(a, x) + if x == y then 1 else 0
  {
  }

  /** A name occurs among the registered nodes as often as in all class lists together. */
  ghost predicate PartitionedAt(s: Stats, x: string) {
    Count(s.registered, x) ==
      Count(s.Of(Deleted), x) + Count(s.Of(Suspended), x) + Count(s.Of(Ready), x)
      + Count(s.Of(NotStarted), x) + Count(s.Of(Unready), x)
  }

  lemma AddNodePartitions(s: Stats, n: Node, c: Class, x: string)
    requires PartitionedAt(s, x)
    ensures PartitionedAt(AddNode(s, n, c), x)
  {
    CountAppended(s.registered, n.name, x);
    CountAppended(s.Of(c), n.name, x);
  }

  /** Every registered node in scope falls in exactly one class. */
  lemma {:induction false} ClassesPartition(c: Census, scope: Scope, i: nat, x: string)
    requires i <= |c.nodes|
    ensures PartitionedAt(Tally(c, scope, i), x)
  {
    if i > 0 {
      ClassesPartition(c, scope, i - 1, x);
      PartitionStep(c, scope, i, x);
    }
  }

  lemma PartitionStep(c: Census, scope: Scope, i: nat, x: string)
    requires 0 < i <= |c.nodes| && PartitionedAt(Tally(c, scope, i - 1), x)
    ensures PartitionedAt(Tally(c, scope, i), x)
  {
    var s, n, k := Tally(c, scope, i - 1), c.nodes[i-1], c.ClassAt(i - 1);
    if scope.Covers(n) {
      AddNodePartitions(s, n, k, x);
      assert Tally(c, scope, i) == AddNode(s, n, k);
    } else {
      assert Tally(c, scope, i) == s;
    }
  }

  /** The names that the groups list under a class, all together. */
  ghost function TotalNames(c: Census, groups: seq<GroupId>, k: Class, i: nat): multiset<string>
    requires i <= |c.nodes|
  {
    if groups == [] then multiset{}
    else TotalNames(c, groups[..|groups|-1], k, i) + multiset(Tally(c, Within(groups[|groups|-1]), i).Of(k))
  }

  ghost predicate Distinct(groups: seq<GroupId>) {
    forall a, b :: 0 <= a < b < |groups| ==> groups[a] != groups[b]
  }

  /** The name that node `i - 1` adds to a list of class `k` in scope. */
  ghost function Added(c: Census, covered: bool, k: Class, i: nat): multiset<string>
    requires 0 < i <= |c.nodes|
  {
    if covered && c.ClassAt(i - 1) == k then multiset{c.nodes[i-1].name} else multiset{}
  }

  /** A node of group `g` adds its name to the total of its class if `g` is among the groups. */
  lemma {:induction false} TotalStep(c: Census, groups: seq<GroupId>, k: Class, i: nat)
    requires 0 < i <= |c.nodes| && Distinct(groups)
    ensures var n := c.nodes[i-1];
      TotalNames(c, groups, k, i) == TotalNames(c, groups, k, i - 1)
        + Added(c, n.group.Some? && n.group.value in groups, k, i)
  {
    if groups != [] {
      var init, g := groups[..|groups|-1], groups[|groups|-1];
      TotalStep(c, init, k, i);
      TallyStep(c, Within(g), k, i);
      assert groups == init + [g];
      var n := c.nodes[i-1];
      Regroup(TotalNames(c, init, k, i - 1), Added(c, n.group.Some? && n.group.value in init, k, i),
          multiset(Tally(c, Within(g), i - 1).Of(k)), Added(c, Within(g).Covers(n), k, i),
          Added(c, n.group.Some? && n.group.value in groups, k, i));
    }
  }

  lemma Regroup(a: multiset<string>, x: multiset<string>, b: multiset<string>, y: multiset<string>,
      z: multiset<string>)
    requires z == x + y
    ensures (a + x) + (b + y) == (a + b) + z
  {
  }

  /** Class by class, the cluster lists the names that all groups and the ungrouped nodes list together,
      although the startup time is carried over from node to node. */
  lemma {:induction false} TotalsAddUp(c: Census, groups: seq<GroupId>, k: Class, i: nat)
    requires i <= |c.nodes| && Distinct(groups)
    requires forall n :: n in c.nodes && n.group.Some? ==> n.group.value in groups
    ensures multiset(Tally(c, Everything, i).Of(k)) ==
        multiset(Tally(c, Ungrouped, i).Of(k)) + TotalNames(c, groups, k, i)
  {
    if i == 0 {
      TotalOfNone(c, groups, k);
    } else {
      TotalsAddUp(c, groups, k, i - 1);
      TotalStep(c, groups, k, i);
      TallyStep(c, Everything, k, i);
      TallyStep(c, Ungrouped, k, i);
      AddedOnce(c, groups, k, i);
      SumsAgree(multiset(Tally(c, Everything, i - 1).Of(k)), multiset(Tally(c, Ungrouped, i - 1).Of(k)),
          TotalNames(c, groups, k, i - 1),
                Added(c, true, k, i), Added(c, Ungrouped.Covers(c.nodes[i-1]), k, i),
                Added(c, c.nodes[i-1].group.Some? && c.nodes[i-1].group.value in groups, k, i));
    }
  }

  /** A node adds its name once: to the ungrouped ones or to its group. */
  lemma AddedOnce(c: Census, groups: seq<GroupId>, k: Class, i: nat)
    requires 0 < i <= |c.nodes| && forall n :: n in c.nodes && n.group.Some? ==> n.group.value in groups
    ensures var n := c.nodes[i-1];
      Added(c, true, k, i) == Added(c, Ungrouped.Covers(n), k, i)
        + Added(c, n.group.Some? && n.group.value in groups, k, i)
  {
    assert c.nodes[i-1] in c.nodes;
  }

  lemma SumsAgree(a: multiset<string>, b: multiset<string>, t: multiset<string>, x: multiset<string>,
      y: multiset<string>, z: multiset<string>)
    requires a == b + t && x == y + z
    ensures a + x == (b + y) + (t + z)
  {
  }

  /** One more node adds its name to the list of its class, in the scopes that cover it. */
  lemma TallyStep(c: Census, scope: Scope, k: Class, i: nat)
    requires 0 < i <= |c.nodes|
    ensures multiset(Tally(c, scope, i).Of(k)) ==
        multiset(Tally(c, scope, i - 1).Of(k)) + Added(c, scope.Covers(c.nodes[i-1]), k, i)
  {
    var s, n := Tally(c, scope, i - 1), c.nodes[i-1];
    assert multiset(s.Of(k) + [n.name]) == multiset(s.Of(k)) + multiset{n.name};
  }

  lemma {:induction false} TotalOfNone(c: Census, groups: seq<GroupId>, k: Class)
    ensures TotalNames(c, groups, k, 0) == multiset{}
  {
    if groups != [] {
      TotalOfNone(c, groups[..|groups|-1], k);
    }
  }

  /** Unregistered instances of a group, by whether they exceeded the group's provision time. */
  datatype Waiting = Waiting(since: map<string, int>, groupOf: map<string, GroupId>, provision: map<GroupId, int>,
      now: int) {
    predicate Known(id: string) {
      id in since && id in groupOf && groupOf[id] in provision
    }

    predicate Long(id: string)
      requires Known(id)
    {
      since[id] + provision[groupOf[id]] < now
    }
  }

  ghost function LongIn(u: Waiting, g: GroupId): set<string> {
    set id | id in u.since && u.Known(id) && u.groupOf[id] == g && u.Long(id)
  }

  ghost function RecentIn(u: Waiting, g: GroupId): set<string> {
    set id | id in u.since && u.Known(id) && u.groupOf[id] == g && !u.Long(id)
  }

  ghost function AllLong(u: Waiting): set<string> {
    set id | id in u.since && u.Known(id) && u.Long(id)
  }

  ghost function AllRecent(u: Waiting): set<string> {
    set id | id in u.since && u.Known(id) && !u.Long(id)
  }

  /** The cluster's statistics, with the instances of `todo` still to be counted. */
  ghost predicate TotalStats(c: Census, u: Waiting, todo: set<string>, s: Stats) {
    && s.(longUnregistered := [], unregistered := []) == Tally(c, Everything, |c.nodes|)
    && multiset(s.longUnregistered) == multiset(AllLong(u) - todo)
    && multiset(s.unregistered) == multiset(AllRecent(u) - todo)
  }

  lemma TotalStatsStep(c: Census, u: Waiting, todo: set<string>, s: Stats, id: string)
    requires TotalStats(c, u, todo, s) && id in todo && id in u.since
    ensures TotalStats(c, u, todo - {id}, if u.Known(id) then AddInstance(u, s, id) else s)
  {
    AddedToSet(s.longUnregistered, AllLong(u), todo, id);
    AddedToSet(s.unregistered, AllRecent(u), todo, id);
  }

  lemma TotalStatsFirst(c: Census, u: Waiting)
    ensures TotalStats(c, u, u.since.Keys, Tally(c, Everything, |c.nodes|))
  {
    TallyListsClasses(c, Everything, |c.nodes|);
    assert AllLong(u) - u.since.Keys == {} && AllRecent(u) - u.since.Keys == {};
  }

  /** The groups that have statistics: those of some node and those of some unregistered instance. */
  ghost function GroupsSeen(c: Census, u: Waiting): set<GroupId> {
    (set i | 0 <= i < |c.nodes| && c.nodes[i].group.Some? :: c.nodes[i].group.value)
    + (set id | id in u.since && u.Known(id) :: u.groupOf[id])
  }

  /** The statistics of a group: its nodes in order, and its unregistered instances in any order. */
  ghost predicate GroupStats(c: Census, u: Waiting, g: GroupId, s: Stats) {
    && s.(longUnregistered := [], unregistered := []) == Tally(c, Within(g), |c.nodes|)
    && multiset(s.longUnregistered) == multiset(LongIn(u, g))
    && multiset(s.unregistered) == multiset(RecentIn(u, g))
  }

  method AddNodeStats(s: Stats, n: Node, deletedNodes: set<string>, startupTime: int, now: int) returns (r: Stats)
    ensures r == AddNode(s, n, ClassOf(n, deletedNodes, startupTime, now))
  {
    r := s.(registered := s.registered + [n.name]);
    if n.name in deletedNodes {
      r := r.(byClass := r.byClass[Deleted := r.Of(Deleted) + [n.name]]);
    } else if n.suspended {
      r := r.(byClass := r.byClass[Suspended := r.Of(Suspended) + [n.name]]);
    } else if n.ready {
      r := r.(byClass := r.byClass[Ready := r.Of(Ready) + [n.name]]);
    } else if n.created + startupTime > now {
      r := r.(byClass := r.byClass[NotStarted := r.Of(NotStarted) + [n.name]]);
    } else {
      r := r.(byClass := r.byClass[Unready := r.Of(Unready) + [n.name]]);
      if n.resourceUnready {
        r := r.(resourceUnready := r.resourceUnready + [n.name]);
      }
    }
  }

  ghost predicate SomeNodeIn(c: Census, g: GroupId, i: nat)
    requires i <= |c.nodes|
  {
    exists j :: 0 <= j < i && c.nodes[j].group == Some(g)
  }

  /** The statistics per group after the first `i` nodes. */
  ghost predicate Counted(c: Census, perGroup: map<GroupId, Stats>, i: nat)
    requires i <= |c.nodes|
  {
    && (forall g :: g in perGroup <==> SomeNodeIn(c, g, i))
    && (forall g :: g in perGroup ==> perGroup[g] == Tally(c, Within(g), i))
  }

  /** Counting one more node. */
  lemma CountedStep(c: Census, perGroup: map<GroupId, Stats>, i: nat)
    requires i < |c.nodes| && Counted(c, perGroup, i)
    ensures var n := c.nodes[i];
      if n.group.None? then Counted(c, perGroup, i + 1)
      else
        var g := n.group.value;
        Counted(c, perGroup[g := AddNode(if g in perGroup then perGroup[g] else EMPTY, n, c.ClassAt(i))], i + 1)
  {
    var n := c.nodes[i];
    forall g ensures SomeNodeIn(c, g, i + 1) <==> SomeNodeIn(c, g, i) || n.group == Some(g) {
      if SomeNodeIn(c, g, i) {
        var j :| 0 <= j < i && c.nodes[j].group == Some(g);
        assert c.nodes[j].group == Some(g);
      }
    }
    if n.group.Some? && n.group.value !in perGroup {
      UnseenUpTo(c, n.group.value, i);
    }
  }

  /** The first loop: all registered nodes. The startup time is a variable that survives each node. */
  method CountNodes(c: Census) returns (perGroup: map<GroupId, Stats>, total: Stats)
    ensures total == Tally(c, Everything, |c.nodes|)
    ensures Counted(c, perGroup, |c.nodes|)
  {
    perGroup, total := map[], EMPTY;
    var startupTime := MAX_NODE_STARTUP_TIME;
    for i := 0 to |c.nodes|
      invariant startupTime == if i == 0 then MAX_NODE_STARTUP_TIME else StartupTime(c.nodes, c.startup, i - 1)
      invariant total == Tally(c, Everything, i)
      invariant Counted(c, perGroup, i)
    {
      var n := c.nodes[i];
      CountedStep(c, perGroup, i);
      if !n.lookupFailed && n.group.Some? && n.group.value in c.startup {
        startupTime := c.startup[n.group.value];
      }
      if n.group.Some? {
        var g := n.group.value;
        var s := AddNodeStats(if g in perGroup then perGroup[g] else EMPTY, n, c.deletedNodes, startupTime, c.now);
        perGroup := perGroup[g := s];
      }
      total := AddNodeStats(total, n, c.deletedNodes, startupTime, c.now);
    }
  }

  /** The statistics of a group when the instances of `todo` are still to be counted. */
  ghost predicate PartStats(c: Census, u: Waiting, todo: set<string>, g: GroupId, s: Stats) {
    && s.(longUnregistered := [], unregistered := []) == Tally(c, Within(g), |c.nodes|)
    && multiset(s.longUnregistered) == multiset(LongIn(u, g) - todo)
    && multiset(s.unregistered) == multiset(RecentIn(u, g) - todo)
  }

  ghost predicate SomeInstanceIn(u: Waiting, g: GroupId, todo: set<string>) {
    exists id :: id in u.since && id !in todo && u.Known(id) && u.groupOf[id] == g
  }

  /** The statistics of all groups when the instances of `todo` are still to be counted. */
  ghost predicate PartCounted(c: Census, u: Waiting, todo: set<string>, perGroup: map<GroupId, Stats>) {
    && (forall g :: g in perGroup <==> SomeNodeIn(c, g, |c.nodes|) || SomeInstanceIn(u, g, todo))
    && (forall g :: g in perGroup ==> PartStats(c, u, todo, g, perGroup[g]))
  }

  function AddInstance(u: Waiting, s: Stats, id: string): Stats
    requires u.Known(id)
  {
    if u.Long(id) then s.(longUnregistered := s.longUnregistered + [id])
    else s.(unregistered := s.unregistered + [id])
  }

  lemma AddedToSet(a: seq<string>, s: set<string>, todo: set<string>, id: string)
    requires multiset(a) == multiset(s - todo) && id in todo
    ensures id in s ==> multiset(a + [id]) == multiset(s - (todo - {id}))
    ensures id !in s ==> multiset(a) == multiset(s - (todo - {id}))
  {
    if id in s {
      assert s - (todo - {id}) == (s - todo) + {id};
    } else {
      assert s - (todo - {id}) == s - todo;
    }
  }

  /** A group's statistics after one instance, which may be of another group. */
  lemma PartStatsStep(c: Census, u: Waiting, todo: set<string>, g: GroupId, s: Stats, id: string)
    requires PartStats(c, u, todo, g, s) && id in todo && id in u.since
    ensures if u.Known(id) && u.groupOf[id] == g then PartStats(c, u, todo - {id}, g, AddInstance(u, s, id))
            else PartStats(c, u, todo - {id}, g, s)
  {
    AddedToSet(s.longUnregistered, LongIn(u, g), todo, id);
    AddedToSet(s.unregistered, RecentIn(u, g), todo, id);
  }

  /** A group without nodes and without instances counted so far has empty statistics. */
  lemma EmptyPart(c: Census, u: Waiting, todo: set<string>, g: GroupId)
    requires !SomeNodeIn(c, g, |c.nodes|) && !SomeInstanceIn(u, g, todo)
    ensures PartStats(c, u, todo, g, EMPTY)
  {
    UnseenUpTo(c, g, |c.nodes|);
    assert LongIn(u, g) - todo == {} && RecentIn(u, g) - todo == {};
  }

  lemma PartCountedStep(c: Census, u: Waiting, todo: set<string>, perGroup: map<GroupId, Stats>, id: string)
    requires PartCounted(c, u, todo, perGroup) && id in todo && id in u.since
    ensures if !u.Known(id) then PartCounted(c, u, todo - {id}, perGroup)
            else
              var g := u.groupOf[id];
              PartCounted(c, u, todo - {id},
                  perGroup[g := AddInstance(u, if g in perGroup then perGroup[g] else EMPTY, id)])
  {
    forall g | g in perGroup
      ensures u.Known(id) && u.groupOf[id] == g ==> PartStats(c, u, todo - {id}, g, AddInstance(u, perGroup[g], id))
      ensures !(u.Known(id) && u.groupOf[id] == g) ==> PartStats(c, u, todo - {id}, g, perGroup[g])
    {
      PartStatsStep(c, u, todo, g, perGroup[g], id);
    }
    forall g ensures SomeInstanceIn(u, g, todo - {id}) <==>
        SomeInstanceIn(u, g, todo) || (u.Known(id) && u.groupOf[id] == g) {
      InstanceStep(u, g, todo, id);
    }
    if u.Known(id) && u.groupOf[id] !in perGroup {
      EmptyPart(c, u, todo, u.groupOf[id]);
      PartStatsStep(c, u, todo, u.groupOf[id], EMPTY, id);
    }
  }

  lemma InstanceStep(u: Waiting, g: GroupId, todo: set<string>, id: string)
    requires id in todo && id in u.since
    ensures SomeInstanceIn(u, g, todo - {id}) <==> SomeInstanceIn(u, g, todo) || (u.Known(id) && u.groupOf[id] == g)
  {
    if SomeInstanceIn(u, g, todo) {
      var x :| x in u.since && x !in todo && u.Known(x) && u.groupOf[x] == g;
      assert x !in todo - {id};
    }
    if SomeInstanceIn(u, g, todo - {id}) {
      var x :| x in u.since && x !in todo - {id} && u.Known(x) && u.groupOf[x] == g;
      assert x == id || x !in todo;
    }
  }

  lemma CountedIsPart(c: Census, u: Waiting, perGroup: map<GroupId, Stats>)
    requires Counted(c, perGroup, |c.nodes|)
    ensures PartCounted(c, u, u.since.Keys, perGroup)
  {
    forall g | g in perGroup ensures PartStats(c, u, u.since.Keys, g, perGroup[g]) {
      TallyListsClasses(c, Within(g), |c.nodes|);
      assert LongIn(u, g) - u.since.Keys == {} && RecentIn(u, g) - u.since.Keys == {};
    }
  }

  lemma AllCounted(c: Census, u: Waiting, perGroup: map<GroupId, Stats>)
    requires PartCounted(c, u, {}, perGroup)
    ensures perGroup.Keys == GroupsSeen(c, u)
    ensures forall g :: g in perGroup ==> GroupStats(c, u, g, perGroup[g])
  {
    forall g | g in perGroup ensures GroupStats(c, u, g, perGroup[g]) {
      assert PartStats(c, u, {}, g, perGroup[g]);
      assert LongIn(u, g) - {} == LongIn(u, g) && RecentIn(u, g) - {} == RecentIn(u, g);
    }
    forall g ensures g in perGroup <==> g in GroupsSeen(c, u) {
    }
  }

  /** Both loops: the statistics of every group seen, and of the cluster. */
  method UpdateReadinessStats(c: Census, u: Waiting) returns (perGroup: map<GroupId, Stats>, total: Stats)
    ensures perGroup.Keys == GroupsSeen(c, u)
    ensures forall g :: g in perGroup ==> GroupStats(c, u, g, perGroup[g])
    ensures TotalStats(c, u, {}, total)
  {
    perGroup, total := CountNodes(c);
    CountedIsPart(c, u, perGroup);
    TotalStatsFirst(c, u);
    var todo := u.since.Keys;
    while todo != {}
      invariant todo <= u.since.Keys
      invariant PartCounted(c, u, todo, perGroup)
      invariant TotalStats(c, u, todo, total)
      decreases todo
    {
      var id :| id in todo;
      PartCountedStep(c, u, todo, perGroup, id);
      TotalStatsStep(c, u, todo, total, id);
      todo := todo - {id};
      if u.Known(id) {
        var g := u.groupOf[id];
        perGroup := perGroup[g := AddInstance(u, if g in perGroup then perGroup[g] else EMPTY, id)];
        total := AddInstance(u, total, id);
      }
    }
    AllCounted(c, u, perGroup);
  }

  lemma {:induction false} UnseenUpTo(c: Census, g: GroupId, i: nat)
    requires i <= |c.nodes| && !SomeNodeIn(c, g, i)
    ensures Tally(c, Within(g), i) == EMPTY
  {
    if i > 0 {
      UnseenUpTo(c, g, i - 1);
    }
  }

  // ----- the lists in terms of the nodes -----

  /** The startup time of the node's own group is known. */
  ghost predicate OwnStartup(nodes: seq<Node>, startup: map<GroupId, int>, i: nat)
    requires i < |nodes|
  {
    !nodes[i].lookupFailed && nodes[i].group.Some? && nodes[i].group.value in startup
  }

  /** Node `j` is the last one up to `i` whose group has a known startup time. */
  ghost predicate LastOwn(nodes: seq<Node>, startup: map<GroupId, int>, i: nat, j: nat)
    requires i < |nodes|
  {
    j <= i && OwnStartup(nodes, startup, j) && forall k :: j < k <= i ==> !OwnStartup(nodes, startup, k)
  }

  /** The startup time in effect is that of the last node so far whose group has a known one, and fifteen minutes before
      there is such a node. */
  lemma {:induction false} StartupMeans(nodes: seq<Node>, startup: map<GroupId, int>, i: nat, j: nat)
    requires i < |nodes|
    ensures LastOwn(nodes, startup, i, j) ==> StartupTime(nodes, startup, i) == startup[nodes[j].group.value]
    ensures (forall k :: 0 <= k <= i ==> !OwnStartup(nodes, startup, k)) ==> StartupTime(nodes, startup, i) == 15 * 60
  {
    if OwnStartup(nodes, startup, i) {
      assert LastOwn(nodes, startup, i, j) ==> j == i;
    } else if i > 0 {
      StartupMeans(nodes, startup, i - 1, j);
      assert LastOwn(nodes, startup, i, j) ==> LastOwn(nodes, startup, i - 1, j);
    }
  }

  /** Which list a node belongs to, by its condition and its age. */
  ghost predicate Belongs(c: Census, i: nat, k: Class)
    requires i < |c.nodes|
  {
    var n := c.nodes[i];
    var young := n.created + StartupTime(c.nodes, c.startup, i) > c.now;
    if n.name in c.deletedNodes then k == Deleted
    else
      && (k == Suspended <==> n.suspended)
      && (k == Ready <==> n.ready && !n.suspended)
      && (k == NotStarted <==> !n.ready && !n.suspended && young)
      && (k == Unready <==> !n.ready && !n.suspended && !young)
  }

  ghost predicate ListedUnder(c: Census, scope: Scope, k: Class, n: nat, x: string)
    requires n <= |c.nodes|
  {
    exists i: nat :: i < n && c.nodes[i].name == x && scope.Covers(c.nodes[i]) && Belongs(c, i, k)
  }

  lemma ListedSnoc(c: Census, scope: Scope, k: Class, n: nat, x: string)
    requires n < |c.nodes|
    ensures ListedUnder(c, scope, k, n + 1, x) <==>
      ListedUnder(c, scope, k, n, x) || (c.nodes[n].name == x && scope.Covers(c.nodes[n]) && Belongs(c, n, k))
  {
    if ListedUnder(c, scope, k, n, x) {
      var i: nat :| i < n && c.nodes[i].name == x && scope.Covers(c.nodes[i]) && Belongs(c, i, k);
      assert i < n + 1;
    }
  }

  lemma ClassMeans(c: Census, i: nat, k: Class)
    requires i < |c.nodes|
    ensures c.ClassAt(i) == k <==> Belongs(c, i, k)
  {
  }

  /** A name is in the list of a class exactly when a node in scope with that name belongs there. */
  lemma {:induction false} ListsMean(c: Census, scope: Scope, n: nat, k: Class, x: string)
    requires n <= |c.nodes|
    ensures x in Tally(c, scope, n).Of(k) <==> ListedUnder(c, scope, k, n, x)
  {
    if n > 0 {
      ListsMean(c, scope, n - 1, k, x);
      ListedSnoc(c, scope, k, n - 1, x);
      ClassMeans(c, n - 1, k);
    }
  }

  /** The statistics of a group, and of the cluster, list every name where it belongs. */
  lemma StatsMean(c: Census, u: Waiting, g: GroupId, s: Stats, total: Stats, k: Class, x: string)
    requires GroupStats(c, u, g, s) && TotalStats(c, u, {}, total)
    ensures x in s.Of(k) <==> ListedUnder(c, Within(g), k, |c.nodes|, x)
    ensures x in total.Of(k) <==> ListedUnder(c, Everything, k, |c.nodes|, x)
  {
    ListsMean(c, Within(g), |c.nodes|, k, x);
    ListsMean(c, Everything, |c.nodes|, k, x);
    assert s.Of(k) == Tally(c, Within(g), |c.nodes|).Of(k) && total.Of(k) == Tally(c, Everything, |c.nodes|).Of(k);
  }
}
