/**
  The registry's ledger of scale-up and scale-down requests: registering and reducing requests,
  finishing and timing them out, charging instances that failed to be created, and the acceptable
  sizes that follow from the open requests.
 */
module ScaleRequests {
  import opened Wrappers
  import Readiness

  type GroupId = Readiness.GroupId

  datatype ScaleUpRequest = ScaleUpRequest(increase: int, time: int, expectedAddTime: int)

  datatype ScaleDownRequest = ScaleDownRequest(nodeName: string, group: GroupId, expectedDeleteTime: int)

  type Requests = map<GroupId, ScaleUpRequest>

  ghost predicate AllPositive(rs: Requests) {
    forall g :: g in rs ==> rs[g].increase > 0
  }

  /** Registering an increase, or reducing an open request; `provision` is None when the provision time is unknown. */
  function RegisterOrUpdate(rs: Requests, g: GroupId, delta: int, now: int, provision: Option<int>): Requests {
    if provision.None? then rs
    else if g !in rs then
      if delta > 0 then rs[g := ScaleUpRequest(delta, now, now + provision.value)] else rs
    else if rs[g].increase + delta <= 0 then rs - {g}
    else if delta > 0 then rs[g := ScaleUpRequest(rs[g].increase + delta, now, now + provision.value)]
    else rs[g := rs[g].(increase := rs[g].increase + delta)]
  }

  /** Open requests keep a positive increase, and only the group registered changes. */
  lemma RegisterKeepsPositive(rs: Requests, g: GroupId, delta: int, now: int, provision: Option<int>)
    requires AllPositive(rs)
    ensures AllPositive(RegisterOrUpdate(rs, g, delta, now, provision))
    ensures forall k :: k != g ==> (k in RegisterOrUpdate(rs, g, delta, now, provision) <==> k in rs)
    ensures forall k :: k != g && k in rs ==> RegisterOrUpdate(rs, g, delta, now, provision)[k] == rs[k]
  {
  }

  // ----- finishing and timing out -----

  datatype Range = Range(minNodes: int, maxNodes: int, currentTarget: int)

  /** What is kept of a request: groups still being created, and groups with nodes to come before the deadline. */
  predicate Survives(r: ScaleUpRequest, async: bool, upcoming: int, now: int) {
    async || (upcoming > 0 && r.expectedAddTime >= now)
  }

  /** A request that ran out of time is reverted by lowering the target by its increase. */
  predicate TimesOut(r: ScaleUpRequest, async: bool, upcoming: int, now: int) {
    !async && upcoming > 0 && r.expectedAddTime < now
  }

  /** The requests that survive an update. */
  function Survivors(rs: Requests, async: set<GroupId>, upcoming: map<GroupId, int>, now: int): Requests
    requires forall g :: g in rs ==> g in upcoming
  {
    map g | g in rs && Survives(rs[g], g in async, upcoming[g], now) :: rs[g]
  }

  datatype Decrease = Decrease(group: GroupId, delta: int)

  /** The loop over open requests, in any order; `decreases` are the targets it asked to lower. */
  method UpdateScaleUpRequests(rs: Requests, async: set<GroupId>, upcoming: map<GroupId, int>, now: int)
    returns (kept: Requests, lowered: seq<Decrease>)
    requires forall g :: g in rs ==> g in upcoming
    ensures kept == Survivors(rs, async, upcoming, now)
    ensures forall d :: d in lowered ==>
      d.group in rs && TimesOut(rs[d.group], d.group in async, upcoming[d.group], now)
          && d.delta == -rs[d.group].increase && d.delta < 0
    ensures forall g :: g in rs && TimesOut(rs[g], g in async, upcoming[g], now) && rs[g].increase > 0 ==>
        Decrease(g, -rs[g].increase) in lowered
  {
    kept, lowered := rs, [];
    var todo := rs.Keys;
    while todo != {}
      invariant todo <= rs.Keys
      invariant kept.Keys == set g | g in rs && (g in todo || Survives(rs[g], g in async, upcoming[g], now))
      invariant forall g :: g in kept ==> kept[g] == rs[g]
      invariant forall d :: d in lowered ==>
        d.group in rs && TimesOut(rs[d.group], d.group in async, upcoming[d.group], now)
            && d.delta == -rs[d.group].increase && d.delta < 0
      invariant forall g ::
          g in rs && g !in todo && TimesOut(rs[g], g in async, upcoming[g], now) && rs[g].increase > 0 ==>
          Decrease(g, -rs[g].increase) in lowered
      decreases todo
    {
      var g :| g in todo;
      todo := todo - {g};
      if g in async {
        continue;
      }
      if upcoming[g] <= 0 {
        kept := kept - {g};
        continue;
      }
      if rs[g].expectedAddTime < now {
        if rs[g].increase > 0 {
          lowered := lowered + [Decrease(g, -rs[g].increase)];
        }
        kept := kept - {g};
      }
    }
  }

  function Pending(ds: seq<ScaleDownRequest>, now: int): seq<ScaleDownRequest> {
    if ds == [] then []
    else Pending(ds[..|ds|-1], now) + if ds[|ds|-1].expectedDeleteTime > now then [ds[|ds|-1]] else []
  }

  lemma {:induction false} PendingExpireLater(ds: seq<ScaleDownRequest>, now: int)
    ensures forall d :: d in Pending(ds, now) <==> d in ds && d.expectedDeleteTime > now
  {
    if ds != [] {
      PendingExpireLater(ds[..|ds|-1], now);
      assert ds == ds[..|ds|-1] + [ds[|ds|-1]];
    }
  }

  method UpdateScaleDownRequests(ds: seq<ScaleDownRequest>, now: int) returns (kept: seq<ScaleDownRequest>)
    ensures kept == Pending(ds, now)
  {
    kept := [];
    for i := 0 to |ds|
      invariant kept == Pending(ds[..i], now)
    {
      assert ds[..i+1][..i] == ds[..i];
      if ds[i].expectedDeleteTime > now {
        kept := kept + [ds[i]];
      }
    }
    assert ds[..|ds|] == ds;
  }

  // ----- acceptable ranges -----

  function PendingIn(ds: seq<ScaleDownRequest>, g: GroupId): nat {
    if ds == [] then 0 else PendingIn(ds[..|ds|-1], g) + if ds[|ds|-1].group == g then 1 else 0
  }

  function Increase(rs: Requests, g: GroupId): int {
    if g in rs then rs[g].increase else 0
  }

  function Lookup(m: map<GroupId, int>, g: GroupId): int {
    if g in m then m[g] else 0
  }

  /** The range of a group before requests are taken into account; zero for groups that are not running. */
  function BaseRange(g: GroupId, running: seq<GroupId>, targets: map<GroupId, int>, long: map<GroupId, int>): Range {
    if g in running then Range(Lookup(targets, g) - Lookup(long, g), Lookup(targets, g), Lookup(targets, g))
        else Range(0, 0, 0)
  }

  /** The acceptable range of a group: from target - long unregistered - increase to target + pending deletions. */
  function RangeOf(g: GroupId, running: seq<GroupId>, targets: map<GroupId, int>, long: map<GroupId, int>,
      rs: Requests, ds: seq<ScaleDownRequest>): Range {
    var b := BaseRange(g, running, targets, long);
    Range(b.minNodes - Increase(rs, g), b.maxNodes + PendingIn(ds, g), b.currentTarget)
  }

  ghost predicate HasRange(g: GroupId, running: seq<GroupId>, rs: Requests, ds: seq<ScaleDownRequest>) {
    g in running || g in rs || exists d :: d in ds && d.group == g
  }

  /** The entry of a map of ranges, with the zero range for missing groups. */
  function RangeAt(m: map<GroupId, Range>, g: GroupId): Range {
    if g in m then m[g] else Range(0, 0, 0)
  }

  /** The ranges are those of the given requests, and only for groups that are running or have a request. */
  ghost predicate RangesAre(ranges: map<GroupId, Range>, running: seq<GroupId>, targets: map<GroupId, int>,
      long: map<GroupId, int>, rs: Requests, ds: seq<ScaleDownRequest>) {
    && (forall g :: g in ranges <==> HasRange(g, running, rs, ds))
    && (forall g :: RangeAt(ranges, g) == RangeOf(g, running, targets, long, rs, ds))
  }

  lemma RangesAfterUp(ranges: map<GroupId, Range>, running: seq<GroupId>, targets: map<GroupId, int>,
      long: map<GroupId, int>, rs: Requests, g: GroupId, r: ScaleUpRequest)
    requires RangesAre(ranges, running, targets, long, rs, []) && g !in rs
    ensures var a := RangeAt(ranges, g);
      RangesAre(ranges[g := a.(minNodes := a.minNodes - r.increase)], running, targets, long, rs[g := r], [])
  {
    var a := RangeAt(ranges, g);
    var after := ranges[g := a.(minNodes := a.minNodes - r.increase)];
    forall k ensures RangeAt(after, k) == RangeOf(k, running, targets, long, rs[g := r], []) {
      assert RangeAt(ranges, k) == RangeOf(k, running, targets, long, rs, []);
    }
  }

  lemma RangesAfterDown(ranges: map<GroupId, Range>, running: seq<GroupId>, targets: map<GroupId, int>,
      long: map<GroupId, int>, rs: Requests, ds: seq<ScaleDownRequest>, d: ScaleDownRequest)
    requires RangesAre(ranges, running, targets, long, rs, ds)
    ensures var a := RangeAt(ranges, d.group);
      RangesAre(ranges[d.group := a.(maxNodes := a.maxNodes + 1)], running, targets, long, rs, ds + [d])
  {
    var a := RangeAt(ranges, d.group);
    var after := ranges[d.group := a.(maxNodes := a.maxNodes + 1)];
    assert (ds + [d])[..|ds|] == ds;
    forall k ensures RangeAt(after, k) == RangeOf(k, running, targets, long, rs, ds + [d]) {
      assert RangeAt(ranges, k) == RangeOf(k, running, targets, long, rs, ds);
    }
    forall k ensures HasRange(k, running, rs, ds + [d]) <==> HasRange(k, running, rs, ds) || k == d.group {
      assert d in ds + [d];
    }
  }

  /** Three passes: running groups, scale-up requests in any order, scale-down requests. */
  method UpdateAcceptableRanges(running: seq<GroupId>, targets: map<GroupId, int>, long: map<GroupId, int>,
      rs: Requests, ds: seq<ScaleDownRequest>)
    returns (ranges: map<GroupId, Range>)
    ensures RangesAre(ranges, running, targets, long, rs, ds)
  {
    ranges := map[];
    for i := 0 to |running|
      invariant forall g :: g in ranges <==> g in running[..i]
      invariant forall g :: g in ranges ==> ranges[g] == BaseRange(g, running, targets, long)
    {
      var g := running[i];
      ranges := ranges[g := Range(Lookup(targets, g) - Lookup(long, g), Lookup(targets, g), Lookup(targets, g))];
    }
    assert running[..|running|] == running;
    var todo := rs.Keys;
    assert rs - todo == map[];
    while todo != {}
      invariant todo <= rs.Keys
      invariant RangesAre(ranges, running, targets, long, rs - todo, [])
      decreases todo
    {
      var g :| g in todo;
      RangesAfterUp(ranges, running, targets, long, rs - todo, g, rs[g]);
      assert (rs - todo)[g := rs[g]] == rs - (todo - {g});
      todo := todo - {g};
      var r := RangeAt(ranges, g);
      ranges := ranges[g := r.(minNodes := r.minNodes - rs[g].increase)];
    }
    assert rs - {} == rs;
    for i := 0 to |ds|
      invariant RangesAre(ranges, running, targets, long, rs, ds[..i])
    {
      RangesAfterDown(ranges, running, targets, long, rs, ds[..i], ds[i]);
      assert ds[..i+1] == ds[..i] + [ds[i]];
      var g := ds[i].group;
      var r := RangeAt(ranges, g);
      ranges := ranges[g := r.(maxNodes := r.maxNodes + 1)];
    }
    assert ds[..|ds|] == ds;
  }

  // ----- instances that failed to be created -----

  datatype InstanceState = Running | Creating | Deleting
  datatype ErrorCode = ErrorCode(code: string, class_: nat)
  datatype InstanceStatus = InstanceStatus(state: InstanceState, error: Option<ErrorCode>)
  datatype Instance = Instance(id: string, status: Option<InstanceStatus>)

  predicate CreatingWithError(i: Instance) {
    i.status.Some? && i.status.value.state == Creating && i.status.value.error.Some?
  }

  /** The identities of the instances in creating-with-error. */
  function ErrorIds(xs: seq<Instance>): set<string> {
    set k | 0 <= k < |xs| && CreatingWithError(xs[k]) :: xs[k].id
  }

  /** Instances newly in creating-with-error, with a code among `codes`; None means any code. */
  ghost function NewErrors(xs: seq<Instance>, seen: set<string>, codes: Option<set<ErrorCode>>): nat {
    if xs == [] then 0
    else
      var x := xs[|xs|-1];
      NewErrors(xs[..|xs|-1], seen, codes)
      + if CreatingWithError(x) && x.id !in seen && (codes.None? || x.status.value.error.value in codes.value) then 1
          else 0
  }

  /** Instances of each error code, in listing order. */
  function ByCode(xs: seq<Instance>): map<ErrorCode, seq<Instance>> {
    if xs == [] then map[]
    else
      var m, x := ByCode(xs[..|xs|-1]), xs[|xs|-1];
      if !CreatingWithError(x) then m
      else
        var c := x.status.value.error.value;
        m[c := (if c in m then m[c] else []) + [x]]
  }

  method BuildErrorCodeMappings(xs: seq<Instance>) returns (ids: set<string>, byCode: map<ErrorCode, seq<Instance>>)
    ensures ids == ErrorIds(xs) && byCode == ByCode(xs)
  {
    ids, byCode := {}, map[];
    for i := 0 to |xs|
      invariant ids == ErrorIds(xs[..i]) && byCode == ByCode(xs[..i])
    {
      assert xs[..i+1][..i] == xs[..i];
      ErrorIdsSnoc(xs[..i], xs[i]);
      assert xs[..i+1] == xs[..i] + [xs[i]];
      if CreatingWithError(xs[i]) {
        var c := xs[i].status.value.error.value;
        ids := ids + {xs[i].id};
        byCode := byCode[c := (if c in byCode then byCode[c] else []) + [xs[i]]];
      }
    }
    assert xs[..|xs|] == xs;
  }

  lemma ErrorIdsSnoc(xs: seq<Instance>, x: Instance)
    ensures ErrorIds(xs + [x]) == ErrorIds(xs) + if CreatingWithError(x) then {x.id} else {}
  {
    forall id | id in ErrorIds(xs) ensures id in ErrorIds(xs + [x]) {
      var k :| 0 <= k < |xs| && CreatingWithError(xs[k]) && xs[k].id == id;
      assert (xs + [x])[k] == xs[k];
    }
    assert (xs + [x])[|xs|] == x;
  }

  function Unseen(xs: seq<Instance>, seen: set<string>): nat {
    if xs == [] then 0 else Unseen(xs[..|xs|-1], seen) + if xs[|xs|-1].id !in seen then 1 else 0
  }

  /** The unseen instances listed under a code are the new errors with that code. */
  lemma {:induction false} UnseenIsNew(xs: seq<Instance>, seen: set<string>, c: ErrorCode)
    ensures (if c in ByCode(xs) then Unseen(ByCode(xs)[c], seen) else 0) == NewErrors(xs, seen, Some({c}))
  {
    if xs != [] {
      UnseenIsNew(xs[..|xs|-1], seen, c);
      var m, x := ByCode(xs[..|xs|-1]), xs[|xs|-1];
      if CreatingWithError(x) && x.status.value.error.value == c {
        var prev := if c in m then m[c] else [];
        assert (prev + [x])[..|prev|] == prev;
      }
    }
  }

  lemma {:induction false} NewErrorsAdd(xs: seq<Instance>, seen: set<string>, codes: set<ErrorCode>, c: ErrorCode)
    requires c !in codes
    ensures NewErrors(xs, seen, Some(codes + {c})) == NewErrors(xs, seen, Some(codes)) + NewErrors(xs, seen, Some({c}))
  {
    if xs != [] {
      NewErrorsAdd(xs[..|xs|-1], seen, codes, c);
    }
  }

  lemma {:induction false} NewErrorsAll(xs: seq<Instance>, seen: set<string>, codes: set<ErrorCode>)
    requires ByCode(xs).Keys <= codes
    ensures NewErrors(xs, seen, Some(codes)) == NewErrors(xs, seen, None)
  {
    if xs != [] {
      assert ByCode(xs[..|xs|-1]).Keys <= ByCode(xs).Keys;
      NewErrorsAll(xs[..|xs|-1], seen, codes);
    }
  }

  lemma {:induction false} NewErrorsNone(xs: seq<Instance>, seen: set<string>)
    ensures NewErrors(xs, seen, Some({})) == 0
  {
    if xs != [] {
      NewErrorsNone(xs[..|xs|-1], seen);
    }
  }

  /** Saturating reduction of a scaling-up group's request: it disappears when `n` reaches the increase. */
  ghost function Charged(rs: Requests, g: GroupId, n: nat, upcoming: int): Requests {
    if n == 0 || upcoming <= 0 || g !in rs then rs
    else if rs[g].increase <= n then rs - {g}
    else rs[g := rs[g].(increase := rs[g].increase - n)]
  }

  /** Charging in two steps is charging the sum. */
  lemma ChargedTwice(rs: Requests, g: GroupId, m: nat, n: nat, upcoming: int)
    requires AllPositive(rs)
    ensures Charged(Charged(rs, g, m, upcoming), g, n, upcoming) == Charged(rs, g, m + n, upcoming)
    ensures AllPositive(Charged(rs, g, m, upcoming))
  {
  }

  /**
    One group's error handling: whatever the order of the error codes, the open request of a group
    with upcoming nodes is reduced by the number of instances newly in creating-with-error.
   */
  method HandleInstanceCreationErrors(rs: Requests, g: GroupId, current: seq<Instance>, previous: seq<Instance>,
      upcoming: int, now: int, provision: Option<int>)
    returns (after: Requests)
    requires AllPositive(rs)
    ensures after == if provision.None? then rs
        else Charged(rs, g, NewErrors(current, ErrorIds(previous), None), upcoming)
  {
    var currentIds, byCode := BuildErrorCodeMappings(current);
    var seen, previousByCode := BuildErrorCodeMappings(previous);
    after := rs;
    var todo := byCode.Keys;
    NewErrorsNone(current, seen);
    assert byCode.Keys - todo == {};
    while todo != {}
      invariant todo <= byCode.Keys && AllPositive(after)
      invariant after == if provision.None? then rs
          else Charged(rs, g, NewErrors(current, seen, Some(byCode.Keys - todo)), upcoming)
      decreases todo
    {
      var c :| c in todo;
      ghost var done := byCode.Keys - todo;
      todo := todo - {c};
      assert byCode.Keys - todo == done + {c};
      var unseen: int := Unseen(byCode[c], seen);
      UnseenIsNew(current, seen, c);
      NewErrorsAdd(current, seen, done, c);
      ChargedTwice(rs, g, NewErrors(current, seen, Some(done)), unseen, upcoming);
      ChargedTwice(rs, g, NewErrors(current, seen, Some(done + {c})), 0, upcoming);
      if unseen > 0 && upcoming > 0 && g in after {
        after := RegisterOrUpdate(after, g, -unseen, now, provision);
      }
    }
    assert byCode.Keys - {} == byCode.Keys;
    NewErrorsAll(current, seen, byCode.Keys);
  }

  ghost predicate DistinctIds(xs: seq<Instance>) {
    forall a, b :: 0 <= a < b < |xs| ==> xs[a].id != xs[b].id
  }

  lemma FreshId(xs: seq<Instance>, x: Instance)
    requires DistinctIds(xs + [x])
    ensures DistinctIds(xs) && x.id !in ErrorIds(xs)
  {
    forall a, b | 0 <= a < b < |xs| ensures xs[a].id != xs[b].id {
      assert (xs + [x])[a] == xs[a] && (xs + [x])[b] == xs[b];
    }
    forall k | 0 <= k < |xs| ensures xs[k].id != x.id {
      assert (xs + [x])[k] == xs[k] && (xs + [x])[|xs|] == x;
    }
  }

  lemma OneMore(ids: set<string>, seen: set<string>, x: string)
    requires x !in ids
    ensures |ids + {x} - seen| == |ids - seen| + if x in seen then 0 else 1
  {
    if x in seen {
      assert ids + {x} - seen == ids - seen;
    } else {
      assert ids + {x} - seen == (ids - seen) + {x};
    }
  }

  /** The instances charged by one update are those in error now and not in the previous listing. */
  lemma {:induction false} NewErrorsCountIds(xs: seq<Instance>, seen: set<string>)
    requires DistinctIds(xs)
    ensures NewErrors(xs, seen, None) == |ErrorIds(xs) - seen|
  {
    if xs != [] {
      var init, x := xs[..|xs|-1], xs[|xs|-1];
      assert xs == init + [x];
      FreshId(init, x);
      NewErrorsCountIds(init, seen);
      ErrorIdsSnoc(init, x);
      OneMore(ErrorIds(init), seen, x.id);
    }
  }

  /** The listing before update `k` of a run; there is none before the first. */
  function Before(listings: seq<seq<Instance>>, k: nat): seq<Instance>
    requires k < |listings|
  {
    if k == 0 then [] else listings[k-1]
  }

  /** How many of the updates from `a` until `b` charge an instance. */
  ghost function TimesCharged(listings: seq<seq<Instance>>, id: string, a: nat, b: nat): nat
    requires a <= b <= |listings|
  {
    if a == b then 0
    else TimesCharged(listings, id, a, b - 1)
         + if id in ErrorIds(listings[b-1]) - ErrorIds(Before(listings, b - 1)) then 1 else 0
  }

  /** An instance that stays in error over consecutive updates is charged once, or not at all if it was in error
      before. */
  lemma {:induction false} ChargedAtMostOnce(listings: seq<seq<Instance>>, id: string, a: nat, b: nat)
    requires a < b <= |listings|
    requires forall k :: a <= k < b ==> id in ErrorIds(listings[k])
    ensures TimesCharged(listings, id, a, b) == if id in ErrorIds(Before(listings, a)) then 0 else 1
  {
    if a + 1 < b {
      ChargedAtMostOnce(listings, id, a, b - 1);
      assert id in ErrorIds(listings[b-2]);
    } else {
      assert TimesCharged(listings, id, a, a) == 0;
    }
  }

  // ----- registering, over several calls -----

  /** Registering adds to the open increase, down to zero; only new nodes move the deadline. */
  lemma RegisterAdds(rs: Requests, g: GroupId, delta: int, now: int, provision: int)
    requires AllPositive(rs)
    ensures var r := RegisterOrUpdate(rs, g, delta, now, Some(provision)); var sum := Increase(rs, g) + delta;
      && Increase(r, g) == (if sum < 0 then 0 else sum)
      && (g in r <==> sum > 0)
      && (delta > 0 ==> g in r && r[g].time == now && r[g].expectedAddTime == now + provision)
      && (delta <= 0 && g in r ==>
            g in rs && r[g].time == rs[g].time && r[g].expectedAddTime == rs[g].expectedAddTime)
    ensures RegisterOrUpdate(rs, g, delta, now, None) == rs
  {
  }

  /** Registering twice is registering the sum, with the deadline of the later call. */
  lemma RegisterTwice(rs: Requests, g: GroupId, a: int, b: int, s: int, t: int, p: int, q: int)
    requires AllPositive(rs) && a > 0 && b > 0
    ensures var r := RegisterOrUpdate(RegisterOrUpdate(rs, g, a, s, Some(p)), g, b, t, Some(q));
      r == RegisterOrUpdate(rs, g, a + b, t, Some(q)) && Increase(r, g) == Increase(rs, g) + a + b
  {
  }

  /** Taking back what was registered leaves no request behind. */
  lemma RegisterUndone(rs: Requests, g: GroupId, a: int, s: int, t: int, p: int, q: int)
    requires AllPositive(rs) && a > 0 && g !in rs
    ensures RegisterOrUpdate(RegisterOrUpdate(rs, g, a, s, Some(p)), g, -a, t, Some(q)) == rs
  {
    RegisterAdds(rs, g, a, s, p);
    var r := RegisterOrUpdate(rs, g, a, s, Some(p));
    RegisterAdds(r, g, -a, t, q);
    assert RegisterOrUpdate(r, g, -a, t, Some(q)) == r - {g};
  }

  /** An identity is in error exactly when an instance of that name is being created and carries an error. */
  lemma InErrorMeans(xs: seq<Instance>, id: string)
    ensures id in ErrorIds(xs) <==>
      exists k :: 0 <= k < |xs| && xs[k].id == id && xs[k].status.Some? && xs[k].status.value.state == Creating
          && xs[k].status.value.error.Some?
  {
    if exists k :: 0 <= k < |xs| && xs[k].id == id && xs[k].status.Some? && xs[k].status.value.state == Creating
        && xs[k].status.value.error.Some? {
      var k :| 0 <= k < |xs| && xs[k].id == id && xs[k].status.Some? && xs[k].status.value.state == Creating
          && xs[k].status.value.error.Some?;
      assert CreatingWithError(xs[k]);
    }
  }
}
