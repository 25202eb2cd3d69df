/**
  Allocation of namespace quotas to capacity buffers: the loop over the buffers, and why its
  greedy result is the lexicographically greatest feasible allocation.
 */
module BufferAllocation {
  import opened Wrappers
  import opened Integers
  import opened BufferQuotas

  /** What a buffer asks for; buffers that are not ready or ask for no resource are passed over. */
  datatype Claim = Claim(eligible: bool, pod: BufferPod, replicas: int)

  ghost predicate Applies(pod: BufferPod, q: Quota) {
    MatchScope(pod, q.selectors) == Match(true)
  }

  function Positive(x: int): nat {
    if x < 0 then 0 else x
  }

  /** What one claim takes of a resource of a quota when given `x` replicas. */
  ghost function Share(c: Claim, x: int, q: Quota, r: Resource): nat {
    if c.eligible && Applies(c.pod, q) then Positive(x) * Request(c.pod, r) else 0
  }

  /** What the first `n` claims take together. */
  ghost function Demand(cs: seq<Claim>, x: seq<int>, q: Quota, r: Resource, n: nat): nat
    requires n <= |cs| && n <= |x|
  {
    if n == 0 then 0 else Demand(cs, x, q, r, n - 1) + Share(cs[n-1], x[n-1], q, r)
  }

  /** A demand on top of what is used stays within the limit; no demand always does. */
  ghost predicate Keeps(q: Quota, r: Resource, demand: nat)
    requires r in q.hard
  {
    demand == 0 || Get(q.used, r) + demand <= q.hard[r]
  }

  lemma KeepsMeans(q: Quota, r: Resource, demand: nat)
    requires r in q.hard
    ensures Keeps(q, r, demand) <==> demand <= Slack(q, r)
  {
  }

  /** A quota applies to the pods that meet all of its selectors. */
  lemma AppliesExactlyWhen(pod: BufferPod, q: Quota)
    ensures Applies(pod, q) <==> forall s :: s in q.selectors ==> !Malformed(s) && Met(pod, s)
  {
    forall s | s in q.selectors
      ensures MatchSelector(pod, s) == if Malformed(s) then MatchError else Match(Met(pod, s))
    {
      SelectorMeans(pod, s);
    }
  }

  /** An allocation gives no claim more than it asked for and keeps every quota. */
  ghost predicate Feasible(quotas: seq<Quota>, cs: seq<Claim>, x: seq<int>) {
    && |x| == |cs|
    && (forall i :: 0 <= i < |cs| ==> if cs[i].eligible then x[i] <= cs[i].replicas else x[i] == cs[i].replicas)
    && forall q, r :: q in quotas && r in q.hard ==> Keeps(q, r, Demand(cs, x, q, r, |cs|))
  }

  ghost predicate LexLeq(x: seq<int>, y: seq<int>)
    requires |x| == |y|
  {
    x == y || exists j :: 0 <= j < |x| && x[..j] == y[..j] && x[j] < y[j]
  }

  /** Giving claim `j` the count `k`, after what `y` gave to the claims before it, breaks some quota. */
  ghost predicate Breaks(quotas: seq<Quota>, cs: seq<Claim>, y: seq<int>, j: nat, k: int)
    requires j < |cs| && j <= |y|
  {
    exists q, r :: q in quotas && r in q.hard && Demand(cs, y, q, r, j) + Share(cs[j], k, q, r) > Slack(q, r)
  }

  /** Claim `j` got the most that was left for it. */
  ghost predicate Greedy(quotas: seq<Quota>, cs: seq<Claim>, y: seq<int>, j: nat)
    requires j < |cs| && j < |y|
  {
    if !cs[j].eligible then y[j] == cs[j].replicas
    else y[j] <= cs[j].replicas && forall k :: y[j] < k <= cs[j].replicas ==> Breaks(quotas, cs, y, j, k)
  }

  lemma {:induction false} DemandSame(cs: seq<Claim>, x: seq<int>, y: seq<int>, q: Quota, r: Resource, n: nat)
    requires n <= |cs| && n <= |x| && n <= |y| && x[..n] == y[..n]
    ensures Demand(cs, x, q, r, n) == Demand(cs, y, q, r, n)
  {
    if n > 0 {
      assert x[..n-1] == x[..n][..n-1] == y[..n][..n-1] == y[..n-1];
      assert x[n-1] == x[..n][n-1] == y[..n][n-1] == y[n-1];
      DemandSame(cs, x, y, q, r, n - 1);
    }
  }

  lemma {:induction false} DemandGrows(cs: seq<Claim>, x: seq<int>, q: Quota, r: Resource, m: nat, n: nat)
    requires m <= n <= |cs| && n <= |x|
    ensures Demand(cs, x, q, r, m) <= Demand(cs, x, q, r, n)
    decreases n
  {
    if m < n {
      DemandGrows(cs, x, q, r, m, n - 1);
    }
  }

  /** A feasible allocation that agrees with a greedy one so far cannot give the next claim more. */
  lemma GreedyIsMost(quotas: seq<Quota>, cs: seq<Claim>, x: seq<int>, y: seq<int>, j: nat)
    requires Feasible(quotas, cs, x) && |y| == |cs| && j < |cs| && Greedy(quotas, cs, y, j) && x[..j] == y[..j]
    ensures x[j] <= y[j]
  {
    if cs[j].eligible && x[j] > y[j] {
      assert Breaks(quotas, cs, y, j, x[j]);
      var q, r :| q in quotas && r in q.hard && Demand(cs, y, q, r, j) + Share(cs[j], x[j], q, r) > Slack(q, r);
      DemandSame(cs, x, y, q, r, j);
      DemandGrows(cs, x, q, r, j + 1, |cs|);
      KeepsMeans(q, r, Demand(cs, x, q, r, |cs|));
      assert false;
    }
  }

  lemma {:induction false} GreedyIsLexGreatest(quotas: seq<Quota>, cs: seq<Claim>, x: seq<int>, y: seq<int>, j: nat)
    requires Feasible(quotas, cs, x) && |y| == |cs| && j <= |cs| && x[..j] == y[..j]
    requires forall i :: 0 <= i < |cs| ==> Greedy(quotas, cs, y, i)
    ensures LexLeq(x, y)
    decreases |cs| - j
  {
    if j == |cs| {
      assert x == x[..j] == y[..j] == y;
    } else {
      GreedyIsMost(quotas, cs, x, y, j);
      if x[j] == y[j] {
        assert x[..j+1] == x[..j] + [x[j]] && y[..j+1] == y[..j] + [y[j]];
        GreedyIsLexGreatest(quotas, cs, x, y, j + 1);
      }
    }
  }

  // ----- the allocator -----

  /** A capacity buffer; the pod comes from its template, when its status refers to one that exists. */
  class CapacityBuffer {
    const inNamespace: bool
    const pod: Option<BufferPod>
    var replicas: Option<int>
    var limitedByQuotas: Option<bool>
    var blockingQuotas: seq<string>

    constructor (inNamespace: bool, pod: Option<BufferPod>, replicas: Option<int>)
      ensures this.inNamespace == inNamespace && this.pod == pod && this.replicas == replicas
    {
      this.inNamespace, this.pod, this.replicas := inNamespace, pod, replicas;
      limitedByQuotas, blockingQuotas := None, [];
    }

    function AsClaim(): Claim
      reads this
    {
      Claim(inNamespace && pod.Some? && replicas.Some? && pod.value.requests != map[],
            if pod.Some? then pod.value else BufferPod(map[], "", false),
            if replicas.Some? then replicas.value else 0)
    }
  }

  ghost function Claims(buffers: seq<CapacityBuffer>): (cs: seq<Claim>)
    reads buffers
    ensures |cs| == |buffers| && forall i :: 0 <= i < |cs| ==> cs[i] == buffers[i].AsClaim()
  {
    if buffers == [] then [] else Claims(buffers[..|buffers|-1]) + [buffers[|buffers|-1].AsClaim()]
  }

  type Usages = map<nat, map<Resource, int>>

  function UsageOf(usages: Usages, uid: nat): map<Resource, int> {
    if uid in usages then usages[uid] else map[]
  }

  method AddUsage(q: Quota, usage: map<Resource, int>, pod: BufferPod, replicas: int) returns (u: map<Resource, int>)
    ensures forall r :: Get(u, r) == Get(usage, r) + if r in q.hard then replicas * Request(pod, r) else 0
  {
    u := usage;
    var todo := pod.requests.Keys;
    while todo != {}
      invariant todo <= pod.requests.Keys
      invariant forall r ::
          Get(u, r) == Get(usage, r) + if r in q.hard && r !in todo then replicas * Request(pod, r) else 0
      decreases todo
    {
      var r :| r in todo;
      todo := todo - {r};
      if r in q.hard {
        u := u[r := Get(u, r) + replicas * pod.requests[r]];
      }
    }
  }

  ghost predicate DistinctUids(quotas: seq<Quota>) {
    forall i, j :: 0 <= i < j < |quotas| ==> quotas[i].uid != quotas[j].uid
  }

  method UpdateUsages(matching: seq<Quota>, usages: Usages, pod: BufferPod, replicas: int) returns (u: Usages)
    requires DistinctUids(matching)
    ensures forall q, r :: q in matching && r in q.hard ==>
      Get(UsageOf(u, q.uid), r) == Get(UsageOf(usages, q.uid), r) + replicas * Request(pod, r)
    ensures forall uid :: (forall q :: q in matching ==> q.uid != uid) ==> UsageOf(u, uid) == UsageOf(usages, uid)
  {
    u := usages;
    for i := 0 to |matching|
      invariant forall j, r :: 0 <= j < i && r in matching[j].hard ==>
        Get(UsageOf(u, matching[j].uid), r) == Get(UsageOf(usages, matching[j].uid), r) + replicas * Request(pod, r)
      invariant forall uid :: (forall j :: 0 <= j < i ==> matching[j].uid != uid) ==>
          UsageOf(u, uid) == UsageOf(usages, uid)
    {
      var q := matching[i];
      var usage := AddUsage(q, UsageOf(u, q.uid), pod, replicas);
      u := u[q.uid := usage];
    }
  }

  /** The bookkeeping of the quotas is what the first `n` claims were given, and within the slack. */
  ghost predicate Booked(quotas: seq<Quota>, cs: seq<Claim>, y: seq<int>, usages: Usages, n: nat)
    requires n <= |cs| && n <= |y|
  {
    forall q, r :: q in quotas && r in q.hard ==>
      Get(UsageOf(usages, q.uid), r) == Demand(cs, y, q, r, n) <= Slack(q, r)
  }

  /** What the first `n` claims take of a quota. */
  ghost function TakenOf(cs: seq<Claim>, y: seq<int>, q: Quota, n: nat): map<Resource, int>
    requires n <= |cs| && n <= |y|
  {
    map r | r in q.hard :: Demand(cs, y, q, r, n)
  }

  /** Each quota that applies to claim `j` gives it an answer that can be relied on, after what the claims before it
      take. */
  ghost predicate ReliableAt(quotas: seq<Quota>, cs: seq<Claim>, y: seq<int>, j: nat)
    requires j < |cs| && j <= |y|
  {
    cs[j].eligible ==>
      forall q :: q in quotas && Applies(cs[j].pod, q) ==> Reliable(q, cs[j].pod, TakenOf(cs, y, q, j))
  }

  /** The answers to all claims served so far can be relied on. */
  ghost predicate AllReliable(quotas: seq<Quota>, cs: seq<Claim>, y: seq<int>) {
    |y| <= |cs| && forall j :: 0 <= j < |y| ==> ReliableAt(quotas, cs, y, j)
  }

  lemma ReliableBefore(quotas: seq<Quota>, cs: seq<Claim>, y: seq<int>, x: int)
    requires |y| < |cs| && AllReliable(quotas, cs, y + [x])
    ensures AllReliable(quotas, cs, y)
  {
    forall j | 0 <= j < |y| ensures ReliableAt(quotas, cs, y, j) {
      assert ReliableAt(quotas, cs, y + [x], j);
      if cs[j].eligible {
        forall q | q in quotas && Applies(cs[j].pod, q) ensures Reliable(q, cs[j].pod, TakenOf(cs, y, q, j)) {
          forall r | r in q.hard ensures Demand(cs, y, q, r, j) == Demand(cs, y + [x], q, r, j) {
            DemandSame(cs, y, y + [x], q, r, j);
          }
          assert TakenOf(cs, y, q, j) == TakenOf(cs, y + [x], q, j);
        }
      }
    }
  }

  /** 64-bit quotients give reliable answers whatever is allocated. */
  lemma NarrowIsReliable(quotas: seq<Quota>, cs: seq<Claim>, y: seq<int>)
    requires |y| <= |cs| && AllQuotientsFit(quotas, cs)
    ensures AllReliable(quotas, cs, y)
  {
    forall j | 0 <= j < |y| ensures ReliableAt(quotas, cs, y, j) {
      forall q | q in quotas ensures Reliable(q, cs[j].pod, TakenOf(cs, y, q, j)) {
        NarrowQuotientsAreReliable(q, cs[j].pod, TakenOf(cs, y, q, j));
      }
    }
  }

  ghost predicate AllQuotientsFit(quotas: seq<Quota>, cs: seq<Claim>) {
    forall q, i :: q in quotas && 0 <= i < |cs| ==> QuotientsFit(q, cs[i].pod)
  }

  /** The quotas among the first `n` that apply to the pod, in order. */
  ghost function Applying(quotas: seq<Quota>, pod: BufferPod, n: nat): seq<Quota>
    requires n <= |quotas|
  {
    if n == 0 then []
    else Applying(quotas, pod, n - 1) + if Applies(pod, quotas[n-1]) then [quotas[n-1]] else []
  }

  lemma {:induction false} ApplyingMembers(quotas: seq<Quota>, pod: BufferPod, n: nat)
    requires n <= |quotas|
    ensures forall q :: q in Applying(quotas, pod, n) <==> q in quotas[..n] && Applies(pod, q)
    ensures DistinctUids(quotas) ==> DistinctUids(Applying(quotas, pod, n))
  {
    if n > 0 {
      ApplyingMembers(quotas, pod, n - 1);
      assert quotas[..n] == quotas[..n-1] + [quotas[n-1]];
      if DistinctUids(quotas) {
        var init := Applying(quotas, pod, n - 1);
        forall i | 0 <= i < |init| ensures init[i].uid != quotas[n-1].uid {
          assert init[i] in init;
        }
      }
    }
  }

  /** Some matching quota does not admit this many replicas. */
  ghost predicate Refused(matching: seq<Quota>, usages: Usages, pod: BufferPod, k: int) {
    exists q :: q in matching && !QuotaAdmits(q, pod, UsageOf(usages, q.uid), Positive(k))
  }

  /** The usages are within the slack, and every answer can be relied on. */
  ghost predicate Regular(matching: seq<Quota>, usages: Usages, pod: BufferPod) {
    forall q :: q in matching ==> WithinSlack(q, UsageOf(usages, q.uid)) && Reliable(q, pod, UsageOf(usages, q.uid))
  }

  /** `allowed` is the most replicas, up to `current`, that no matching quota refuses. */
  ghost predicate MostAllowed(matching: seq<Quota>, usages: Usages, pod: BufferPod, current: int, allowed: int) {
    && allowed <= current && (current >= 0 ==> allowed >= 0)
    && !Refused(matching, usages, pod, allowed)
    && forall k :: allowed < k <= current ==> Refused(matching, usages, pod, k)
  }

  lemma AdmitsFewer(q: Quota, pod: BufferPod, reserved: map<Resource, int>, m: nat, n: nat)
    requires m <= n && QuotaAdmits(q, pod, reserved, n)
    ensures QuotaAdmits(q, pod, reserved, m)
  {
    forall r | r in q.hard ensures Admits(q, pod, reserved, m, r) {
      assert Admits(q, pod, reserved, n, r);
      Difference(n, m, Request(pod, r));
      Product(n - m, Request(pod, r));
    }
  }

  /** One more matching quota, which admits at most `most` replicas. */
  lemma MostAllowedStep(matching: seq<Quota>, usages: Usages, pod: BufferPod, current: int, allowed: int, q: Quota,
      most: int)
    requires MostAllowed(matching, usages, pod, current, allowed) && current <= MAX_INT32
    requires GreatestAdmitted(q, pod, UsageOf(usages, q.uid), most)
    ensures MostAllowed(matching + [q], usages, pod, current, if most < allowed then most else allowed)
  {
    var now, least := matching + [q], if most < allowed then most else allowed;
    forall p | p in now ensures QuotaAdmits(p, pod, UsageOf(usages, p.uid), Positive(least)) {
      if p in matching {
        AdmitsFewer(p, pod, UsageOf(usages, p.uid), Positive(least), Positive(allowed));
      } else {
        AdmitsFewer(p, pod, UsageOf(usages, p.uid), Positive(least), most);
      }
    }
    forall k | least < k <= current ensures Refused(now, usages, pod, k) {
      if allowed < k {
        assert Refused(matching, usages, pod, k);
        var p :| p in matching && !QuotaAdmits(p, pod, UsageOf(usages, p.uid), Positive(k));
        assert p in now;
      } else {
        assert q in now;
      }
    }
  }

  /** What the quotas looked at so far allow, if all numbers are regular. */
  ghost predicate AllowedSoFar(matching: seq<Quota>, usages: Usages, pod: BufferPod, current: int, allowed: int) {
    Regular(matching, usages, pod) ==> MostAllowed(matching, usages, pod, current, allowed)
  }

  lemma RegularStep(matching: seq<Quota>, usages: Usages, pod: BufferPod, current: int, allowed: int, q: Quota,
      most: int)
    requires AllowedSoFar(matching, usages, pod, current, allowed) && current <= MAX_INT32
    requires var reserved := UsageOf(usages, q.uid);
      WithinSlack(q, reserved) ==> (GreatestAdmitted(q, pod, reserved, most) <==> Reliable(q, pod, reserved))
    ensures AllowedSoFar(matching + [q], usages, pod, current, if most < allowed then most else allowed)
  {
    if Regular(matching + [q], usages, pod) {
      assert q in matching + [q] && forall p :: p in matching ==> p in matching + [q];
      MostAllowedStep(matching, usages, pod, current, allowed, q, most);
    }
  }

  /** Some matching quota of this name does not admit the whole request. */
  ghost predicate BlocksUnder(matching: seq<Quota>, usages: Usages, pod: BufferPod, current: int, name: string) {
    exists q :: q in matching && q.name == name && !QuotaAdmits(q, pod, UsageOf(usages, q.uid), Positive(current))
  }

  /** The names listed are those of the quotas that do not admit the whole request, if all numbers are regular. */
  ghost predicate NamesBlockers(matching: seq<Quota>, usages: Usages, pod: BufferPod, current: int,
      blocking: seq<string>) {
    Regular(matching, usages, pod) ==>
      forall name :: name in blocking <==> BlocksUnder(matching, usages, pod, current, name)
  }

  lemma BlockersStep(matching: seq<Quota>, usages: Usages, pod: BufferPod, current: int, blocking: seq<string>,
      q: Quota, most: int)
    requires NamesBlockers(matching, usages, pod, current, blocking) && current <= MAX_INT32
    requires var reserved := UsageOf(usages, q.uid);
      WithinSlack(q, reserved) ==> (GreatestAdmitted(q, pod, reserved, most) <==> Reliable(q, pod, reserved))
    ensures NamesBlockers(matching + [q], usages, pod, current,
        if most < current then blocking + [q.name] else blocking)
  {
    var now, names := matching + [q], if most < current then blocking + [q.name] else blocking;
    if Regular(now, usages, pod) {
      assert q in now && forall p :: p in matching ==> p in now;
      var reserved := UsageOf(usages, q.uid);
      if most >= current {
        AdmitsFewer(q, pod, reserved, Positive(current), most);
      }
      assert most < current <==> !QuotaAdmits(q, pod, reserved, Positive(current));
      forall name ensures name in names <==> BlocksUnder(now, usages, pod, current, name) {
        BlocksSnoc(matching, usages, pod, current, name, q);
      }
    }
  }

  lemma BlocksSnoc(matching: seq<Quota>, usages: Usages, pod: BufferPod, current: int, name: string, q: Quota)
    ensures BlocksUnder(matching + [q], usages, pod, current, name) <==>
      || BlocksUnder(matching, usages, pod, current, name)
      || (q.name == name && !QuotaAdmits(q, pod, UsageOf(usages, q.uid), Positive(current)))
  {
    assert q in matching + [q] && forall p :: p in matching ==> p in matching + [q];
  }

  /** What is known after some of the quotas. */
  ghost predicate Answered(matching: seq<Quota>, usages: Usages, pod: BufferPod, current: int, allowed: int,
      blocking: seq<string>) {
    && allowed <= current && (blocking == [] <==> allowed == current)
    && AllowedSoFar(matching, usages, pod, current, allowed)
    && NamesBlockers(matching, usages, pod, current, blocking)
  }

  /** One more quota that applies. */
  method AskQuota(q: Quota, usages: Usages, pod: BufferPod, current: int, allowed: int, blocking: seq<string>,
      ghost matching: seq<Quota>)
    returns (least: int, names: seq<string>)
    requires current <= MAX_INT32 && Answered(matching, usages, pod, current, allowed, blocking)
    ensures Answered(matching + [q], usages, pod, current, least, names)
  {
    least, names := allowed, blocking;
    var most := GetMaxReplicasForQuota(q, pod, UsageOf(usages, q.uid));
    RegularStep(matching, usages, pod, current, allowed, q, most);
    BlockersStep(matching, usages, pod, current, blocking, q, most);
    if most < current {
      names := names + [q.name];
    }
    if most < allowed {
      least := most;
    }
  }

  /** The most replicas, up to the request, that every applying quota admits. */
  method AllowedReplicas(quotas: seq<Quota>, usages: Usages, pod: BufferPod, current: int)
    returns (allowed: int, blocking: seq<string>, matching: seq<Quota>, errors: nat)
    requires current <= MAX_INT32
    ensures matching == Applying(quotas, pod, |quotas|)
    ensures errors == 0 <==> forall q :: q in quotas ==> MatchScope(pod, q.selectors) != MatchError
    ensures Answered(matching, usages, pod, current, allowed, blocking)
  {
    allowed, blocking, matching, errors := current, [], [], 0;
    for i := 0 to |quotas|
      invariant matching == Applying(quotas, pod, i)
      invariant errors == 0 <==> forall q :: q in quotas[..i] ==> MatchScope(pod, q.selectors) != MatchError
      invariant Answered(matching, usages, pod, current, allowed, blocking)
    {
      var q := quotas[i];
      assert quotas[..i+1] == quotas[..i] + [q];
      var m := PodMatchesQuotaScope(pod, q.selectors);
      if m == MatchError {
        errors := errors + 1;
      } else if m.matches {
        allowed, blocking := AskQuota(q, usages, pod, current, allowed, blocking, matching);
        matching := matching + [q];
      }
    }
    assert quotas[..|quotas|] == quotas;
  }

  /** The most allowed is the greedy choice for the next claim. */
  lemma MostIsGreedy(quotas: seq<Quota>, cs: seq<Claim>, y: seq<int>, usages: Usages, j: nat, allowed: int)
    requires j < |cs| && |y| == j && cs[j].eligible && Booked(quotas, cs, y, usages, j)
    requires MostAllowed(Applying(quotas, cs[j].pod, |quotas|), usages, cs[j].pod, cs[j].replicas, allowed)
    ensures Greedy(quotas, cs, y + [allowed], j)
    ensures forall q, r :: q in quotas && r in q.hard ==>
        Demand(cs, y, q, r, j) + Share(cs[j], allowed, q, r) <= Slack(q, r)
  {
    var c, matching := cs[j], Applying(quotas, cs[j].pod, |quotas|);
    ApplyingMembers(quotas, c.pod, |quotas|);
    assert quotas[..|quotas|] == quotas;
    forall q, r | q in quotas && r in q.hard ensures Demand(cs, y, q, r, j) + Share(c, allowed, q, r) <= Slack(q, r) {
      if Applies(c.pod, q) {
        assert QuotaAdmits(q, c.pod, UsageOf(usages, q.uid), Positive(allowed));
        assert Admits(q, c.pod, UsageOf(usages, q.uid), Positive(allowed), r);
      }
    }
    forall k | allowed < k <= c.replicas ensures Breaks(quotas, cs, y + [allowed], j, k) {
      assert Refused(matching, usages, c.pod, k);
      var q :| q in matching && !QuotaAdmits(q, c.pod, UsageOf(usages, q.uid), Positive(k));
      var r :| r in q.hard && !Admits(q, c.pod, UsageOf(usages, q.uid), Positive(k), r);
      DemandSame(cs, y, y + [allowed], q, r, j);
      assert Demand(cs, y + [allowed], q, r, j) + Share(c, k, q, r) > Slack(q, r);
    }
  }

  lemma BookedIsRegular(quotas: seq<Quota>, cs: seq<Claim>, y: seq<int>, x: int, usages: Usages)
    requires |y| < |cs| && cs[|y|].eligible && Booked(quotas, cs, y, usages, |y|) && AllReliable(quotas, cs, y + [x])
    ensures Regular(Applying(quotas, cs[|y|].pod, |quotas|), usages, cs[|y|].pod)
  {
    var j := |y|;
    var pod := cs[j].pod;
    ApplyingMembers(quotas, pod, |quotas|);
    assert quotas[..|quotas|] == quotas;
    assert ReliableAt(quotas, cs, y + [x], j);
    forall q | q in Applying(quotas, pod, |quotas|)
      ensures WithinSlack(q, UsageOf(usages, q.uid)) && Reliable(q, pod, UsageOf(usages, q.uid))
    {
      forall r | r in q.hard
        ensures Get(TakenOf(cs, y + [x], q, j), r) == Get(UsageOf(usages, q.uid), r)
      {
        DemandSame(cs, y, y + [x], q, r, j);
      }
      ReliableSame(q, pod, TakenOf(cs, y + [x], q, j), UsageOf(usages, q.uid));
    }
  }

  /** Recording what claim `j` got keeps the books. */
  lemma StaysBooked(quotas: seq<Quota>, cs: seq<Claim>, y: seq<int>, before: Usages, after: Usages, j: nat, x: int)
    requires j < |cs| && |y| == j && Booked(quotas, cs, y, before, j)
    requires forall q, r :: q in quotas && r in q.hard ==>
      && Demand(cs, y, q, r, j) + Share(cs[j], x, q, r) <= Slack(q, r)
      && Get(UsageOf(after, q.uid), r) == Get(UsageOf(before, q.uid), r) + Share(cs[j], x, q, r)
    ensures Booked(quotas, cs, y + [x], after, j + 1)
  {
    forall q, r | q in quotas && r in q.hard
      ensures Get(UsageOf(after, q.uid), r) == Demand(cs, y + [x], q, r, j + 1) <= Slack(q, r)
    {
      DemandSame(cs, y, y + [x], q, r, j);
    }
  }

  /** Earlier greedy choices stay greedy when the allocation is extended. */
  lemma GreedyExtends(quotas: seq<Quota>, cs: seq<Claim>, y: seq<int>, x: int, i: nat)
    requires i < |y| < |cs| && Greedy(quotas, cs, y, i)
    ensures Greedy(quotas, cs, y + [x], i)
  {
    var z := y + [x];
    if cs[i].eligible {
      forall k | z[i] < k <= cs[i].replicas ensures Breaks(quotas, cs, z, i, k) {
        assert Breaks(quotas, cs, y, i, k);
        var q, r :| q in quotas && r in q.hard && Demand(cs, y, q, r, i) + Share(cs[i], k, q, r) > Slack(q, r);
        DemandSame(cs, y, z, q, r, i);
        assert Demand(cs, z, q, r, i) + Share(cs[i], k, q, r) > Slack(q, r);
      }
    }
  }

  /** The usages grow by exactly what the claim takes with `x` replicas. */
  ghost predicate Shared(quotas: seq<Quota>, c: Claim, before: Usages, after: Usages, x: int) {
    forall q, r :: q in quotas && r in q.hard ==>
        Get(UsageOf(after, q.uid), r) == Get(UsageOf(before, q.uid), r) + Share(c, x, q, r)
  }

  lemma UsagesShare(quotas: seq<Quota>, c: Claim, before: Usages, after: Usages, x: int)
    requires DistinctUids(quotas) && c.eligible && Recorded(quotas, c.pod, before, after, x)
    ensures Shared(quotas, c, before, after, x)
  {
    ApplyingMembers(quotas, c.pod, |quotas|);
    assert quotas[..|quotas|] == quotas;
    forall q, r | q in quotas && r in q.hard
      ensures Get(UsageOf(after, q.uid), r) == Get(UsageOf(before, q.uid), r) + Share(c, x, q, r)
    {
      if x > 0 && !Applies(c.pod, q) {
        forall p | p in Applying(quotas, c.pod, |quotas|) ensures p.uid != q.uid {
          assert p in quotas && p != q;
        }
      }
    }
  }

  /** The allocation so far is greedy for every claim served, and the books record it. */
  ghost predicate OnTrack(quotas: seq<Quota>, cs: seq<Claim>, y: seq<int>, usages: Usages) {
    |y| <= |cs| && forall j: nat :: j <= |y| ==> OnTrackAt(quotas, cs, y, usages, j)
  }

  ghost predicate OnTrackAt(quotas: seq<Quota>, cs: seq<Claim>, y: seq<int>, usages: Usages, j: nat)
    requires j <= |y| <= |cs|
  {
    if j == |y| then Booked(quotas, cs, y, usages, |y|) else Greedy(quotas, cs, y, j)
  }

  lemma OnTrackMeans(quotas: seq<Quota>, cs: seq<Claim>, y: seq<int>, usages: Usages)
    requires |y| <= |cs|
    ensures OnTrack(quotas, cs, y, usages) <==> Booked(quotas, cs, y, usages, |y|) && AllGreedy(quotas, cs, y)
  {
    if OnTrack(quotas, cs, y, usages) {
      assert OnTrackAt(quotas, cs, y, usages, |y|);
      forall j | 0 <= j < |y| ensures Greedy(quotas, cs, y, j) {
        assert OnTrackAt(quotas, cs, y, usages, j);
      }
    }
  }

  ghost predicate AllGreedy(quotas: seq<Quota>, cs: seq<Claim>, y: seq<int>) {
    |y| <= |cs| && forall j :: 0 <= j < |y| ==> Greedy(quotas, cs, y, j)
  }

  lemma GreedySnoc(quotas: seq<Quota>, cs: seq<Claim>, y: seq<int>, x: int)
    requires AllGreedy(quotas, cs, y) && |y| < |cs| && Greedy(quotas, cs, y + [x], |y|)
    ensures AllGreedy(quotas, cs, y + [x])
  {
    forall i | 0 <= i < |y| ensures Greedy(quotas, cs, y + [x], i) {
      GreedyExtends(quotas, cs, y, x, i);
    }
  }

  lemma PassedOver(quotas: seq<Quota>, cs: seq<Claim>, y: seq<int>, usages: Usages)
    requires OnTrack(quotas, cs, y, usages) && |y| < |cs| && !cs[|y|].eligible
    ensures OnTrack(quotas, cs, y + [cs[|y|].replicas], usages)
  {
    var j := |y|;
    OnTrackMeans(quotas, cs, y, usages);
    StaysBooked(quotas, cs, y, usages, usages, j, cs[j].replicas);
    GreedySnoc(quotas, cs, y, cs[j].replicas);
    OnTrackMeans(quotas, cs, y + [cs[j].replicas], usages);
  }

  /** The usages after giving the claim `x` replicas. */
  ghost predicate Recorded(quotas: seq<Quota>, pod: BufferPod, before: Usages, after: Usages, x: int) {
    var matching := Applying(quotas, pod, |quotas|);
    if x > 0 then
      && (forall q, r :: q in matching && r in q.hard ==>
          Get(UsageOf(after, q.uid), r) == Get(UsageOf(before, q.uid), r) + x * Request(pod, r))
      && (forall uid :: (forall q :: q in matching ==> q.uid != uid) ==> UsageOf(after, uid) == UsageOf(before, uid))
    else after == before
  }

  lemma Served(quotas: seq<Quota>, cs: seq<Claim>, y: seq<int>, before: Usages, after: Usages, allowed: int)
    requires OnTrack(quotas, cs, y, before) && |y| < |cs| && cs[|y|].eligible
    requires var c := cs[|y|]; MostAllowed(Applying(quotas, c.pod, |quotas|), before, c.pod, c.replicas, allowed)
    requires Shared(quotas, cs[|y|], before, after, allowed)
    ensures OnTrack(quotas, cs, y + [allowed], after)
  {
    OnTrackMeans(quotas, cs, y, before);
    ServedBooked(quotas, cs, y, before, after, allowed);
    ServedGreedy(quotas, cs, y, before, allowed);
    OnTrackMeans(quotas, cs, y + [allowed], after);
  }

  /** Serving a claim as far as the usages allow keeps the allocation on track. */
  lemma KeptOnTrack(quotas: seq<Quota>, cs: seq<Claim>, y: seq<int>, before: Usages, after: Usages, allowed: int)
    requires |y| < |cs| && cs[|y|].eligible && (AllReliable(quotas, cs, y) ==> OnTrack(quotas, cs, y, before))
    requires var c := cs[|y|]; var matching := Applying(quotas, c.pod, |quotas|);
      Regular(matching, before, c.pod) ==> MostAllowed(matching, before, c.pod, c.replicas, allowed)
    requires Shared(quotas, cs[|y|], before, after, allowed)
    ensures AllReliable(quotas, cs, y + [allowed]) ==> OnTrack(quotas, cs, y + [allowed], after)
  {
    if AllReliable(quotas, cs, y + [allowed]) {
      ReliableBefore(quotas, cs, y, allowed);
      OnTrackMeans(quotas, cs, y, before);
      BookedIsRegular(quotas, cs, y, allowed, before);
      Served(quotas, cs, y, before, after, allowed);
    }
  }

  lemma ServedGreedy(quotas: seq<Quota>, cs: seq<Claim>, y: seq<int>, before: Usages, allowed: int)
    requires |y| < |cs| && cs[|y|].eligible && Booked(quotas, cs, y, before, |y|)
    requires var c := cs[|y|]; MostAllowed(Applying(quotas, c.pod, |quotas|), before, c.pod, c.replicas, allowed)
    requires AllGreedy(quotas, cs, y)
    ensures AllGreedy(quotas, cs, y + [allowed])
  {
    MostIsGreedy(quotas, cs, y, before, |y|, allowed);
    GreedySnoc(quotas, cs, y, allowed);
  }

  lemma ServedBooked(quotas: seq<Quota>, cs: seq<Claim>, y: seq<int>, before: Usages, after: Usages, allowed: int)
    requires |y| < |cs| && cs[|y|].eligible && Booked(quotas, cs, y, before, |y|)
    requires var c := cs[|y|]; MostAllowed(Applying(quotas, c.pod, |quotas|), before, c.pod, c.replicas, allowed)
    requires Shared(quotas, cs[|y|], before, after, allowed)
    ensures Booked(quotas, cs, y + [allowed], after, |y| + 1)
  {
    MostIsGreedy(quotas, cs, y, before, |y|, allowed);
    StaysBooked(quotas, cs, y, before, after, |y|, allowed);
  }

  /** The finished allocation is feasible and no feasible one exceeds it. */
  lemma OnTrackIsBest(quotas: seq<Quota>, cs: seq<Claim>, y: seq<int>, usages: Usages)
    requires OnTrack(quotas, cs, y, usages) && |y| == |cs|
    ensures Feasible(quotas, cs, y)
    ensures forall x :: Feasible(quotas, cs, x) ==> LexLeq(x, y)
  {
    OnTrackMeans(quotas, cs, y, usages);
    forall i | 0 <= i < |cs| ensures if cs[i].eligible then y[i] <= cs[i].replicas else y[i] == cs[i].replicas {
      assert Greedy(quotas, cs, y, i);
    }
    forall q, r | q in quotas && r in q.hard ensures Keeps(q, r, Demand(cs, y, q, r, |cs|)) {
      KeepsMeans(q, r, Demand(cs, y, q, r, |cs|));
    }
    forall x | Feasible(quotas, cs, x) ensures LexLeq(x, y) {
      GreedyIsLexGreatest(quotas, cs, x, y, 0);
    }
  }

  ghost predicate DistinctBuffers(buffers: seq<CapacityBuffer>) {
    forall i, j :: 0 <= i < j < |buffers| ==> buffers[i] != buffers[j]
  }

  /** What the status of a buffer says after it was given `x` of the replicas it claimed. */
  ghost predicate Reports(b: CapacityBuffer, c: Claim, x: int)
    reads b
  {
    && b.replicas == Some(x) && x <= c.replicas
    && b.limitedByQuotas == Some(x < c.replicas)
    && (b.blockingQuotas == [] <==> x == c.replicas)
  }

  /** Serving one buffer that is ready. */
  method Serve(quotas: seq<Quota>, usages: Usages, b: CapacityBuffer) returns (allowed: int, after: Usages, errors: nat)
    requires DistinctUids(quotas) && b.AsClaim().eligible && b.AsClaim().replicas <= MAX_INT32
    modifies b
    ensures Reports(b, old(b.AsClaim()), allowed)
    ensures var c := old(b.AsClaim()); var matching := Applying(quotas, c.pod, |quotas|);
      && NamesBlockers(matching, usages, c.pod, c.replicas, b.blockingQuotas)
      && (Regular(matching, usages, c.pod) ==> MostAllowed(matching, usages, c.pod, c.replicas, allowed))
      && Shared(quotas, c, usages, after, allowed)
      && (errors == 0 <==> forall q :: q in quotas ==> MatchScope(c.pod, q.selectors) != MatchError)
  {
    var pod, current := b.pod.value, b.replicas.value;
    var blocking, matching;
    allowed, blocking, matching, errors := AllowedReplicas(quotas, usages, pod, current);
    b.blockingQuotas := blocking;
    b.limitedByQuotas := Some(allowed < current);
    if allowed < current {
      b.replicas := Some(allowed);
    }
    after := usages;
    if allowed > 0 {
      ApplyingMembers(quotas, pod, |quotas|);
      after := UpdateUsages(matching, usages, pod, allowed);
    }
    UsagesShare(quotas, old(b.AsClaim()), usages, after, allowed);
  }

  /** A buffer of the namespace with replicas and a template pod that requests something. */
  ghost predicate ToServe(b: CapacityBuffer)
    reads b
  {
    b.inNamespace && b.replicas.Some? && b.pod.Some? && exists r :: r in b.pod.value.requests
  }

  /** A buffer that was served reports what it got; one that was passed over did not change. */
  twostate predicate Settled(b: CapacityBuffer, c: Claim, x: int)
    reads b
  {
    if c.eligible then Reports(b, c, x) else x == c.replicas && unchanged(b)
  }

  /** What the loop does with one buffer: buffers that are not ready are passed over. */
  method ServeOrPass(quotas: seq<Quota>, usages: Usages, b: CapacityBuffer, ghost cs: seq<Claim>, ghost y: seq<int>)
      returns (x: int, after: Usages, errors: nat)
    requires DistinctUids(quotas) && b.AsClaim().replicas <= MAX_INT32
    requires |y| < |cs| && b.AsClaim() == cs[|y|] && Tracked(quotas, cs, y, usages)
    modifies b
    ensures Settled(b, cs[|y|], x)
    ensures Tracked(quotas, cs, y + [x], after)
    ensures errors == 0 <==> ScopesMatch(quotas, cs[|y|])
  {
    TrackedMeans(quotas, cs, y, usages);
    if !b.AsClaim().eligible {
      x, after, errors := b.AsClaim().replicas, usages, 0;
      if AllReliable(quotas, cs, y + [x]) {
        ReliableBefore(quotas, cs, y, x);
        PassedOver(quotas, cs, y, usages);
      }
    } else {
      x, after, errors := Serve(quotas, usages, b);
      KeptOnTrack(quotas, cs, y, usages, after, x);
    }
    TrackedMeans(quotas, cs, y + [x], after);
  }

  /** The allocation is on track if all answers so far can be relied on. */
  ghost predicate Tracked(quotas: seq<Quota>, cs: seq<Claim>, y: seq<int>, usages: Usages) {
    forall j: nat :: TrackedAt(quotas, cs, y, usages, j)
  }

  ghost predicate TrackedAt(quotas: seq<Quota>, cs: seq<Claim>, y: seq<int>, usages: Usages, j: nat) {
    j <= |y| <= |cs| && AllReliable(quotas, cs, y) ==> OnTrackAt(quotas, cs, y, usages, j)
  }

  lemma TrackedMeans(quotas: seq<Quota>, cs: seq<Claim>, y: seq<int>, usages: Usages)
    requires |y| <= |cs|
    ensures Tracked(quotas, cs, y, usages) <==> (AllReliable(quotas, cs, y) ==> OnTrack(quotas, cs, y, usages))
  {
    if Tracked(quotas, cs, y, usages) && AllReliable(quotas, cs, y) {
      forall j: nat | j <= |y| ensures OnTrackAt(quotas, cs, y, usages, j) {
        assert TrackedAt(quotas, cs, y, usages, j);
      }
    }
  }

  /** No quota scope fails for any claim of the first `n`. */
  ghost predicate NoScopeErrors(quotas: seq<Quota>, cs: seq<Claim>, n: nat)
    requires n <= |cs|
  {
    forall j :: 0 <= j < n ==> ScopesMatch(quotas, cs[j])
  }

  /** The scopes of all quotas can be decided for a claim that is served. */
  ghost predicate ScopesMatch(quotas: seq<Quota>, c: Claim) {
    c.eligible ==> forall q :: q in quotas ==> MatchScope(c.pod, q.selectors) != MatchError
  }

  /**
    Limits the replicas of each buffer. `granted` lists the replicas of every buffer afterwards. If every
    answer along it can be relied on, as when all quotients are 64-bit numbers, it is the lexicographically
    greatest feasible allocation.
   */
  method Allocate(quotas: seq<Quota>, buffers: seq<CapacityBuffer>) returns (granted: seq<int>, errors: nat)
    requires DistinctUids(quotas) && DistinctBuffers(buffers)
    requires forall i :: 0 <= i < |buffers| ==> buffers[i].AsClaim().replicas <= MAX_INT32
    modifies buffers
    ensures |granted| == |buffers|
    ensures forall i :: 0 <= i < |buffers| ==> Settled(buffers[i], old(Claims(buffers))[i], granted[i])
    ensures AllQuotientsFit(quotas, old(Claims(buffers))) || AllReliable(quotas, old(Claims(buffers)), granted) ==>
      && Feasible(quotas, old(Claims(buffers)), granted)
      && forall x :: Feasible(quotas, old(Claims(buffers)), x) ==> LexLeq(x, granted)
    ensures errors == 0 <==> NoScopeErrors(quotas, old(Claims(buffers)), |buffers|)
    ensures forall i :: 0 <= i < |buffers| && old(ToServe(buffers[i])) ==>
      && buffers[i].replicas == Some(granted[i]) && granted[i] <= old(buffers[i].replicas.value)
      && buffers[i].limitedByQuotas == Some(granted[i] < old(buffers[i].replicas.value))
    ensures forall i :: 0 <= i < |buffers| && !old(ToServe(buffers[i])) ==> unchanged(buffers[i])
  {
    ghost var cs := Claims(buffers);
    ghost var usages;
    granted, errors, usages := AllocateInOrder(quotas, buffers, cs);
    TrackedMeans(quotas, cs, granted, usages);
    if AllQuotientsFit(quotas, cs) {
      NarrowIsReliable(quotas, cs, granted);
    }
    if AllReliable(quotas, cs, granted) {
      OnTrackIsBest(quotas, cs, granted, usages);
    }
  }

  lemma StartsOnTrack(quotas: seq<Quota>, cs: seq<Claim>)
    ensures OnTrack(quotas, cs, [], map[])
  {
  }

  /** The loop over the buffers, in order. */
  method AllocateInOrder(quotas: seq<Quota>, buffers: seq<CapacityBuffer>, ghost cs: seq<Claim>)
      returns (granted: seq<int>, errors: nat, usages: Usages)
    requires DistinctUids(quotas) && DistinctBuffers(buffers)
    requires |cs| == |buffers| && forall i :: 0 <= i < |buffers| ==>
        buffers[i].AsClaim() == cs[i] && cs[i].replicas <= MAX_INT32
    modifies buffers
    ensures |granted| == |buffers|
    ensures forall i :: 0 <= i < |buffers| ==> Settled(buffers[i], cs[i], granted[i])
    ensures Tracked(quotas, cs, granted, usages)
    ensures errors == 0 <==> NoScopeErrors(quotas, cs, |buffers|)
  {
    usages := map[];
    granted, errors := [], 0;
    StartsOnTrack(quotas, cs);
    TrackedMeans(quotas, cs, [], map[]);
    for i := 0 to |buffers|
      invariant |granted| == i
      invariant forall j :: i <= j < |buffers| ==> unchanged(buffers[j])
      invariant forall j :: 0 <= j < i ==> Settled(buffers[j], cs[j], granted[j])
      invariant Tracked(quotas, cs, granted, usages)
      invariant errors == 0 <==> NoScopeErrors(quotas, cs, i)
    {
      assert buffers[i].AsClaim() == cs[i];
      var x, after, errs := ServeOrPass(quotas, usages, buffers[i], cs, granted);
      forall j | 0 <= j < i ensures buffers[j] != buffers[i] {
      }
      granted, usages, errors := granted + [x], after, errors + errs;
    }
  }
}
