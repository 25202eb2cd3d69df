/**
  Namespace quotas of the capacity-buffer controller: which quotas apply to a pod, how many replicas
  one quota still has room for, and when the answer of the 64-bit division can be relied on.
  Quantities are integers in one common small unit.
 */
module BufferQuotas {
  import opened Integers

  type Resource = string

  // ----- quota scopes -----

  datatype Scope =
    | NotTerminating
    | Terminating
    | BestEffort
    | NotBestEffort
    | PriorityClass
    | CrossNamespacePodAffinity
    | OtherScope
  datatype Operator = In | NotIn | Exists | DoesNotExist | OtherOperator
  datatype Selector = Selector(scope: Scope, operator: Operator, values: set<string>)

  datatype BufferPod = BufferPod(requests: map<Resource, nat>, priorityClass: string, crossNamespaceAffinity: bool)

  datatype Match = Match(matches: bool) | MatchError

  predicate IsBestEffort(pod: BufferPod) {
    "cpu" !in pod.requests && "memory" !in pod.requests
  }

  /** A selector on the priority class; label requirements demand values exactly for In and NotIn. */
  function MatchPriorityClass(pod: BufferPod, s: Selector): Match {
    var named := pod.priorityClass != "";
    match s.operator
    case Exists => Match(named)
    case In => if s.values == {} then MatchError else Match(named && pod.priorityClass in s.values)
    case NotIn => if s.values == {} then MatchError else Match(!named || pod.priorityClass !in s.values)
    case DoesNotExist => if s.values != {} then MatchError else Match(!named)
    case OtherOperator => MatchError
  }

  function MatchSelector(pod: BufferPod, s: Selector): Match {
    match s.scope
    case NotTerminating => Match(true)
    case Terminating => Match(false)
    case BestEffort => Match(IsBestEffort(pod))
    case NotBestEffort => Match(!IsBestEffort(pod))
    case PriorityClass => MatchPriorityClass(pod, s)
    case CrossNamespacePodAffinity => Match(pod.crossNamespaceAffinity)
    case OtherScope => Match(false)
  }

  /** A scope fails when any selector fails, and otherwise matches when all of them do. */
  ghost function MatchScope(pod: BufferPod, selectors: seq<Selector>): Match {
    if exists s :: s in selectors && MatchSelector(pod, s) == MatchError then MatchError
    else Match(forall s :: s in selectors ==> MatchSelector(pod, s) == Match(true))
  }

  /** A priority-class selector whose operator and values do not go together. */
  ghost predicate Malformed(s: Selector) {
    s.scope == PriorityClass && (
      || s.operator == OtherOperator
      || ((s.operator == In || s.operator == NotIn) && s.values == {})
      || (s.operator == DoesNotExist && s.values != {}))
  }

  /** What a selector asks of the requests, the priority class and the affinity of a pod. */
  ghost predicate Met(pod: BufferPod, s: Selector) {
    && s.scope != Terminating && s.scope != OtherScope
    && (s.scope == NotBestEffort ==> "cpu" in pod.requests || "memory" in pod.requests)
    && (s.scope == BestEffort ==> "cpu" !in pod.requests && "memory" !in pod.requests)
    && (s.scope == CrossNamespacePodAffinity ==> pod.crossNamespaceAffinity)
    && (s.scope == PriorityClass && s.operator == Exists ==> pod.priorityClass != "")
    && (s.scope == PriorityClass && s.operator == DoesNotExist ==> pod.priorityClass == "")
    && (s.scope == PriorityClass && s.operator == In ==> pod.priorityClass != "" && pod.priorityClass in s.values)
    && (s.scope == PriorityClass && s.operator == NotIn ==> pod.priorityClass == "" || pod.priorityClass !in s.values)
  }

  /** One selector against the fields of the pod: an error, a match or none. */
  lemma SelectorMeans(pod: BufferPod, s: Selector)
    ensures MatchSelector(pod, s) == if Malformed(s) then MatchError else Match(Met(pod, s))
  {
  }

  /** All selectors of one kind: which pods a list of them matches. */
  lemma UniformScopes(pod: BufferPod, selectors: seq<Selector>, scope: Scope)
    requires selectors != [] && forall s :: s in selectors ==> s.scope == scope
    ensures scope == NotBestEffort ==>
      MatchScope(pod, selectors) == Match("cpu" in pod.requests || "memory" in pod.requests)
    ensures scope == BestEffort ==>
      MatchScope(pod, selectors) == Match("cpu" !in pod.requests && "memory" !in pod.requests)
    ensures scope == Terminating || scope == OtherScope ==> MatchScope(pod, selectors) == Match(false)
    ensures scope == NotTerminating ==> MatchScope(pod, selectors) == Match(true)
    ensures scope == CrossNamespacePodAffinity ==> MatchScope(pod, selectors) == Match(pod.crossNamespaceAffinity)
  {
    forall s | s in selectors ensures MatchSelector(pod, s) == if Malformed(s) then MatchError else Match(Met(pod, s)) {
      SelectorMeans(pod, s);
    }
    assert selectors[0] in selectors;
  }

  /** The scope of a quota is an error exactly for a malformed selector, and matches exactly the pods that meet every
      selector. */
  method PodMatchesQuotaScope(pod: BufferPod, selectors: seq<Selector>) returns (m: Match)
    ensures m == MatchScope(pod, selectors)
    ensures m == MatchError <==> exists s :: s in selectors && Malformed(s)
    ensures m == Match(true) <==> forall s :: s in selectors ==> !Malformed(s) && Met(pod, s)
  {
    forall s | s in selectors ensures MatchSelector(pod, s) == if Malformed(s) then MatchError else Match(Met(pod, s)) {
      SelectorMeans(pod, s);
    }
    var matches := true;
    for i := 0 to |selectors|
      invariant forall s :: s in selectors[..i] ==> MatchSelector(pod, s) != MatchError
      invariant matches == forall s :: s in selectors[..i] ==> MatchSelector(pod, s) == Match(true)
    {
      var inner := MatchSelector(pod, selectors[i]);
      if inner == MatchError {
        return MatchError;
      }
      assert selectors[..i+1] == selectors[..i] + [selectors[i]];
      matches := matches && inner.matches;
    }
    assert selectors[..|selectors|] == selectors;
    return Match(matches);
  }

  // ----- quotas and requests -----

  datatype Quota = Quota(uid: nat, name: string, hard: map<Resource, int>, used: map<Resource, int>,
      selectors: seq<Selector>)

  function Get(m: map<Resource, int>, r: Resource): int {
    if r in m then m[r] else 0
  }

  /** Room left in a quota for buffers. */
  function Slack(q: Quota, r: Resource): (s: int)
    requires r in q.hard
    ensures s >= 0
  {
    var s := q.hard[r] - Get(q.used, r);
    if s < 0 then 0 else s
  }

  function Request(pod: BufferPod, r: Resource): nat {
    if r in pod.requests then pod.requests[r] else 0
  }

  /** `n` replicas on top of `reserved` stay within the quota. */
  ghost predicate QuotaAdmits(q: Quota, pod: BufferPod, reserved: map<Resource, int>, n: int) {
    forall r :: r in q.hard ==> Admits(q, pod, reserved, n, r)
  }

  ghost predicate Admits(q: Quota, pod: BufferPod, reserved: map<Resource, int>, n: int, r: Resource)
    requires r in q.hard
  {
    Get(reserved, r) + n * Request(pod, r) <= Slack(q, r)
  }

  /** Every quotient the division can produce is a 64-bit number. */
  ghost predicate QuotientsFit(q: Quota, pod: BufferPod) {
    forall r :: r in q.hard && Request(pod, r) > 0 ==> Slack(q, r) / Request(pod, r) < TWO_63
  }

  /** What is left of one resource. */
  function Available(q: Quota, reserved: map<Resource, int>, r: Resource): int
    requires r in q.hard
  {
    q.hard[r] - Get(q.used, r) - Get(reserved, r)
  }

  /** How many replicas one resource of the quota leaves room for. */
  function Fit(q: Quota, pod: BufferPod, reserved: map<Resource, int>, r: Resource): int
    requires r in q.hard
  {
    var req, available := Request(pod, r), Available(q, reserved, r);
    if req == 0 then TWO_63 - 1 else if available < 0 then 0 else available / req
  }

  ghost predicate WithinSlack(q: Quota, reserved: map<Resource, int>) {
    forall r :: r in q.hard ==> 0 <= Get(reserved, r) <= Slack(q, r)
  }

  lemma FitMeaning(q: Quota, pod: BufferPod, reserved: map<Resource, int>, r: Resource, n: int)
    requires WithinSlack(q, reserved) && r in q.hard && 0 <= n <= MAX_INT32
    ensures Admits(q, pod, reserved, n, r) <==> n <= Fit(q, pod, reserved, r)
  {
    var req, available := Request(pod, r), Available(q, reserved, r);
    if req > 0 {
      if available >= 0 {
        DivisionFloors(available, req, n);
      } else {
        assert n > 0 ==> n * req > 0;
      }
    }
  }

  /** The fits are 64-bit numbers when the quotients for the whole slack are. */
  lemma FitRange(q: Quota, pod: BufferPod, reserved: map<Resource, int>, r: Resource)
    requires QuotientsFit(q, pod) && r in q.hard && Get(reserved, r) >= 0
    ensures 0 <= Fit(q, pod, reserved, r) < TWO_63
  {
    var req, available := Request(pod, r), Available(q, reserved, r);
    if req > 0 && available >= 0 {
      DivisionFloors(available, req, available / req);
      DivisionFloors(Slack(q, r), req, available / req);
    }
  }

  lemma FitNonNegative(q: Quota, pod: BufferPod, reserved: map<Resource, int>, r: Resource)
    requires r in q.hard
    ensures Fit(q, pod, reserved, r) >= 0
  {
    var req, available := Request(pod, r), Available(q, reserved, r);
    if req > 0 && available >= 0 {
      DivisionFloors(available, req, 0);
    }
  }

  /** `m` is the least of the fits of all resources, capped at 32 bits. */
  ghost predicate LeastFit(q: Quota, pod: BufferPod, reserved: map<Resource, int>, m: int) {
    && (forall r :: r in q.hard ==> m <= Fit(q, pod, reserved, r))
    && (m == MAX_INT32 || exists r :: r in q.hard && m == Fit(q, pod, reserved, r))
  }

  /** The greatest number of replicas, up to 32 bits, that the quota admits. */
  ghost predicate GreatestAdmitted(q: Quota, pod: BufferPod, reserved: map<Resource, int>, m: int) {
    && 0 <= m <= MAX_INT32 && QuotaAdmits(q, pod, reserved, m)
    && forall n :: m < n <= MAX_INT32 ==> !QuotaAdmits(q, pod, reserved, n)
  }

  lemma LeastFitIsGreatest(q: Quota, pod: BufferPod, reserved: map<Resource, int>, m: int)
    requires WithinSlack(q, reserved) && 0 <= m <= MAX_INT32
    ensures GreatestAdmitted(q, pod, reserved, m) <==> LeastFit(q, pod, reserved, m)
  {
    if LeastFit(q, pod, reserved, m) {
      LeastFitAdmits(q, pod, reserved, m);
    }
    if GreatestAdmitted(q, pod, reserved, m) {
      forall r | r in q.hard ensures m <= Fit(q, pod, reserved, r) {
        assert Admits(q, pod, reserved, m, r);
        FitMeaning(q, pod, reserved, r, m);
      }
      if m < MAX_INT32 {
        assert !QuotaAdmits(q, pod, reserved, m + 1);
        var r :| r in q.hard && !Admits(q, pod, reserved, m + 1, r);
        FitMeaning(q, pod, reserved, r, m + 1);
      }
    }
  }

  lemma LeastFitAdmits(q: Quota, pod: BufferPod, reserved: map<Resource, int>, m: int)
    requires WithinSlack(q, reserved) && 0 <= m <= MAX_INT32 && LeastFit(q, pod, reserved, m)
    ensures GreatestAdmitted(q, pod, reserved, m)
  {
    forall r | r in q.hard ensures Admits(q, pod, reserved, m, r) {
      FitMeaning(q, pod, reserved, r, m);
    }
    forall n | m < n <= MAX_INT32 ensures !QuotaAdmits(q, pod, reserved, n) {
      var r :| r in q.hard && m == Fit(q, pod, reserved, r);
      FitMeaning(q, pod, reserved, r, n);
    }
  }

  // ----- what the code answers -----

  /** Some resource that the pod requests is used beyond its limit. */
  ghost predicate Deficit(q: Quota, pod: BufferPod, reserved: map<Resource, int>) {
    exists r :: r in q.hard && InDeficit(q, pod, reserved, r)
  }

  predicate InDeficit(q: Quota, pod: BufferPod, reserved: map<Resource, int>, r: Resource)
    requires r in q.hard
  {
    Request(pod, r) > 0 && Available(q, reserved, r) < 0
  }

  /** The quotient of one resource as the code holds it, in 64 bits. */
  function CutFit(q: Quota, pod: BufferPod, reserved: map<Resource, int>, r: Resource): int
    requires r in q.hard
  {
    Int64(Fit(q, pod, reserved, r))
  }

  /** `m` is the least of the cut quotients of the resources in `done`, and no more than the largest 64-bit number. */
  ghost predicate LeastCut(q: Quota, pod: BufferPod, reserved: map<Resource, int>, done: set<Resource>, m: int)
    requires done <= q.hard.Keys
  {
    && m < TWO_63 && (forall r :: r in done ==> m <= CutFit(q, pod, reserved, r))
    && (m == TWO_63 - 1 || exists r :: r in done && m == CutFit(q, pod, reserved, r))
  }

  /** The final cap and the conversion to 32 bits. */
  function Narrowed(m: int): int {
    if m > MAX_INT32 then MAX_INT32 else Int32(m)
  }

  /** The answer of the code, whatever the order of the resources. */
  ghost predicate Answers(q: Quota, pod: BufferPod, reserved: map<Resource, int>, answer: int) {
    if Deficit(q, pod, reserved) then answer == 0
    else exists m :: LeastCut(q, pod, reserved, q.hard.Keys, m) && answer == Narrowed(m)
  }

  /** No cut quotient is below 32 bits and below every exact quotient. */
  ghost predicate CutsAreHarmless(q: Quota, pod: BufferPod, reserved: map<Resource, int>) {
    forall r :: r in q.hard ==> CutIsHarmless(q, pod, reserved, r)
  }

  ghost predicate CutIsHarmless(q: Quota, pod: BufferPod, reserved: map<Resource, int>, r: Resource)
    requires r in q.hard
  {
    CutFit(q, pod, reserved, r) >= MAX_INT32
    || exists s :: s in q.hard && Fit(q, pod, reserved, s) <= CutFit(q, pod, reserved, r)
  }

  /** The least cut quotient is negative, and its low 32 bits happen to be the least exact quotient. */
  ghost predicate NarrowsByChance(q: Quota, pod: BufferPod, reserved: map<Resource, int>, r: Resource)
    requires r in q.hard
  {
    var cut := CutFit(q, pod, reserved, r);
    && cut < 0 && (forall s :: s in q.hard ==> cut <= CutFit(q, pod, reserved, s))
    && 0 <= Int32(cut) && LeastFit(q, pod, reserved, Int32(cut))
  }

  /** When the answer can be relied on. */
  ghost predicate Reliable(q: Quota, pod: BufferPod, reserved: map<Resource, int>) {
    || Deficit(q, pod, reserved)
    || CutsAreHarmless(q, pod, reserved)
    || exists r :: r in q.hard && NarrowsByChance(q, pod, reserved, r)
  }

  /**
    The answer is the greatest number of replicas that the quota admits if and only if some requested
    resource is in deficit, no quotient is cut below the least exact one, or the conversion of a
    negative one to 32 bits happens to undo the cut.
   */
  lemma AnswerExactlyWhen(q: Quota, pod: BufferPod, reserved: map<Resource, int>, answer: int)
    requires WithinSlack(q, reserved) && Answers(q, pod, reserved, answer)
    ensures GreatestAdmitted(q, pod, reserved, answer) <==> Reliable(q, pod, reserved)
  {
    if Deficit(q, pod, reserved) {
      DeficitAdmitsNone(q, pod, reserved);
    } else {
      var m :| LeastCut(q, pod, reserved, q.hard.Keys, m) && answer == Narrowed(m);
      if m < 0 {
        NegativeAnswer(q, pod, reserved, m);
      } else {
        NonNegativeAnswer(q, pod, reserved, m);
      }
    }
  }

  lemma DeficitAdmitsNone(q: Quota, pod: BufferPod, reserved: map<Resource, int>)
    requires WithinSlack(q, reserved) && Deficit(q, pod, reserved)
    ensures GreatestAdmitted(q, pod, reserved, 0)
  {
    var r :| r in q.hard && InDeficit(q, pod, reserved, r);
    forall s | s in q.hard ensures 0 <= Fit(q, pod, reserved, s) {
      FitNonNegative(q, pod, reserved, s);
    }
    assert Fit(q, pod, reserved, r) == 0;
    LeastFitIsGreatest(q, pod, reserved, 0);
  }

  /** A least cut quotient that is not negative. */
  lemma NonNegativeAnswer(q: Quota, pod: BufferPod, reserved: map<Resource, int>, m: int)
    requires WithinSlack(q, reserved) && LeastCut(q, pod, reserved, q.hard.Keys, m) && m >= 0
    ensures GreatestAdmitted(q, pod, reserved, Narrowed(m)) <==> CutsAreHarmless(q, pod, reserved)
    ensures forall r :: r in q.hard ==> !NarrowsByChance(q, pod, reserved, r)
  {
    var answer := if m > MAX_INT32 then MAX_INT32 else m;
    if m <= MAX_INT32 {
      Int32Keeps(m);
    }
    forall r | r in q.hard ensures answer <= Fit(q, pod, reserved, r) {
      FitNonNegative(q, pod, reserved, r);
      Int64Below(Fit(q, pod, reserved, r));
    }
    LeastFitIsGreatest(q, pod, reserved, answer);
    if m >= MAX_INT32 {
      forall r | r in q.hard ensures CutIsHarmless(q, pod, reserved, r) {
      }
    } else {
      var r :| r in q.hard && m == CutFit(q, pod, reserved, r);
      if CutsAreHarmless(q, pod, reserved) {
        assert CutIsHarmless(q, pod, reserved, r);
      }
      if LeastFit(q, pod, reserved, m) {
        var s :| s in q.hard && m == Fit(q, pod, reserved, s);
        forall r | r in q.hard ensures CutIsHarmless(q, pod, reserved, r) {
          assert Fit(q, pod, reserved, s) <= CutFit(q, pod, reserved, r);
        }
      }
    }
  }

  /** A least cut quotient that is negative. */
  lemma NegativeAnswer(q: Quota, pod: BufferPod, reserved: map<Resource, int>, m: int)
    requires WithinSlack(q, reserved) && LeastCut(q, pod, reserved, q.hard.Keys, m)
    ensures m < 0 ==> !CutsAreHarmless(q, pod, reserved)
    ensures m < 0 ==>
      (GreatestAdmitted(q, pod, reserved, Narrowed(m)) <==>
       exists r :: r in q.hard && NarrowsByChance(q, pod, reserved, r))
  {
    if m < 0 {
      var r :| r in q.hard && m == CutFit(q, pod, reserved, r);
      forall s | s in q.hard ensures m < Fit(q, pod, reserved, s) {
        FitNonNegative(q, pod, reserved, s);
      }
      assert !CutIsHarmless(q, pod, reserved, r);
      if 0 <= Int32(m) {
        LeastFitIsGreatest(q, pod, reserved, Int32(m));
      }
      if GreatestAdmitted(q, pod, reserved, Int32(m)) {
        assert NarrowsByChance(q, pod, reserved, r);
      }
    }
  }

  /** With 64-bit quotients nothing is cut, so the answer can be relied on. */
  lemma NarrowQuotientsAreReliable(q: Quota, pod: BufferPod, reserved: map<Resource, int>)
    requires QuotientsFit(q, pod) && forall r :: r in q.hard ==> Get(reserved, r) >= 0
    ensures Reliable(q, pod, reserved)
  {
    forall r | r in q.hard ensures CutIsHarmless(q, pod, reserved, r) {
      FitRange(q, pod, reserved, r);
      Int64Keeps(Fit(q, pod, reserved, r));
    }
  }

  /** Only what is reserved of the limited resources matters. */
  lemma ReliableSame(q: Quota, pod: BufferPod, a: map<Resource, int>, b: map<Resource, int>)
    requires Reliable(q, pod, a) && forall r :: r in q.hard ==> Get(a, r) == Get(b, r)
    ensures Reliable(q, pod, b)
  {
    forall r | r in q.hard
      ensures Fit(q, pod, a, r) == Fit(q, pod, b, r) && (InDeficit(q, pod, a, r) <==> InDeficit(q, pod, b, r))
    {
    }
    if Deficit(q, pod, a) {
      assert Deficit(q, pod, b);
    } else if CutsAreHarmless(q, pod, a) {
      forall r | r in q.hard ensures CutIsHarmless(q, pod, b, r) {
        assert CutIsHarmless(q, pod, a, r);
      }
    } else {
      var r :| r in q.hard && NarrowsByChance(q, pod, a, r);
      forall s | s in q.hard ensures CutFit(q, pod, b, r) <= CutFit(q, pod, b, s) {
        assert CutFit(q, pod, a, r) <= CutFit(q, pod, a, s);
      }
      assert NarrowsByChance(q, pod, b, r);
    }
  }

  lemma LeastCutStep(q: Quota, pod: BufferPod, reserved: map<Resource, int>, done: set<Resource>, r: Resource, m: int)
    requires done <= q.hard.Keys && r in q.hard && LeastCut(q, pod, reserved, done, m)
    ensures var f := CutFit(q, pod, reserved, r);
      LeastCut(q, pod, reserved, done + {r}, if f < m then f else m)
  {
    var f := CutFit(q, pod, reserved, r);
    if m != TWO_63 - 1 && m <= f {
      var s :| s in done && m == CutFit(q, pod, reserved, s);
      assert s in done + {r};
    } else if f < m {
      assert r in done + {r};
    }
  }

  /** Whatever the order of the resources, the answer is the greatest number of replicas the quota admits exactly when
      it is reliable. */
  method GetMaxReplicasForQuota(q: Quota, pod: BufferPod, reserved: map<Resource, int>) returns (maxReplicas: int)
    ensures Answers(q, pod, reserved, maxReplicas)
    ensures WithinSlack(q, reserved) ==>
        (GreatestAdmitted(q, pod, reserved, maxReplicas) <==> Reliable(q, pod, reserved))
  {
    maxReplicas := LeastQuotient(q, pod, reserved);
    if WithinSlack(q, reserved) {
      AnswerExactlyWhen(q, pod, reserved, maxReplicas);
    }
  }

  /** The loop over the resources. */
  method LeastQuotient(q: Quota, pod: BufferPod, reserved: map<Resource, int>) returns (maxReplicas: int)
    ensures Answers(q, pod, reserved, maxReplicas)
  {
    var best := TWO_63 - 1;
    var todo := q.hard.Keys;
    while todo != {}
      invariant todo <= q.hard.Keys
      invariant forall r :: r in q.hard && r !in todo ==> !InDeficit(q, pod, reserved, r)
      invariant LeastCut(q, pod, reserved, q.hard.Keys - todo, best)
      decreases todo
    {
      var r :| r in todo;
      ghost var done := q.hard.Keys - todo;
      todo := todo - {r};
      assert q.hard.Keys - todo == done + {r};
      LeastCutStep(q, pod, reserved, done, r, best);
      var req := Request(pod, r);
      if req == 0 {
        Int64Keeps(TWO_63 - 1);
        continue;
      }
      var available := Available(q, reserved, r);
      if available < 0 {
        assert InDeficit(q, pod, reserved, r);
        return 0;
      }
      var fit := Int64(available / req);
      if fit < best {
        best := fit;
      }
    }
    assert q.hard.Keys - {} == q.hard.Keys;
    maxReplicas := if best > MAX_INT32 then MAX_INT32 else Int32(best);
    assert maxReplicas == Narrowed(best);
  }

  /** A quotient of 2^64 is cut to zero, so a quota with ample room answers that nothing fits. */
  lemma WideQuotientsAreCut(answer: int)
    requires var q := Quota(0, "", map["cpu" := 2 * TWO_63], map[], []);
      Answers(q, BufferPod(map["cpu" := 1], "", false), map[], answer)
    ensures var q, pod := Quota(0, "", map["cpu" := 2 * TWO_63], map[], []), BufferPod(map["cpu" := 1], "", false);
      answer == 0 && QuotaAdmits(q, pod, map[], MAX_INT32)
  {
    var q, pod := Quota(0, "", map["cpu" := 2 * TWO_63], map[], []), BufferPod(map["cpu" := 1], "", false);
    assert "cpu" in q.hard && CutFit(q, pod, map[], "cpu") == 0;
  }

  /** A quotient of 2^63 + 5 is cut to a negative number, and its low 32 bits are answered. */
  lemma NegativeQuotientsAreNarrowed(answer: int)
    requires var q := Quota(0, "", map["cpu" := TWO_63 + 5], map[], []);
      Answers(q, BufferPod(map["cpu" := 1], "", false), map[], answer)
    ensures var q, pod := Quota(0, "", map["cpu" := TWO_63 + 5], map[], []), BufferPod(map["cpu" := 1], "", false);
      answer == 5 && QuotaAdmits(q, pod, map[], MAX_INT32)
  {
    var q, pod := Quota(0, "", map["cpu" := TWO_63 + 5], map[], []), BufferPod(map["cpu" := 1], "", false);
    assert "cpu" in q.hard && CutFit(q, pod, map[], "cpu") == 5 - TWO_63;
  }
}
