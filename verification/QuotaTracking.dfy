/**
  Consumption against many quotas: how many nodes a check allows, what consuming them does to the
  headrooms, and what holds over whole runs of consumption.
 */
module QuotaTracking {
  import opened Integers

  type Resources = map<string, int>

  /** The headrooms of all quotas, in order. */
  type Headrooms = seq<Resources>

  ghost predicate NonNegative(m: Resources) {
    forall r :: r in m ==> m[r] >= 0
  }

  /** Resource `r` of quota `i` is tracked and taken by each node. */
  ghost predicate Bears(h: Headrooms, matching: set<nat>, delta: Resources, i: nat, r: string) {
    i in matching && i < |h| && r in delta && delta[r] > 0 && r in h[i]
  }

  /** The test of the code, whose product is a 64-bit one. */
  ghost predicate Flagged(h: Headrooms, matching: set<nat>, delta: Resources, n: int, i: nat, r: string) {
    Bears(h, matching, delta, i, r) && h[i][r] < Int64(delta[r] * n)
  }

  ghost predicate AnyFlagged(h: Headrooms, matching: set<nat>, delta: Resources, n: int) {
    exists i: nat, r :: Flagged(h, matching, delta, n, i, r)
  }

  /** The number of nodes the code allows: the least quotient among the flagged entries, or all. */
  ghost predicate Allows(h: Headrooms, matching: set<nat>, delta: Resources, n: int, m: int) {
    && m <= n
    && (forall i: nat, r :: Flagged(h, matching, delta, n, i, r) ==> m <= h[i][r] / delta[r])
    && (m == n || exists i: nat, r :: Flagged(h, matching, delta, n, i, r) && m == h[i][r] / delta[r])
  }

  /** `m` nodes stay within every matching quota. */
  ghost predicate Fits(h: Headrooms, matching: set<nat>, delta: Resources, m: int) {
    forall i: nat, r :: Bears(h, matching, delta, i, r) ==> m * delta[r] <= h[i][r]
  }

  /** An entry that `n` nodes exceed and that the test passes over, because its product was cut. */
  ghost predicate Missed(h: Headrooms, matching: set<nat>, delta: Resources, n: int, i: nat, r: string) {
    Bears(h, matching, delta, i, r) && Int64(delta[r] * n) <= h[i][r] < delta[r] * n
  }

  /** Some flagged entry allows no more nodes than entry `r` of quota `i` has room for. */
  ghost predicate Outdone(h: Headrooms, matching: set<nat>, delta: Resources, n: int, i: nat, r: string)
    requires Bears(h, matching, delta, i, r)
  {
    exists j: nat, q :: Flagged(h, matching, delta, n, j, q) && h[j][q] / delta[q] <= h[i][r] / delta[r]
  }

  /** Every entry that is passed over is harmless, because a flagged one is at least as tight. */
  ghost predicate MissesAreHarmless(h: Headrooms, matching: set<nat>, delta: Resources, n: int) {
    forall i: nat, r :: Missed(h, matching, delta, n, i, r) ==> Outdone(h, matching, delta, n, i, r)
  }

  /** Headrooms are 64-bit numbers. */
  ghost predicate Representable(h: Headrooms) {
    forall i, r :: 0 <= i < |h| && r in h[i] ==> 0 <= h[i][r] < TWO_63
  }

  /** Cutting a product to 64 bits never flags an entry that fits. */
  lemma FlaggedExceeds(h: Headrooms, matching: set<nat>, delta: Resources, n: int, i: nat, r: string)
    requires Representable(h) && n >= 0 && Flagged(h, matching, delta, n, i, r)
    ensures h[i][r] < delta[r] * n
  {
    if delta[r] * n < TWO_63 {
      assert delta[r] * n >= 0;
      Int64Keeps(delta[r] * n);
    }
  }

  /** Products within 64 bits are never cut, so nothing is passed over. */
  lemma NarrowProductsAreSeen(h: Headrooms, matching: set<nat>, delta: Resources, n: int)
    requires n >= 0 && forall i: nat, r :: Bears(h, matching, delta, i, r) ==> delta[r] * n < TWO_63
    ensures MissesAreHarmless(h, matching, delta, n)
  {
    forall i: nat, r | Bears(h, matching, delta, i, r) ensures !Missed(h, matching, delta, n, i, r) {
      assert delta[r] * n >= 0;
      Int64Keeps(delta[r] * n);
    }
  }

  /** Four nodes of 2^62 each: the product of 2^64 is cut to zero and passes unnoticed. */
  lemma WideProductsAreMissed()
    ensures var h: Headrooms, delta: Resources := [map["memory" := 5]], map["memory" := TWO_63 / 2];
      Representable(h) && !Fits(h, {0}, delta, 4) && Allows(h, {0}, delta, 4, 4)
  {
    var h: Headrooms, delta: Resources := [map["memory" := 5]], map["memory" := TWO_63 / 2];
    assert Int64(delta["memory"] * 4) == 0;
    assert Bears(h, {0}, delta, 0, "memory");
  }

  /** The greatest number of nodes, up to `n`, that stays within every matching quota. */
  ghost predicate GreatestFit(h: Headrooms, matching: set<nat>, delta: Resources, n: int, m: int) {
    0 <= m <= n && Fits(h, matching, delta, m) && forall k :: m < k <= n ==> !Fits(h, matching, delta, k)
  }

  /**
    The allowed delta is the greatest number of nodes, up to the request, that fits every matching
    quota, if and only if every entry that is passed over is outdone by a flagged one. Whether or not
    it is, something is flagged exactly when the allowed delta is below the request.
   */
  lemma AllowedExactlyWhen(h: Headrooms, matching: set<nat>, delta: Resources, n: nat, m: int)
    requires Representable(h) && Allows(h, matching, delta, n, m)
    ensures GreatestFit(h, matching, delta, n, m) <==> MissesAreHarmless(h, matching, delta, n)
    ensures AnyFlagged(h, matching, delta, n) <==> m < n
  {
    AllowedIsTight(h, matching, delta, n, m);
    AllowedFlags(h, matching, delta, n, m);
    if MissesAreHarmless(h, matching, delta, n) {
      AllowedFits(h, matching, delta, n, m);
    }
    if Fits(h, matching, delta, m) {
      forall i: nat, r | Missed(h, matching, delta, n, i, r) ensures Outdone(h, matching, delta, n, i, r) {
        // The entry that set the allowed delta is tighter than one that the delta fits.
        DivisionFloors(h[i][r], delta[r], m);
        DivisionFloors(h[i][r], delta[r], n);
        var j: nat, q :| Flagged(h, matching, delta, n, j, q) && m == h[j][q] / delta[q];
        assert h[j][q] / delta[q] <= h[i][r] / delta[r];
      }
    }
  }

  /** Asking again for the number of nodes just allowed allows all of them. */
  lemma AllowedIsAllowed(h: Headrooms, matching: set<nat>, delta: Resources, n: nat, m: int, k: int)
    requires Representable(h) && MissesAreHarmless(h, matching, delta, n)
    requires Allows(h, matching, delta, n, m) && Allows(h, matching, delta, m, k)
    ensures k == m
  {
    AllowedExactlyWhen(h, matching, delta, n, m);
    FittingIsAllowed(h, matching, delta, m, k);
  }

  /** A number of nodes that fits is allowed in full. */
  lemma FittingIsAllowed(h: Headrooms, matching: set<nat>, delta: Resources, n: nat, m: int)
    requires Representable(h) && Fits(h, matching, delta, n) && Allows(h, matching, delta, n, m)
    ensures m == n
  {
    AllowedFlags(h, matching, delta, n, m);
    if AnyFlagged(h, matching, delta, n) {
      var i: nat, r :| Flagged(h, matching, delta, n, i, r);
      FlaggedExceeds(h, matching, delta, n, i, r);
    }
  }

  lemma AllowedIsTight(h: Headrooms, matching: set<nat>, delta: Resources, n: nat, m: int)
    requires Representable(h) && Allows(h, matching, delta, n, m)
    ensures 0 <= m && forall k :: m < k <= n ==> !Fits(h, matching, delta, k)
  {
    if m < n {
      forall k | m < k <= n ensures !Fits(h, matching, delta, k) {
        BeyondAllowed(h, matching, delta, n, m, k);
      }
      if m < 0 {
        BeyondAllowed(h, matching, delta, n, m, 0);
        assert Fits(h, matching, delta, 0);
      }
    }
  }

  lemma AllowedFlags(h: Headrooms, matching: set<nat>, delta: Resources, n: nat, m: int)
    requires Representable(h) && Allows(h, matching, delta, n, m)
    ensures AnyFlagged(h, matching, delta, n) <==> m < n
  {
    if m == n {
      forall i: nat, r | Flagged(h, matching, delta, n, i, r) ensures false {
        FlaggedBelow(h, matching, delta, n, i, r);
      }
    }
  }

  lemma AllowedFits(h: Headrooms, matching: set<nat>, delta: Resources, n: nat, m: int)
    requires Representable(h) && MissesAreHarmless(h, matching, delta, n) && Allows(h, matching, delta, n, m)
    ensures Fits(h, matching, delta, m)
  {
    forall i: nat, r | Bears(h, matching, delta, i, r) ensures m * delta[r] <= h[i][r] {
      EntryAllows(h, matching, delta, n, m, i, r);
    }
  }

  lemma BeyondAllowed(h: Headrooms, matching: set<nat>, delta: Resources, n: nat, m: int, k: int)
    requires Representable(h) && Allows(h, matching, delta, n, m) && m < n && m < k
    ensures !Fits(h, matching, delta, k)
  {
    var i: nat, r :| Flagged(h, matching, delta, n, i, r) && m == h[i][r] / delta[r];
    BeyondEntry(h, matching, delta, n, k, i, r);
  }

  lemma BeyondEntry(h: Headrooms, matching: set<nat>, delta: Resources, n: nat, k: int, i: nat, r: string)
    requires Representable(h) && Flagged(h, matching, delta, n, i, r) && h[i][r] / delta[r] < k
    ensures !Fits(h, matching, delta, k)
  {
    assert Bears(h, matching, delta, i, r);
    DivisionFloors(h[i][r], delta[r], k);
  }

  lemma FlaggedBelow(h: Headrooms, matching: set<nat>, delta: Resources, n: nat, i: nat, r: string)
    requires Representable(h) && Flagged(h, matching, delta, n, i, r)
    ensures h[i][r] / delta[r] < n
  {
    FlaggedExceeds(h, matching, delta, n, i, r);
    DivisionFloors(h[i][r], delta[r], n);
  }

  lemma EntryAllows(h: Headrooms, matching: set<nat>, delta: Resources, n: nat, m: int, i: nat, r: string)
    requires Representable(h) && MissesAreHarmless(h, matching, delta, n)
    requires Allows(h, matching, delta, n, m) && Bears(h, matching, delta, i, r)
    ensures m * delta[r] <= h[i][r]
  {
    DivisionFloors(h[i][r], delta[r], m);
    if Missed(h, matching, delta, n, i, r) {
      assert Outdone(h, matching, delta, n, i, r);
    } else if !Flagged(h, matching, delta, n, i, r) {
      DivisionFloors(h[i][r], delta[r], n);
    }
  }

  // ----- consuming -----

  function Max0(x: int): int {
    if x < 0 then 0 else x
  }

  /** One headroom after a product was taken from it, in 64-bit arithmetic and not below zero. */
  function LeftAfter(left: int, product: int): int {
    Max0(Int64(left - Int64(product)))
  }

  /** Taking a product from a headroom that passed the test is exact if and only if the product is a 64-bit number. */
  lemma LeftExactlyWhen(left: int, product: int)
    requires 0 <= left < TWO_63 && product >= 0 && Int64(product) <= left
    ensures LeftAfter(left, product) == left - product <==> product < TWO_63
    ensures LeftAfter(left, product) >= left - product && 0 <= LeftAfter(left, product) < TWO_63
  {
    if product < TWO_63 {
      Int64Keeps(product);
      Int64Keeps(left - product);
    }
  }

  /** One quota's headroom after `n` nodes were granted. */
  function Reduced(left: Resources, delta: Resources, n: int): Resources {
    map r | r in left :: if r in delta then LeftAfter(left[r], n * delta[r]) else left[r]
  }

  function Granted(h: Headrooms, matching: set<nat>, delta: Resources, n: int): (g: Headrooms)
    ensures |g| == |h| && forall i :: 0 <= i < |h| ==> g[i].Keys == h[i].Keys
  {
    seq(|h|, i requires 0 <= i < |h| => if i in matching then Reduced(h[i], delta, n) else h[i])
  }

  /** One request of a run: what a node takes, which quotas apply, how many nodes. */
  datatype Request = Request(delta: Resources, matching: set<nat>, nodes: nat)

  /** Requests whose products are 64-bit numbers and whose nodes take no negative amounts. */
  ghost predicate Bounded(q: Request) {
    NonNegative(q.delta) && forall r :: r in q.delta ==> q.nodes * q.delta[r] < TWO_63
  }

  /** All or nothing: a request is granted exactly when it fits. */
  ghost function Consume(h: Headrooms, q: Request): Headrooms {
    if Fits(h, q.matching, q.delta, q.nodes) then Granted(h, q.matching, q.delta, q.nodes) else h
  }

  /** What a granted request takes from one headroom. */
  ghost function Amount(q: Request, i: nat, r: string): int {
    if i in q.matching && r in q.delta then q.nodes * q.delta[r] else 0
  }

  /** Granting takes exactly the amounts: the clamp at zero never acts. */
  lemma GrantedExactly(h: Headrooms, q: Request, i: nat, r: string)
    requires Representable(h) && Bounded(q) && Fits(h, q.matching, q.delta, q.nodes) && i < |h| && r in h[i]
    ensures 0 <= Amount(q, i, r) <= h[i][r]
    ensures Granted(h, q.matching, q.delta, q.nodes)[i][r] == h[i][r] - Amount(q, i, r)
  {
    if i in q.matching && r in q.delta {
      assert q.nodes * q.delta[r] >= 0;
      if q.delta[r] > 0 {
        assert Bears(h, q.matching, q.delta, i, r);
      }
      Int64Keeps(q.nodes * q.delta[r]);
      LeftExactlyWhen(h[i][r], q.nodes * q.delta[r]);
    }
  }

  lemma ConsumeKeeps(h: Headrooms, q: Request)
    requires Representable(h) && Bounded(q)
    ensures var g := Consume(h, q); Representable(g) && |g| == |h| && forall i :: 0 <= i < |h| ==>
        g[i].Keys == h[i].Keys
  {
    if Fits(h, q.matching, q.delta, q.nodes) {
      var g := Granted(h, q.matching, q.delta, q.nodes);
      forall i, r | 0 <= i < |g| && r in g[i] ensures 0 <= g[i][r] < TWO_63 {
        GrantedExactly(h, q, i, r);
      }
    }
  }

  ghost function RunAll(h: Headrooms, qs: seq<Request>): Headrooms
    decreases |qs|
  {
    if qs == [] then h else RunAll(Consume(h, qs[0]), qs[1..])
  }

  /** Everything the run took from one headroom. */
  ghost function Taken(h: Headrooms, qs: seq<Request>, i: nat, r: string): int
    decreases |qs|
  {
    if qs == [] then 0
    else (if Fits(h, qs[0].matching, qs[0].delta, qs[0].nodes) then Amount(qs[0], i, r)
        else 0) + Taken(Consume(h, qs[0]), qs[1..], i, r)
  }

  /** Over any run, every headroom stays non-negative and is its starting value minus exactly what was granted. */
  lemma {:induction false} RunConserves(h: Headrooms, qs: seq<Request>, i: nat, r: string)
    requires Representable(h) && (forall k :: 0 <= k < |qs| ==> Bounded(qs[k])) && i < |h| && r in h[i]
    ensures var g := RunAll(h, qs);
      |g| == |h| && r in g[i] && 0 <= g[i][r] == h[i][r] - Taken(h, qs, i, r) && Taken(h, qs, i, r) >= 0
    decreases |qs|
  {
    if qs != [] {
      var g := Consume(h, qs[0]);
      ConsumeKeeps(h, qs[0]);
      RunConserves(g, qs[1..], i, r);
      if Fits(h, qs[0].matching, qs[0].delta, qs[0].nodes) {
        GrantedExactly(h, qs[0], i, r);
      }
    }
  }

  /** A maximum is never crossed upward and a minimum never downward by consumption, whatever the usage was before. */
  lemma LimitsAreNeverCrossed(h: Headrooms, qs: seq<Request>, i: nat, r: string, limit: int, usage: int)
    requires Representable(h) && (forall k :: 0 <= k < |qs| ==> Bounded(qs[k])) && i < |h| && r in h[i]
    ensures h[i][r] == Max0(limit - usage) ==>
      usage + Taken(h, qs, i, r) <= if usage <= limit then limit else usage
    ensures h[i][r] == Max0(usage - limit) ==>
      usage - Taken(h, qs, i, r) >= if usage >= limit then limit else usage
  {
    RunConserves(h, qs, i, r);
  }

  // ----- whole runs in 64-bit arithmetic -----

  /** The check of the code allows the whole request. */
  ghost predicate Passes(h: Headrooms, q: Request) {
    Allows(h, q.matching, q.delta, q.nodes, q.nodes)
  }

  /** What the code does with a request, whatever its products are. */
  ghost function Acted(h: Headrooms, q: Request): Headrooms {
    if Passes(h, q) then Granted(h, q.matching, q.delta, q.nodes) else h
  }

  ghost function ActAll(h: Headrooms, qs: seq<Request>): Headrooms
    decreases |qs|
  {
    if qs == [] then h else ActAll(Acted(h, qs[0]), qs[1..])
  }

  /** What the granted requests of the run really take from one headroom. */
  ghost function ActTaken(h: Headrooms, qs: seq<Request>, i: nat, r: string): int
    decreases |qs|
  {
    if qs == [] then 0
    else (if Passes(h, qs[0]) then Amount(qs[0], i, r) else 0) + ActTaken(Acted(h, qs[0]), qs[1..], i, r)
  }

  /** Every granted request takes a 64-bit amount from the headroom. */
  ghost predicate NarrowRun(h: Headrooms, qs: seq<Request>, i: nat, r: string)
    decreases |qs|
  {
    qs == [] || ((Passes(h, qs[0]) ==> Amount(qs[0], i, r) < TWO_63) && NarrowRun(Acted(h, qs[0]), qs[1..], i, r))
  }

  /** One granted request: the headroom is exact if and only if the amount is a 64-bit number, and too large
      otherwise. */
  lemma ActedExactlyWhen(h: Headrooms, q: Request, i: nat, r: string)
    requires Representable(h) && NonNegative(q.delta) && Passes(h, q) && i < |h| && r in h[i]
    ensures Amount(q, i, r) >= 0
    ensures var left := Granted(h, q.matching, q.delta, q.nodes)[i][r];
      0 <= left < TWO_63 && left >= h[i][r] - Amount(q, i, r)
          && (left == h[i][r] - Amount(q, i, r) <==> Amount(q, i, r) < TWO_63)
  {
    if i in q.matching && r in q.delta {
      var product := q.nodes * q.delta[r];
      assert product >= 0 && product == q.delta[r] * q.nodes;
      AllowedFlags(h, q.matching, q.delta, q.nodes, q.nodes);
      assert !Flagged(h, q.matching, q.delta, q.nodes, i, r);
      LeftExactlyWhen(h[i][r], product);
    }
  }

  lemma ActedKeeps(h: Headrooms, q: Request)
    requires Representable(h) && NonNegative(q.delta)
    ensures var g := Acted(h, q); Representable(g) && |g| == |h| && forall i :: 0 <= i < |h| ==> g[i].Keys == h[i].Keys
  {
    if Passes(h, q) {
      var g := Granted(h, q.matching, q.delta, q.nodes);
      forall i, r | 0 <= i < |g| && r in g[i] ensures 0 <= g[i][r] < TWO_63 {
        ActedExactlyWhen(h, q, i, r);
      }
    }
  }

  /**
    Over any run of the code: a headroom is its starting value minus exactly what was granted if and
    only if every granted amount is a 64-bit number; and exactly then no more was granted than there was.
   */
  lemma {:induction false} RunExactlyWhen(h: Headrooms, qs: seq<Request>, i: nat, r: string)
    requires Representable(h) && (forall k :: 0 <= k < |qs| ==> NonNegative(qs[k].delta)) && i < |h| && r in h[i]
    ensures var g := ActAll(h, qs);
      && |g| == |h| && r in g[i] && 0 <= g[i][r] < TWO_63 && ActTaken(h, qs, i, r) >= 0
      && (g[i][r] == h[i][r] - ActTaken(h, qs, i, r) <==> NarrowRun(h, qs, i, r))
      && (ActTaken(h, qs, i, r) <= h[i][r] <==> NarrowRun(h, qs, i, r))
    ensures ActAll(h, qs)[i][r] >= h[i][r] - ActTaken(h, qs, i, r)
    decreases |qs|
  {
    if qs != [] {
      var g := Acted(h, qs[0]);
      ActedKeeps(h, qs[0]);
      RunExactlyWhen(g, qs[1..], i, r);
      if Passes(h, qs[0]) {
        ActedExactlyWhen(h, qs[0], i, r);
      }
    }
  }

  /** With 64-bit products what the code does is the all-or-nothing consumption. */
  lemma ActedIsConsume(h: Headrooms, q: Request)
    requires Representable(h) && Bounded(q)
    ensures Acted(h, q) == Consume(h, q)
  {
    assert forall i: nat, r :: Bears(h, q.matching, q.delta, i, r) ==> q.delta[r] * q.nodes == q.nodes * q.delta[r];
    NarrowProductsAreSeen(h, q.matching, q.delta, q.nodes);
    if Passes(h, q) {
      AllowedExactlyWhen(h, q.matching, q.delta, q.nodes, q.nodes);
    }
    if Fits(h, q.matching, q.delta, q.nodes) {
      FittingPasses(h, q);
    }
  }

  lemma FittingPasses(h: Headrooms, q: Request)
    requires Representable(h) && Fits(h, q.matching, q.delta, q.nodes)
    ensures Passes(h, q)
  {
    forall i: nat, r ensures !Flagged(h, q.matching, q.delta, q.nodes, i, r) {
      if Flagged(h, q.matching, q.delta, q.nodes, i, r) {
        FlaggedExceeds(h, q.matching, q.delta, q.nodes, i, r);
      }
    }
  }

  lemma {:induction false} ActAllIsRunAll(h: Headrooms, qs: seq<Request>)
    requires Representable(h) && forall k :: 0 <= k < |qs| ==> Bounded(qs[k])
    ensures ActAll(h, qs) == RunAll(h, qs)
    decreases |qs|
  {
    if qs != [] {
      ActedIsConsume(h, qs[0]);
      ConsumeKeeps(h, qs[0]);
      ActAllIsRunAll(Consume(h, qs[0]), qs[1..]);
    }
  }

  lemma {:induction false} ActAllSnoc(h: Headrooms, qs: seq<Request>, q: Request)
    ensures ActAll(h, qs + [q]) == Acted(ActAll(h, qs), q)
    decreases |qs|
  {
    if qs == [] {
      assert ([] + [q])[1..] == [];
    } else {
      assert (qs + [q])[0] == qs[0] && (qs + [q])[1..] == qs[1..] + [q];
      ActAllSnoc(Acted(h, qs[0]), qs[1..], q);
    }
  }

  /** A request for nothing. */
  const NOTHING := Request(map[], {}, 0)

  lemma NothingActs(h: Headrooms)
    ensures Acted(h, NOTHING) == h
  {
    forall i | 0 <= i < |h| ensures Granted(h, {}, map[], 0)[i] == h[i] {
    }
  }

  // ----- consuming in two steps -----

  /** Fitting the sum of two requests is fitting the first and, afterwards, the second. */
  lemma FitsSplit(h: Headrooms, matching: set<nat>, delta: Resources, a: nat, b: nat)
    requires Representable(h) && Bounded(Request(delta, matching, a)) && Fits(h, matching, delta, a)
    ensures Fits(h, matching, delta, a + b) <==> Fits(Granted(h, matching, delta, a), matching, delta, b)
  {
    var g := Granted(h, matching, delta, a);
    forall i: nat, r | Bears(h, matching, delta, i, r)
      ensures (a + b) * delta[r] <= h[i][r] <==> b * delta[r] <= g[i][r]
    {
      GrantedExactly(h, Request(delta, matching, a), i, r);
      Distributes(a, b, delta[r]);
    }
    forall i: nat, r ensures Bears(g, matching, delta, i, r) <==> Bears(h, matching, delta, i, r) { }
    if Fits(h, matching, delta, a + b) {
      forall i: nat, r | Bears(g, matching, delta, i, r) ensures b * delta[r] <= g[i][r] {
        assert Bears(h, matching, delta, i, r);
      }
    }
    if Fits(g, matching, delta, b) {
      forall i: nat, r | Bears(h, matching, delta, i, r) ensures (a + b) * delta[r] <= h[i][r] {
        assert Bears(g, matching, delta, i, r);
      }
    }
  }

  lemma FitsFewer(h: Headrooms, matching: set<nat>, delta: Resources, a: nat, b: nat)
    requires a <= b && Fits(h, matching, delta, b)
    ensures Fits(h, matching, delta, a)
  {
    forall i: nat, r | Bears(h, matching, delta, i, r) ensures a * delta[r] <= h[i][r] {
      Distributes(a, b - a, delta[r]);
    }
  }

  /** Consuming `a` and then `b` both succeed exactly when consuming `a + b` does, with the same headrooms. */
  lemma ConsumeInTwoSteps(h: Headrooms, matching: set<nat>, delta: Resources, a: nat, b: nat)
    requires Representable(h) && Bounded(Request(delta, matching, a + b))
    ensures var g := Granted(h, matching, delta, a);
      (Fits(h, matching, delta, a) && Fits(g, matching, delta, b)) <==> Fits(h, matching, delta, a + b)
    ensures Fits(h, matching, delta, a + b) ==>
      Granted(Granted(h, matching, delta, a), matching, delta, b) == Granted(h, matching, delta, a + b)
  {
    BoundedFewer(delta, matching, a, a + b);
    BoundedFewer(delta, matching, b, a + b);
    if Fits(h, matching, delta, a + b) {
      FitsFewer(h, matching, delta, a, a + b);
    }
    if Fits(h, matching, delta, a) {
      FitsSplit(h, matching, delta, a, b);
    }
    if Fits(h, matching, delta, a + b) {
      SameHeadrooms(h, matching, delta, a, b);
    }
  }

  lemma BoundedFewer(delta: Resources, matching: set<nat>, a: nat, b: nat)
    requires a <= b && Bounded(Request(delta, matching, b))
    ensures Bounded(Request(delta, matching, a))
  {
    forall r | r in delta ensures a * delta[r] < TWO_63 {
      Distributes(a, b - a, delta[r]);
    }
  }

  /** Two grants take from one headroom what one grant of the sum takes. */
  lemma SameHeadroom(h: Headrooms, matching: set<nat>, delta: Resources, a: nat, b: nat, i: nat, r: string)
    requires Representable(h) && Bounded(Request(delta, matching, a)) && Bounded(Request(delta, matching, b))
        && Bounded(Request(delta, matching, a + b))
    requires Fits(h, matching, delta, a) && Fits(Granted(h, matching, delta, a), matching, delta, b)
        && Fits(h, matching, delta, a + b)
    requires Representable(Granted(h, matching, delta, a)) && i < |h| && r in h[i]
    ensures Granted(Granted(h, matching, delta, a), matching, delta, b)[i][r] ==
        Granted(h, matching, delta, a + b)[i][r]
  {
    var g := Granted(h, matching, delta, a);
    GrantedExactly(h, Request(delta, matching, a), i, r);
    assert g[i][r] == h[i][r] - Amount(Request(delta, matching, a), i, r);
    GrantedExactly(g, Request(delta, matching, b), i, r);
    assert Granted(g, matching, delta, b)[i][r] == g[i][r] - Amount(Request(delta, matching, b), i, r);
    GrantedExactly(h, Request(delta, matching, a + b), i, r);
    AmountsAdd(delta, matching, a, b, i, r);
  }

  lemma AmountsAdd(delta: Resources, matching: set<nat>, a: nat, b: nat, i: nat, r: string)
    ensures Amount(Request(delta, matching, a + b), i, r) ==
        Amount(Request(delta, matching, a), i, r) + Amount(Request(delta, matching, b), i, r)
  {
    if r in delta {
      Distributes(a, b, delta[r]);
    }
  }

  lemma SameHeadrooms(h: Headrooms, matching: set<nat>, delta: Resources, a: nat, b: nat)
    requires Representable(h) && Bounded(Request(delta, matching, a)) && Bounded(Request(delta, matching, b))
        && Bounded(Request(delta, matching, a + b))
    requires Fits(h, matching, delta, a) && Fits(Granted(h, matching, delta, a), matching, delta, b)
        && Fits(h, matching, delta, a + b)
    ensures Granted(Granted(h, matching, delta, a), matching, delta, b) == Granted(h, matching, delta, a + b)
  {
    ConsumeKeeps(h, Request(delta, matching, a));
    var two, one := Granted(Granted(h, matching, delta, a), matching, delta, b), Granted(h, matching, delta, a + b);
    forall i: nat, r | i < |h| && r in h[i] ensures two[i][r] == one[i][r] {
      SameHeadroom(h, matching, delta, a, b, i, r);
    }
    SameEntries(two, one);
  }

  lemma SameEntries(g: Headrooms, h: Headrooms)
    requires |g| == |h| && forall i :: 0 <= i < |h| ==> g[i].Keys == h[i].Keys
    requires forall i: nat, r :: i < |h| && r in h[i] ==> g[i][r] == h[i][r]
    ensures g == h
  {
    forall i | 0 <= i < |h| ensures g[i] == h[i] {
    }
  }
}
