/**
  The VMSS capacity update with ETags as an optimistic-concurrency protocol: a server whose
  accepted writes each get a new version, other writers between any two steps, and one client call
  that sends `If-Match` (section 13.1.1 of RFC 9110), is told 412 (section 15.5.13) and retries once.
 */
module CapacityUpdate {
  import opened Wrappers

  /** The server: the capacity written by each version, and the versions written by this client.
      The ETag of a version is its index. */
  datatype Server = Server(versions: seq<int>, mine: set<nat>) {
    ghost predicate Valid() {
      |versions| > 0 && forall v :: v in mine ==> 0 < v < |versions|
    }

    function Current(): nat
      requires |versions| > 0
    {
      |versions| - 1
    }

    function Capacity(): int
      requires |versions| > 0
    {
      versions[Current()]
    }
  }

  /** Writes of other clients, in order. */
  function Others(s: Server, capacities: seq<int>): Server {
    s.(versions := s.versions + capacities)
  }

  /** How a request travels: normally, not at all, or with its answer lost. */
  datatype Delivery = Delivered | Dropped | AnswerLost

  datatype Answer = Accepted | PreconditionFailed | Failed

  predicate Matches(s: Server, ifMatch: Option<nat>)
    requires |s.versions| > 0
  {
    ifMatch.None? || ifMatch.value == s.Current()
  }

  /** The server after a PUT: accepting it changes capacity and ETag in one step. */
  function AfterPut(s: Server, capacity: int, ifMatch: Option<nat>, d: Delivery): Server
    requires |s.versions| > 0
  {
    if d == Dropped || !Matches(s, ifMatch) then s
    else Server(s.versions + [capacity], s.mine + {|s.versions|})
  }

  /** What the client learns of a PUT. */
  function Answered(s: Server, ifMatch: Option<nat>, d: Delivery): Answer
    requires |s.versions| > 0
  {
    if d != Delivered then Failed else if Matches(s, ifMatch) then Accepted else PreconditionFailed
  }

  /** A freshly fetched scale set. */
  datatype Fetched = Fetched(capacity: int, etag: Option<nat>)

  /** Everything the environment decides during one call: other writers in the three gaps, the fate
      of both PUTs, whether the GET works and whether its answer carries an ETag. */
  datatype Net = Net(
    before: seq<int>, put: Delivery,
    beforeGet: seq<int>, getOk: bool, getEtag: bool,
    beforeRetry: seq<int>, retry: Delivery)

  /** Outcome for the caller: the PUT was accepted, the retried PUT was accepted, the target was
      already met, or the call failed, possibly after refreshing the cached object. */
  datatype Result =
    | Issued
    | Reissued(fetched: Fetched)
    | Satisfied(fetched: Fetched)
    | Rejected(refreshed: Option<Fetched>)
  {
    predicate Ok() { !Rejected? }
  }

  datatype Update = Update(server: Server, result: Result)

  function Retry(s: Server, newSize: int, net: Net): (u: Update)
    requires |s.versions| > 0
    ensures |u.server.versions| > 0
  {
    var s1 := Others(s, net.beforeGet);
    if !net.getOk then Update(s1, Rejected(None))
    else
      var fetched := Fetched(s1.Capacity(), if net.getEtag then Some(s1.Current()) else None);
      if fetched.capacity >= newSize then Update(s1, Satisfied(fetched))
      else
        var s2 := Others(s1, net.beforeRetry);
        Update(AfterPut(s2, newSize, fetched.etag, net.retry),
               if Answered(s2, fetched.etag, net.retry) == Accepted then Reissued(fetched) else Rejected(Some(fetched)))
  }

  /** One capacity update with the ETag held in the cache. */
  function Run(s: Server, etagEnabled: bool, etag: Option<nat>, newSize: int, net: Net): (u: Update)
    requires |s.versions| > 0
    ensures |u.server.versions| > 0
  {
    var ifMatch := if etagEnabled then etag else None;
    var s1 := Others(s, net.before);
    var s2 := AfterPut(s1, newSize, ifMatch, net.put);
    match Answered(s1, ifMatch, net.put)
    case Accepted => Update(s2, Issued)
    case PreconditionFailed => if etagEnabled then Retry(s2, newSize, net) else Update(s2, Rejected(None))
    case Failed => Update(s2, Rejected(None))
  }

  // ----- what a call does to the server -----

  /** `b` continues the history of `a`, and every version this client added keeps or raises the capacity. */
  ghost predicate NeverLowers(a: Server, b: Server) {
    && a.versions <= b.versions
    && a.mine <= b.mine
    && forall v :: v in b.mine && v !in a.mine ==>
        |a.versions| <= v < |b.versions| && 0 < v && b.versions[v-1] <= b.versions[v]
  }

  /** The capacity reached `size` at some version current during the call from `a` to `b`. */
  ghost predicate Reached(a: Server, b: Server, size: int) {
    exists v :: |a.versions| - 1 <= v < |b.versions| && 0 <= v && b.versions[v] >= size
  }

  lemma RetryNeverLowers(s: Server, newSize: int, net: Net)
    requires s.Valid() && net.getEtag
    ensures var u := Retry(s, newSize, net);
      u.server.Valid() && NeverLowers(s, u.server) && (u.result.Ok() ==> Reached(s, u.server, newSize))
  {
    var s1 := Others(s, net.beforeGet);
    if net.getOk {
      if s1.Capacity() >= newSize {
        assert s1.versions[s1.Current()] >= newSize;
      } else {
        var s2 := Others(s1, net.beforeRetry);
        var s3 := AfterPut(s2, newSize, Some(s1.Current()), net.retry);
        if s3 != s2 {
          assert s2.Current() == s1.Current();
          assert s3.versions[|s2.versions|] == newSize;
        }
      }
    }
  }

  lemma NeverLowersTrans(a: Server, b: Server, c: Server)
    requires NeverLowers(a, b) && NeverLowers(b, c)
    ensures NeverLowers(a, c)
  {
    forall v | v in c.mine && v !in a.mine
        ensures |a.versions| <= v < |c.versions| && 0 < v && c.versions[v-1] <= c.versions[v] {
      if v in b.mine {
        assert c.versions[v] == b.versions[v] && c.versions[v-1] == b.versions[v-1];
      }
    }
  }

  /** Accepting a PUT against a known ETag is accepting it against the capacity of that version. */
  lemma FirstPut(s: Server, etag: nat, newSize: int, net: Net)
    requires s.Valid() && etag < |s.versions| && s.versions[etag] <= newSize
    ensures var s2 := AfterPut(Others(s, net.before), newSize, Some(etag), net.put);
      && s2.Valid() && NeverLowers(s, s2)
      && (Answered(Others(s, net.before), Some(etag), net.put) == Accepted ==> Reached(s, s2, newSize))
  {
    var s1 := Others(s, net.before);
    var s2 := AfterPut(s1, newSize, Some(etag), net.put);
    if s2 != s1 {
      assert s2.versions[|s1.versions|] == newSize && s2.versions[|s1.versions|-1] == s.versions[etag];
    }
  }

  /**
    With ETags on, whatever other writers do: no PUT of this call lowers the capacity, and a call
    that reports success saw the capacity at its target or above.
   */
  lemma UpdateIsSafe(s: Server, etag: nat, newSize: int, net: Net)
    requires s.Valid() && etag < |s.versions| && net.getEtag
    requires etag == s.Current() ==> s.versions[etag] <= newSize
    ensures var u := Run(s, true, Some(etag), newSize, net);
      u.server.Valid() && NeverLowers(s, u.server) && (u.result.Ok() ==> Reached(s, u.server, newSize))
  {
    var s1 := Others(s, net.before);
    var s2 := AfterPut(s1, newSize, Some(etag), net.put);
    if etag == s.Current() {
      FirstPut(s, etag, newSize, net);
    }
    if Answered(s1, Some(etag), net.put) == PreconditionFailed {
      RetryNeverLowers(s2, newSize, net);
      var u := Retry(s2, newSize, net);
      NeverLowersTrans(s, s2, u.server);
      if u.result.Ok() {
        var v :| |s2.versions| - 1 <= v < |u.server.versions| && 0 <= v && u.server.versions[v] >= newSize;
        assert Reached(s, u.server, newSize);
      }
    }
  }

  /** With or without ETags, a call that reports success saw the capacity at its target or above. */
  lemma SuccessReaches(s: Server, on: bool, etag: Option<nat>, newSize: int, net: Net)
    requires s.Valid()
    ensures var u := Run(s, on, etag, newSize, net);
      u.server.Valid() && s.versions <= u.server.versions && (u.result.Ok() ==> Reached(s, u.server, newSize))
  {
    var ifMatch := if on then etag else None;
    var s1 := Others(s, net.before);
    var s2 := AfterPut(s1, newSize, ifMatch, net.put);
    var u := Run(s, on, etag, newSize, net);
    if u.result.Issued? {
      assert u.server.versions[|s1.versions|] == newSize;
    } else if u.result.Ok() {
      var s3 := Others(s2, net.beforeGet);
      if u.result.Satisfied? {
        assert u.server.versions[s3.Current()] >= newSize;
      } else {
        assert u.server.versions[|Others(s3, net.beforeRetry).versions|] == newSize;
      }
    }
  }

  /** The capacity that a GET after a refused PUT finds. */
  ghost function Refreshed(s: Server, net: Net): int
    requires |s.versions| > 0
  {
    var all := s.versions + net.before + net.beforeGet;
    all[|all|-1]
  }

  /**
    A call succeeds if and only if its PUT is delivered and, when it names a version that is no longer current, the
    refreshed object is read and either is large enough already or the second PUT is delivered before another
    write, or without a version to match.
   */
  lemma SucceedsExactlyWhen(s: Server, on: bool, etag: Option<nat>, newSize: int, net: Net)
    requires |s.versions| > 0
    ensures Run(s, on, etag, newSize, net).result.Ok() <==>
      && net.put == Delivered
      && (on && etag.Some? && etag.value != |s.versions| + |net.before| - 1 ==>
            && net.getOk
            && (Refreshed(s, net) >= newSize
                || (net.retry == Delivered && (net.getEtag ==> net.beforeRetry == []))))
  {
  }

  /** Where a call leaves the server: at the target when a PUT of it was accepted, and at or above it when none was
      needed. */
  lemma SuccessEndsAt(s: Server, on: bool, etag: Option<nat>, newSize: int, net: Net)
    requires s.Valid()
    ensures var u := Run(s, on, etag, newSize, net);
      && (u.result.Issued? || u.result.Reissued? ==>
            u.server.Capacity() == newSize && u.server.Current() in u.server.mine && u.server.Current() !in s.mine)
      && (u.result.Satisfied? ==>
            u.server.Capacity() == u.result.fetched.capacity >= newSize && u.server.mine == s.mine)
  {
  }

  /** A network without other writers or faults. */
  const CALM := Net([], Delivered, [], true, true, [], Delivered)

  /**
    Exactly when a call is safe in every interleaving in which a refreshed object carries its ETag:
    ETags are on, one is cached, and it is already outdated or the new size is not below the capacity
    it stands for. In particular it is safe when the size the client counts from is the capacity of
    the cached object.
   */
  lemma SafeExactlyWhen(s: Server, on: bool, etag: Option<nat>, newSize: int)
    requires s.Valid() && (etag.Some? ==> etag.value < |s.versions|)
    ensures (forall net: Net :: net.getEtag ==> NeverLowers(s, Run(s, on, etag, newSize, net).server))
            <==> on && etag.Some? && (etag.value < s.Current() || s.versions[etag.value] <= newSize)
  {
    if on && etag.Some? {
      if etag.value < s.Current() || s.versions[etag.value] <= newSize {
        forall net: Net | net.getEtag ensures NeverLowers(s, Run(s, true, etag, newSize, net).server) {
          UpdateIsSafe(s, etag.value, newSize, net);
        }
      } else {
        assert Others(s, []) == s;
        PutLowers(s, newSize);
        assert Run(s, true, etag, newSize, CALM).server == AfterPut(s, newSize, etag, Delivered);
      }
    } else {
      var net := CALM.(before := [newSize + 1]);
      var s1 := Others(s, [newSize + 1]);
      PutLowers(s1, newSize);
      LoweringSpreads(s, s1, AfterPut(s1, newSize, None, Delivered));
      assert Run(s, on, etag, newSize, net).server == AfterPut(s1, newSize, None, Delivered);
    }
  }

  /** An accepted PUT of less than the capacity lowers it. */
  lemma PutLowers(s: Server, newSize: int)
    requires s.Valid() && newSize < s.Capacity()
    ensures !NeverLowers(s, AfterPut(s, newSize, None, Delivered))
  {
    var b := AfterPut(s, newSize, None, Delivered);
    assert |s.versions| in b.mine && |s.versions| !in s.mine;
    assert b.versions[|s.versions|] == newSize && b.versions[|s.versions|-1] == s.Capacity();
  }

  /** What lowers the capacity after other writers does so from before them. */
  lemma LoweringSpreads(s: Server, s1: Server, b: Server)
    requires s.Valid() && s.versions <= s1.versions && s.mine == s1.mine && s1.versions <= b.versions
        && s1.mine <= b.mine
    requires (forall v :: v in b.mine && v !in s1.mine ==> |s1.versions| <= v < |b.versions|) && !NeverLowers(s1, b)
    ensures !NeverLowers(s, b)
  {
  }

  /** An interleaving whose refreshed object has no ETag: it is made outdated, seen small, and raised before the
      retry. */
  ghost function Blind(newSize: int): Net {
    CALM.(before := [newSize - 1], getEtag := false, beforeRetry := [newSize + 1])
  }

  /** If refreshed objects may come without an ETag, no call is safe in every interleaving. */
  lemma NoCallIsSafeBlind(s: Server, on: bool, etag: Option<nat>, newSize: int)
    requires s.Valid() && (etag.Some? ==> etag.value < |s.versions|)
    ensures exists net: Net :: !NeverLowers(s, Run(s, on, etag, newSize, net).server)
  {
    if on && etag.Some? {
      var net := Blind(newSize);
      var s1 := Others(s, [newSize - 1]);
      assert Others(s1, []) == s1;
      var s2 := Others(s1, [newSize + 1]);
      var b := AfterPut(s2, newSize, None, Delivered);
      PutLowers(s2, newSize);
      LoweringSpreads(s, s2, b);
      assert Run(s, on, etag, newSize, net).server == b;
    } else {
      SafeExactlyWhen(s, on, etag, newSize);
    }
  }

  /** Without ETags, without a cached ETag, or when the refreshing GET carries none, a PUT may lower the capacity. */
  lemma UnconditionalPutsMayLower()
    ensures var s, grown := Server([3], {}), CALM.(before := [10]);
      && !NeverLowers(s, Run(s, false, Some(0), 4, grown).server)
      && !NeverLowers(s, Run(s, true, None, 4, grown).server)
    ensures var s := Server([3], {});
      !NeverLowers(s, Run(s, true, Some(0), 4, CALM.(before := [3], getEtag := false, beforeRetry := [10])).server)
  {
    var s, grown := Server([3], {}), CALM.(before := [10]);
    assert Run(s, false, Some(0), 4, grown).server == Server([3, 10, 4], {2});
    assert Run(s, true, None, 4, grown).server == Server([3, 10, 4], {2});
    var net := CALM.(before := [3], getEtag := false, beforeRetry := [10]);
    assert Others(s, [3]) == Server([3, 3], {});
    assert Others(Server([3, 3], {}), []) == Server([3, 3], {});
    assert Others(Server([3, 3], {}), [10]) == Server([3, 3, 10], {});
    assert Run(s, true, Some(0), 4, net).server == Server([3, 3, 10, 4], {3});
    assert Server([3, 10, 4], {2}).versions[2] < Server([3, 10, 4], {2}).versions[1];
    assert Server([3, 3, 10, 4], {3}).versions[3] < Server([3, 3, 10, 4], {3}).versions[2];
  }

  /**
    Two calls of one process that overlap: B reads size 3, A raises the capacity from 3 to 8 and its
    wait adopts the new ETag, then B asks for 4 with an ETag that matches, and lowers the capacity.
   */
  lemma OverlappingCallsMayLower()
    ensures var a := Run(Server([3], {}), true, Some(0), 3 + 5, CALM);
      var b := Run(a.server, true, Some(a.server.Current()), 3 + 1, CALM);
      a.result == Issued && b.result == Issued && b.server.versions == [3, 8, 4] && !NeverLowers(a.server, b.server)
  {
    var a := Run(Server([3], {}), true, Some(0), 3 + 5, CALM);
    assert a.server == Server([3, 8], {1});
    PutLowers(a.server, 4);
    var b := Run(a.server, true, Some(a.server.Current()), 3 + 1, CALM);
    assert b.server == AfterPut(a.server, 4, None, Delivered);
  }
}
