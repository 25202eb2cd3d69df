/**
  The scale set as an object: its in-memory size, the shared cached VMSS object, and the
  operations that resize it, delete instances or refresh the cache. Times are inputs.
 */
module ScaleSets {
  import opened Wrappers
  import opened CapacityUpdate

  /** The VMSS object of the cache; only capacity and ETag matter here. */
  class Vmss {
    var capacity: int
    var etag: Option<nat>

    constructor (capacity: int, etag: Option<nat>)
      ensures this.capacity == capacity && this.etag == etag
    {
      this.capacity, this.etag := capacity, etag;
    }
  }

  /** The object holds what was fetched. */
  ghost predicate Holds(vmss: Vmss, f: Fetched)
    reads vmss
  {
    vmss.capacity == f.capacity && vmss.etag == f.etag
  }

  class Azure {
    var state: Server

    constructor (capacity: nat)
      ensures state == Server([capacity], {})
    {
      state := Server([capacity], {});
    }
  }

  datatype Config = Config(
    minSize: int, maxSize: int, spot: bool,
    sizeRefreshPeriod: int, getVmssSizeRefreshPeriod: int,
    enableVmssEtag: bool, strictCacheUpdates: bool)

  /** The environment of a size read: other writers before the GET, whether it works, whether it carries an ETag. */
  datatype SizeGet = SizeGet(before: seq<int>, ok: bool, etag: bool)

  /** The end of a long-running update: an error, or success with the ETag of the response, if any. */
  datatype Poll = PollError | PollDone(etag: Option<nat>)

  const ZERO_TIME := 0

  ghost predicate NonNegative(xs: seq<int>) {
    forall i :: 0 <= i < |xs| ==> xs[i] >= 0
  }

  ghost predicate Sane(net: Net) {
    NonNegative(net.before) && NonNegative(net.beforeGet) && NonNegative(net.beforeRetry)
  }

  lemma RunStaysSane(s: Server, on: bool, etag: Option<nat>, newSize: int, net: Net)
    requires s.Valid() && NonNegative(s.versions) && Sane(net) && newSize >= 0
    ensures var u := Run(s, on, etag, newSize, net);
      && u.server.Valid() && NonNegative(u.server.versions)
      && (u.result.Reissued? || u.result.Satisfied? ==> u.result.fetched.capacity >= 0)
      && (u.result.Rejected? && u.result.refreshed.Some? ==> u.result.refreshed.value.capacity >= 0)
  {
  }

  class ScaleSet {
    const azure: Azure
    const config: Config
    var cached: Vmss?
    var curSize: int
    var lastSizeRefresh: int

    constructor (azure: Azure, config: Config, curSize: int, cached: Vmss?)
      requires curSize >= -1
      ensures this.azure == azure && this.config == config && this.curSize == curSize && this.cached == cached
    {
      this.azure, this.config, this.cached, this.curSize := azure, config, cached, curSize;
      lastSizeRefresh := ZERO_TIME;
    }

    /** In every state: capacities are natural numbers, and the in-memory size is one or the marker -1. */
    ghost predicate Valid()
      reads this, azure, cached
    {
      && azure.state.Valid() && NonNegative(azure.state.versions)
      && (cached != null ==> cached.capacity >= 0)
      && curSize >= -1
    }

    /** The in-memory size is the cached capacity, and the cached ETag stands for that capacity. */
    ghost predicate Synced()
      reads this, azure, cached
    {
      && cached != null && cached.etag.Some? && cached.etag.value < |azure.state.versions|
      && azure.state.versions[cached.etag.value] == cached.capacity == curSize
    }

    /** The cached ETag is outdated, or stands for no more than the new size. */
    ghost predicate EtagCovers(etag: Option<nat>, newSize: int)
      requires azure.state.Valid()
      reads this, azure
    {
      && config.enableVmssEtag && etag.Some? && etag.value < |azure.state.versions|
      && (etag.value < azure.state.Current() || azure.state.versions[etag.value] <= newSize)
    }

    /** The size was read less than a refresh period ago. */
    ghost predicate Recent(now: int)
      reads this
    {
      now - lastSizeRefresh < if config.spot then config.getVmssSizeRefreshPeriod else config.sizeRefreshPeriod
    }

    /** The size a read gives now: the one in memory, that of the server for spot instances, or the cached capacity. */
    ghost function SizeRead(now: int, get: SizeGet): Option<int>
      requires |azure.state.versions| > 0
      reads this, azure, cached
    {
      if cached == null || (!Recent(now) && config.spot && !get.ok) then None
      else if Recent(now) then Some(curSize)
      else if config.spot then Some((azure.state.versions + get.before)[|azure.state.versions + get.before| - 1])
      else Some(cached.capacity)
    }

    /** The server and the cached ETag once the size is read. */
    ghost function ServerRead(now: int, get: SizeGet): Server
      reads this, azure
    {
      if cached == null || Recent(now) || !config.spot then azure.state else Others(azure.state, get.before)
    }

    ghost function EtagRead(now: int, get: SizeGet): Option<nat>
      requires |azure.state.versions| > 0
      reads this, azure, cached
    {
      if cached == null then None
      else if Recent(now) || !config.spot then cached.etag
      else if get.etag then Some(|azure.state.versions| + |get.before| - 1)
      else None
    }

    /** The size is known and may grow by this much. */
    ghost predicate MayGrow(delta: int, now: int, get: SizeGet)
      requires |azure.state.versions| > 0
      reads this, azure, cached
    {
      && delta > 0 && SizeRead(now, get).Some?
      && 0 <= SizeRead(now, get).value <= config.maxSize - delta
    }

    /** The update that an increase starts once the size is read. */
    ghost function UpdateFor(delta: int, now: int, get: SizeGet, net: Net): Update
      requires |azure.state.versions| > 0 && SizeRead(now, get).Some?
      reads this, azure, cached
    {
      Run(ServerRead(now, get), config.enableVmssEtag, EtagRead(now, get), SizeRead(now, get).value + delta, net)
    }

    method GetCurSize(now: int, get: SizeGet) returns (size: int, ok: bool)
      requires Valid() && NonNegative(get.before)
      modifies this, azure
      ensures Valid()
      ensures ok <==> old(SizeRead(now, get)).Some?
      ensures ok ==> size == old(SizeRead(now, get)).value && cached != null && cached.etag == old(EtagRead(now, get))
      ensures azure.state == old(ServerRead(now, get))
      ensures lastSizeRefresh == if old(Recent(now)) || !ok then old(lastSizeRefresh) else now
      ensures ok ==> size == curSize
      ensures !ok ==> curSize == old(curSize) && size == -1
      ensures NeverLowers(old(azure.state), azure.state)
      ensures cached == old(cached) || (cached != null && fresh(cached))
      ensures ok ==> cached != null
      ensures old(Synced()) && get.etag ==> Synced()
      ensures old(Synced()) && !config.spot ==> curSize == old(curSize)
    {
      if cached == null {
        return -1, false;
      }
      var period := if config.spot then config.getVmssSizeRefreshPeriod else config.sizeRefreshPeriod;
      if lastSizeRefresh + period > now {
        return curSize, true;
      }
      if config.spot {
        azure.state := Others(azure.state, get.before);
        if !get.ok {
          return -1, false;
        }
        cached := new Vmss(azure.state.Capacity(), if get.etag then Some(azure.state.Current()) else None);
      }
      curSize := cached.capacity;
      lastSizeRefresh := now;
      return curSize, true;
    }

    method GetScaleSetSize(now: int, get: SizeGet) returns (size: int, ok: bool)
      requires Valid() && NonNegative(get.before)
      modifies this, azure
      ensures Valid()
      ensures ok <==> old(SizeRead(now, get)).Some? && old(SizeRead(now, get)).value >= 0
      ensures ok ==> size == old(SizeRead(now, get)).value && cached != null && cached.etag == old(EtagRead(now, get))
      ensures azure.state == old(ServerRead(now, get))
      ensures ok ==> size == curSize >= 0 && cached != null
      ensures !ok ==> curSize == old(curSize) || curSize == size == -1
      ensures NeverLowers(old(azure.state), azure.state)
      ensures cached == old(cached) || (cached != null && fresh(cached))
      ensures old(Synced()) && get.etag ==> Synced()
      ensures old(Synced()) && !config.spot ==> curSize == old(curSize)
    {
      size, ok := GetCurSize(now, get);
      if ok && size == -1 {
        ok := false;
      }
    }

    method CanIncreaseSize(delta: int, now: int, get: SizeGet) returns (size: int, ok: bool)
      requires Valid() && NonNegative(get.before)
      modifies this, azure
      ensures Valid()
      ensures ok <==> old(MayGrow(delta, now, get))
      ensures ok ==> size == old(SizeRead(now, get)).value && cached != null && cached.etag == old(EtagRead(now, get))
      ensures azure.state == if delta > 0 then old(ServerRead(now, get)) else old(azure.state)
      ensures ok ==> delta > 0 && size == curSize >= 0 && size + delta <= config.maxSize && cached != null
      ensures !ok ==> curSize == old(curSize) || curSize == size
      ensures NeverLowers(old(azure.state), azure.state)
      ensures cached == old(cached) || (cached != null && fresh(cached))
      ensures old(Synced()) && get.etag ==> Synced()
      ensures old(Synced()) && !config.spot ==> curSize == old(curSize)
    {
      if delta <= 0 {
        return -1, false;
      }
      size, ok := GetScaleSetSize(now, get);
      if ok && size + delta > config.maxSize {
        ok := false;
      }
    }

    /** The object to track, whether an update is running, and success. The in-memory size is not
        touched; a retry leaves a freshly fetched object in the cache. */
    method InitCreateOrUpdate(vmss: Vmss, newSize: int, net: Net, now: int)
        returns (tracked: Vmss?, running: bool, ok: bool)
      requires Valid() && Sane(net) && newSize >= 0 && cached == vmss
      modifies azure, this`cached, this`lastSizeRefresh
      ensures Valid() && vmss.capacity == old(vmss.capacity) && vmss.etag == old(vmss.etag)
      ensures var u := Run(old(azure.state), config.enableVmssEtag, old(vmss.etag), newSize, net);
        && azure.state == u.server && ok == u.result.Ok()
        && (match u.result
            case Issued => tracked == vmss && running && cached == old(cached)
            case Reissued(f) => running && tracked != null && tracked == cached && fresh(tracked) && Holds(tracked, f)
            case Satisfied(f) => !running && tracked != null && tracked == cached && fresh(tracked) && Holds(tracked, f)
            case Rejected(None) => cached == old(cached)
            case Rejected(Some(f)) => cached != null && fresh(cached) && Holds(cached, f))
      ensures old(azure.state).versions <= azure.state.versions
          && (ok ==> Reached(old(azure.state), azure.state, newSize))
      ensures ok ==> tracked != null && tracked == cached && (tracked == vmss || fresh(tracked))
      ensures ok && !running ==> tracked != vmss && tracked.capacity >= newSize
      ensures cached == vmss || (cached != null && fresh(cached))
    {
      RunStaysSane(azure.state, config.enableVmssEtag, vmss.etag, newSize, net);
      SuccessReaches(azure.state, config.enableVmssEtag, vmss.etag, newSize, net);
      ghost var u := Run(azure.state, config.enableVmssEtag, vmss.etag, newSize, net);
      var ifMatch := if config.enableVmssEtag then vmss.etag else None;
      azure.state := Others(azure.state, net.before);
      var answer := Answered(azure.state, ifMatch, net.put);
      azure.state := AfterPut(azure.state, newSize, ifMatch, net.put);
      if answer == Accepted {
        return vmss, true, true;
      }
      if !(config.enableVmssEtag && answer == PreconditionFailed) {
        return null, false, false;
      }
      // Another writer changed the scale set: fetch it, keep it in the cache, and try once more.
      azure.state := Others(azure.state, net.beforeGet);
      if !net.getOk {
        lastSizeRefresh := now - config.sizeRefreshPeriod;
        return null, false, false;
      }
      var f := new Vmss(azure.state.Capacity(), if net.getEtag then Some(azure.state.Current()) else None);
      cached := f;
      if f.capacity >= newSize {
        return f, false, true;
      }
      azure.state := Others(azure.state, net.beforeRetry);
      answer := Answered(azure.state, f.etag, net.retry);
      azure.state := AfterPut(azure.state, newSize, f.etag, net.retry);
      if answer != Accepted {
        lastSizeRefresh := now - config.sizeRefreshPeriod;
        return null, false, false;
      }
      return f, true, true;
    }

    /**
      The non-atomic resize. On success the in-memory size is the capacity of the object tracked from
      then on; on failure the object passed in has its capacity back and the in-memory size is unchanged.
     */
    method CreateOrUpdateInstances(vmss: Vmss, newSize: int, net: Net, now: int)
        returns (tracked: Vmss?, running: bool, ok: bool)
      requires Valid() && Sane(net) && newSize >= 0 && cached == vmss
      modifies this, azure, vmss
      ensures Valid()
      ensures var u := Run(old(azure.state), config.enableVmssEtag, old(vmss.etag), newSize, net);
        && azure.state == u.server && ok == u.result.Ok()
        && (u.result.Satisfied? ==> curSize == u.result.fetched.capacity >= newSize)
        && (ok && !u.result.Satisfied? ==> running && curSize == newSize)
      ensures old(azure.state).versions <= azure.state.versions
          && (ok ==> Reached(old(azure.state), azure.state, newSize))
      ensures net.getEtag && old(EtagCovers(vmss.etag, newSize)) ==> NeverLowers(old(azure.state), azure.state)
      ensures ok ==>
          tracked != null && curSize == tracked.capacity && tracked == cached && (tracked == vmss || fresh(tracked))
      ensures !ok ==> vmss.capacity == old(vmss.capacity) && curSize == old(curSize)
      ensures vmss.etag == old(vmss.etag) && vmss.capacity >= 0
      ensures cached == vmss || (cached != null && fresh(cached))
    {
      if net.getEtag && EtagCovers(vmss.etag, newSize) {
        UpdateIsSafe(azure.state, vmss.etag.value, newSize, net);
      }
      var previousSize := vmss.capacity;
      vmss.capacity := newSize;
      tracked, running, ok := InitCreateOrUpdate(vmss, newSize, net, now);
      if !ok {
        vmss.capacity := previousSize;
        return;
      }
      var publishedSize := newSize;
      if running {
        tracked.capacity := newSize;
      } else if tracked != vmss {
        publishedSize := tracked.capacity;
      }
      curSize := publishedSize;
      lastSizeRefresh := now;
    }

    /** Resizing without waiting. `target` is the size asked for. */
    method IncreaseSize(delta: int, get: SizeGet, net: Net, now: int)
      returns (tracked: Vmss?, running: bool, ok: bool, target: int)
      requires Valid() && NonNegative(get.before) && Sane(net)
      modifies this, azure, cached
      ensures Valid()
      ensures ok <==> old(MayGrow(delta, now, get)) && old(UpdateFor(delta, now, get, net)).result.Ok()
      ensures old(MayGrow(delta, now, get)) ==>
        target == old(SizeRead(now, get)).value + delta && azure.state == old(UpdateFor(delta, now, get, net)).server
      ensures ok ==> delta > 0 && target <= config.maxSize
      ensures ok ==> tracked != null && curSize == tracked.capacity >= target && tracked == cached
      ensures ok && old(Synced()) && !config.spot ==> target == old(curSize) + delta
      ensures !ok ==> curSize == old(curSize) || curSize == target - delta
      ensures !ok && old(Synced()) && !config.spot ==> curSize == old(curSize)
      ensures !ok && old(cached) != null ==> old(cached).capacity == old(if cached == null then 0 else cached.capacity)
      ensures old(cached) != null ==> old(cached).capacity >= 0
      ensures cached == old(cached) || (cached != null && fresh(cached))
      ensures old(azure.state).versions <= azure.state.versions
          && (ok ==> Reached(old(azure.state), azure.state, target))
      ensures config.enableVmssEtag && get.etag && net.getEtag && old(Synced()) ==>
        NeverLowers(old(azure.state), azure.state)
    {
      var size, can := CanIncreaseSize(delta, now, get);
      if !can {
        return null, false, false, size + delta;
      }
      target := size + delta;
      if config.enableVmssEtag && get.etag && net.getEtag && old(Synced()) {
        SafeFromHere(old(azure.state), azure.state, cached.etag.value, target, net);
      }
      ghost var mid := azure.state;
      assert Run(mid, config.enableVmssEtag, cached.etag, target, net) == old(UpdateFor(delta, now, get, net));
      tracked, running, ok := CreateOrUpdateInstances(cached, target, net, now);
      if ok {
        ReachedEarlier(old(azure.state), mid, azure.state, target);
      }
    }

    /** Resizing and waiting for the end of the update; nothing is published before it succeeded. */
    method AtomicIncreaseSize(delta: int, get: SizeGet, net: Net, poll: Poll, now: int)
      returns (tracked: Vmss?, ok: bool, target: int)
      requires Valid() && NonNegative(get.before) && Sane(net)
      modifies this, azure, cached
      ensures Valid()
      ensures ok <==>
        && old(MayGrow(delta, now, get)) && old(UpdateFor(delta, now, get, net)).result.Ok()
        && !(poll.PollError? && !old(UpdateFor(delta, now, get, net)).result.Satisfied?)
      ensures old(MayGrow(delta, now, get)) ==>
        target == old(SizeRead(now, get)).value + delta && azure.state == old(UpdateFor(delta, now, get, net)).server
      ensures ok ==> delta > 0 && target <= config.maxSize
      ensures ok ==> tracked != null && curSize == tracked.capacity >= target && tracked == cached
      ensures ok && old(Synced()) && !config.spot ==> target == old(curSize) + delta
      ensures !ok ==> curSize == old(curSize) || curSize == target - delta
      ensures !ok && old(Synced()) && !config.spot ==> curSize == old(curSize)
      ensures !ok && old(cached) != null ==> old(cached).capacity == old(if cached == null then 0 else cached.capacity)
      ensures old(cached) != null ==> old(cached).capacity >= 0
      ensures cached == old(cached) || (cached != null && fresh(cached))
      ensures old(azure.state).versions <= azure.state.versions
          && (ok ==> Reached(old(azure.state), azure.state, target))
      ensures config.enableVmssEtag && get.etag && net.getEtag && old(Synced()) ==>
        NeverLowers(old(azure.state), azure.state)
    {
      var size, can := CanIncreaseSize(delta, now, get);
      if !can {
        return null, false, size + delta;
      }
      target := size + delta;
      if config.enableVmssEtag && get.etag && net.getEtag && old(Synced()) {
        SafeFromHere(old(azure.state), azure.state, cached.etag.value, target, net);
      }
      ghost var mid := azure.state;
      assert Run(mid, config.enableVmssEtag, cached.etag, target, net) == old(UpdateFor(delta, now, get, net));
      tracked, ok := UpdateAtomically(cached, target, net, poll, now);
      if ok {
        ReachedEarlier(old(azure.state), mid, azure.state, target);
      }
    }

    /** The part of the atomic resize after the size is known. */
    method UpdateAtomically(vmss: Vmss, target: int, net: Net, poll: Poll, now: int)
        returns (tracked: Vmss?, ok: bool)
      requires Valid() && Sane(net) && target >= 0 && cached == vmss
      modifies this, azure, vmss
      ensures Valid() && vmss.capacity >= 0
      ensures var u := Run(old(azure.state), config.enableVmssEtag, old(vmss.etag), target, net);
        azure.state == u.server && (ok <==> u.result.Ok() && !(poll.PollError? && !u.result.Satisfied?))
      ensures old(azure.state).versions <= azure.state.versions
          && (ok ==> Reached(old(azure.state), azure.state, target))
      ensures ok ==> tracked != null && curSize == tracked.capacity >= target && tracked == cached
      ensures !ok ==> vmss.capacity == old(vmss.capacity) && curSize == old(curSize)
      ensures cached == vmss || (cached != null && fresh(cached))
    {
      var running;
      tracked, running, ok := InitCreateOrUpdate(vmss, target, net, now);
      if !ok {
        return;
      }
      if running && poll.PollError? {
        lastSizeRefresh := now - config.sizeRefreshPeriod;
        return null, false;
      }
      PublishAtomic(vmss, tracked, running, target, poll, now);
    }

    method PublishAtomic(vmss: Vmss, tracked: Vmss, running: bool, target: int, poll: Poll, now: int)
      requires Valid() && target >= 0 && tracked.capacity >= 0
      modifies this`curSize, this`lastSizeRefresh, tracked
      ensures Valid() && curSize == tracked.capacity
      ensures curSize == if !running && tracked != vmss then old(tracked.capacity) else target
    {
      if !running && tracked != vmss {
        curSize := tracked.capacity;
      } else {
        tracked.capacity := target;
        if config.enableVmssEtag && poll.PollDone? && poll.etag.Some? {
          tracked.etag := poll.etag;
        }
        curSize := target;
      }
      lastSizeRefresh := now;
    }

    /** The background wait of the non-atomic resize: adopt the ETag of the response, or read the size again. */
    method WaitForCreateOrUpdateInstances(vmss: Vmss, poll: Poll, now: int)
      requires Valid()
      modifies this`lastSizeRefresh, vmss`etag
      ensures Valid()
      ensures vmss.etag == if config.enableVmssEtag && poll.PollDone? && poll.etag.Some? then poll.etag
          else old(vmss.etag)
      ensures lastSizeRefresh ==
        if poll.PollError? || (config.enableVmssEtag && poll.etag.None?) then now - config.sizeRefreshPeriod
        else old(lastSizeRefresh)
    {
      if poll.PollError? {
        lastSizeRefresh := now - config.sizeRefreshPeriod;
        return;
      }
      if config.enableVmssEtag {
        if poll.etag.Some? {
          vmss.etag := poll.etag;
        } else {
          lastSizeRefresh := now - config.sizeRefreshPeriod;
        }
      }
    }

    /** Size bookkeeping of deleting `count` instances; `effects` are the writes this causes at the server. */
    method DeleteInstances(count: nat, hasUnregisteredNodes: bool, accepted: bool, effects: seq<int>, now: int)
        returns (ok: bool)
      requires Valid() && NonNegative(effects)
      modifies this`curSize, this`lastSizeRefresh, azure
      ensures Valid()
      ensures ok <==> count == 0 || accepted
      ensures old(azure.state).versions <= azure.state.versions
      ensures var counted := accepted && !config.strictCacheUpdates && !hasUnregisteredNodes;
        curSize == if counted && count <= old(curSize) then old(curSize) - count else old(curSize)
    {
      if count == 0 {
        return true;
      }
      if !accepted {
        return false;
      }
      azure.state := Others(azure.state, effects);
      if !config.strictCacheUpdates && !hasUnregisteredNodes {
        if curSize < count {
          lastSizeRefresh := ZERO_TIME;
        } else {
          curSize := curSize - count;
          lastSizeRefresh := now;
        }
      }
      ok := true;
    }

    /** The periodic listing that replaces the cached object. */
    method RefreshCache(before: seq<int>)
      requires Valid() && NonNegative(before)
      modifies azure, this`cached
      ensures Valid() && cached != null && fresh(cached) && old(azure.state).versions <= azure.state.versions
      ensures cached.capacity == azure.state.Capacity() && cached.etag == Some(azure.state.Current())
    {
      azure.state := Others(azure.state, before);
      cached := new Vmss(azure.state.Capacity(), Some(azure.state.Current()));
    }
  }

  /** What was reached from a later state was reached from an earlier one. */
  lemma ReachedEarlier(a: Server, b: Server, c: Server, size: int)
    requires a.versions <= b.versions && |a.versions| > 0 && Reached(b, c, size)
    ensures Reached(a, c, size)
  {
    var v :| |b.versions| - 1 <= v < |c.versions| && 0 <= v && c.versions[v] >= size;
    assert |a.versions| - 1 <= v;
  }

  /** Safety of an update that starts after a size read. */
  lemma SafeFromHere(a: Server, b: Server, etag: nat, newSize: int, net: Net)
    requires b.Valid() && NeverLowers(a, b) && |a.versions| > 0
    requires etag < |b.versions| && b.versions[etag] <= newSize && net.getEtag
    ensures var u := Run(b, true, Some(etag), newSize, net);
      NeverLowers(a, u.server) && (u.result.Ok() ==> Reached(a, u.server, newSize))
  {
    UpdateIsSafe(b, etag, newSize, net);
    var u := Run(b, true, Some(etag), newSize, net);
    NeverLowersTrans(a, b, u.server);
    if u.result.Ok() {
      var v :| |b.versions| - 1 <= v < |u.server.versions| && 0 <= v && u.server.versions[v] >= newSize;
      assert Reached(a, u.server, newSize);
    }
  }

  /** Anything that can happen to a scale set, with the environment's choices. A size read and a PUT of
      their own are the two halves of a call that overlaps with others. */
  datatype Op =
    | Increase(delta: int, get: SizeGet, net: Net)
    | AtomicIncrease(delta: int, get: SizeGet, net: Net, poll: Poll)
    | Put(newSize: nat, net: Net)
    | Wait(poll: Poll)
    | Delete(count: nat, hasUnregisteredNodes: bool, accepted: bool, effects: seq<int>)
    | Refresh(before: seq<int>)
    | ReadSize(get: SizeGet)

  ghost predicate SaneOp(op: Op) {
    match op
    case Increase(_, get, net) => NonNegative(get.before) && Sane(net)
    case AtomicIncrease(_, get, net, _) => NonNegative(get.before) && Sane(net)
    case Put(_, net) => Sane(net)
    case Wait(_) => true
    case Delete(_, _, _, effects) => NonNegative(effects)
    case Refresh(before) => NonNegative(before)
    case ReadSize(get) => NonNegative(get.before)
  }

  /** Over any run of operations, in any order and with any environment, the in-memory size stays at
      -1 or above; `sizes` lists it after every operation. */
  method RunOps(scaleSet: ScaleSet, ops: seq<Op>, now: seq<int>) returns (sizes: seq<int>)
    requires scaleSet.Valid() && |now| == |ops| && forall i :: 0 <= i < |ops| ==> SaneOp(ops[i])
    modifies scaleSet, scaleSet.azure, scaleSet.cached
    ensures scaleSet.Valid() && |sizes| == |ops|
    ensures forall i :: 0 <= i < |sizes| ==> sizes[i] >= -1
    ensures scaleSet.cached == old(scaleSet.cached) || (scaleSet.cached != null && fresh(scaleSet.cached))
    ensures old(scaleSet.cached) != null ==> old(scaleSet.cached).capacity >= 0
    ensures old(scaleSet.azure.state).versions <= scaleSet.azure.state.versions
  {
    sizes := [];
    ghost var first := scaleSet.cached;
    for i := 0 to |ops|
      invariant scaleSet.Valid() && |sizes| == i
      invariant scaleSet.cached == first || (scaleSet.cached != null && fresh(scaleSet.cached))
      invariant forall j :: 0 <= j < i ==> sizes[j] >= -1
      invariant first != null ==> first.capacity >= 0
      invariant old(scaleSet.azure.state).versions <= scaleSet.azure.state.versions
    {
      match ops[i] {
        case Increase(delta, get, net) =>
          var tracked, running, ok, target := scaleSet.IncreaseSize(delta, get, net, now[i]);
        case AtomicIncrease(delta, get, net, poll) =>
          var tracked, ok, target := scaleSet.AtomicIncreaseSize(delta, get, net, poll, now[i]);
        case Put(newSize, net) =>
          if scaleSet.cached != null {
            var tracked, running, ok := scaleSet.CreateOrUpdateInstances(scaleSet.cached, newSize, net, now[i]);
          }
        case Wait(poll) =>
          if scaleSet.cached != null {
            scaleSet.WaitForCreateOrUpdateInstances(scaleSet.cached, poll, now[i]);
          }
        case Delete(count, unregistered, accepted, effects) =>
          var ok := scaleSet.DeleteInstances(count, unregistered, accepted, effects, now[i]);
        case Refresh(before) =>
          scaleSet.RefreshCache(before);
        case ReadSize(get) =>
          var size, ok := scaleSet.GetScaleSetSize(now[i], get);
      }
      sizes := sizes + [scaleSet.curSize];
    }
  }

  /** The ETag held at the PUT is on, outdated or stands for no more than the target. */
  predicate Covers(on: bool, s: Server, etag: Option<nat>, target: int)
    requires |s.versions| > 0
  {
    on && etag.Some? && etag.value < |s.versions| && (etag.value < s.Current() || s.versions[etag.value] <= target)
  }

  /** The size read of an increase, and what other calls do after it. */
  method ReadSizeThenOthers(
    scaleSet: ScaleSet, delta: int, get: SizeGet, between: seq<Op>, times: seq<int>, now: int)
    returns (can: bool, target: int)
    requires scaleSet.Valid() && NonNegative(get.before)
    requires |times| == |between| && forall i :: 0 <= i < |between| ==> SaneOp(between[i])
    modifies scaleSet, scaleSet.azure, scaleSet.cached
    ensures scaleSet.Valid()
    ensures can <==> old(scaleSet.MayGrow(delta, now, get))
    ensures can ==> target == old(scaleSet.SizeRead(now, get)).value + delta && scaleSet.cached != null
    ensures can ==> delta > 0 && delta <= target <= scaleSet.config.maxSize
    ensures scaleSet.cached == old(scaleSet.cached) || (scaleSet.cached != null && fresh(scaleSet.cached))
    ensures old(scaleSet.azure.state).versions <= scaleSet.azure.state.versions
  {
    var size;
    size, can := scaleSet.CanIncreaseSize(delta, now, get);
    target := size + delta;
    if can {
      var sizes := RunOps(scaleSet, between, times);
    }
  }

  /**
    An increase with anything in between its size read and its PUT, steps of other calls included. The
    server ends as one run of the protocol from the state `mid` and the ETag held at the PUT leaves it.
   */
  method OverlappedIncrease(
    scaleSet: ScaleSet, delta: int, get: SizeGet, between: seq<Op>, times: seq<int>, net: Net, now: int)
    returns (tracked: Vmss?, ok: bool, target: int, mid: Server, etag: Option<nat>)
    requires scaleSet.Valid() && NonNegative(get.before) && Sane(net)
    requires |times| == |between| && forall i :: 0 <= i < |between| ==> SaneOp(between[i])
    modifies scaleSet, scaleSet.azure, scaleSet.cached
    ensures scaleSet.Valid() && mid.Valid()
    ensures ok <==>
      old(scaleSet.MayGrow(delta, now, get)) && Run(mid, scaleSet.config.enableVmssEtag, etag, target, net).result.Ok()
    ensures ok ==> delta > 0 && target <= scaleSet.config.maxSize
    ensures ok ==> tracked != null && scaleSet.curSize == tracked.capacity >= target && tracked == scaleSet.cached
    ensures scaleSet.azure.state == mid ||
      scaleSet.azure.state == Run(mid, scaleSet.config.enableVmssEtag, etag, target, net).server
    ensures ok ==> Reached(old(scaleSet.azure.state), scaleSet.azure.state, target)
    ensures net.getEtag && Covers(scaleSet.config.enableVmssEtag, mid, etag, target) ==>
      NeverLowers(mid, scaleSet.azure.state)
  {
    var can;
    can, target := ReadSizeThenOthers(scaleSet, delta, get, between, times, now);
    tracked, ok, mid, etag := null, false, scaleSet.azure.state, None;
    if !can {
      return;
    }
    etag := scaleSet.cached.etag;
    var running;
    tracked, running, ok := scaleSet.CreateOrUpdateInstances(scaleSet.cached, target, net, now);
    if ok {
      ReachedEarlier(old(scaleSet.azure.state), mid, scaleSet.azure.state, target);
    }
  }

  /** The atomic increase with anything in between its size read, its PUT and its publication. */
  method OverlappedAtomicIncrease(
    scaleSet: ScaleSet, delta: int, get: SizeGet, between: seq<Op>, times: seq<int>, net: Net,
    meanwhile: seq<Op>, later: seq<int>, poll: Poll, now: int)
    returns (tracked: Vmss?, ok: bool, target: int, mid: Server, put: Server, etag: Option<nat>)
    requires scaleSet.Valid() && NonNegative(get.before) && Sane(net)
    requires |times| == |between| && forall i :: 0 <= i < |between| ==> SaneOp(between[i])
    requires |later| == |meanwhile| && forall i :: 0 <= i < |meanwhile| ==> SaneOp(meanwhile[i])
    modifies scaleSet, scaleSet.azure, scaleSet.cached
    ensures scaleSet.Valid() && mid.Valid()
    ensures var u := Run(mid, scaleSet.config.enableVmssEtag, etag, target, net);
      ok <==> old(scaleSet.MayGrow(delta, now, get)) && u.result.Ok() && !(poll.PollError? && !u.result.Satisfied?)
    ensures ok ==>
        delta > 0 && target <= scaleSet.config.maxSize && tracked != null && scaleSet.curSize == tracked.capacity
    ensures put == mid || put == Run(mid, scaleSet.config.enableVmssEtag, etag, target, net).server
    ensures put.versions <= scaleSet.azure.state.versions
    ensures ok ==> Reached(old(scaleSet.azure.state), put, target)
    ensures net.getEtag && Covers(scaleSet.config.enableVmssEtag, mid, etag, target) ==> NeverLowers(mid, put)
  {
    var can;
    can, target := ReadSizeThenOthers(scaleSet, delta, get, between, times, now);
    tracked, ok, mid, etag := null, false, scaleSet.azure.state, None;
    put := mid;
    if !can {
      return;
    }
    var vmss := scaleSet.cached;
    etag := vmss.etag;
    if net.getEtag && Covers(scaleSet.config.enableVmssEtag, mid, etag, target) {
      UpdateIsSafe(mid, etag.value, target, net);
    }
    var running;
    tracked, running, ok := scaleSet.InitCreateOrUpdate(vmss, target, net, now);
    put := scaleSet.azure.state;
    if !ok {
      return;
    }
    ReachedEarlier(old(scaleSet.azure.state), mid, put, target);
    var sizes := RunOps(scaleSet, meanwhile, later);
    if running && poll.PollError? {
      scaleSet.lastSizeRefresh := now - scaleSet.config.sizeRefreshPeriod;
      return null, false, target, mid, put, etag;
    }
    scaleSet.PublishAtomic(vmss, tracked, running, target, poll, now);
  }
}
