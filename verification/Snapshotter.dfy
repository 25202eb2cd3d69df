/**
  The debugging snapshotter as a protocol between request handlers and the main loop. A handler
  accepts a request under the mutex, waits without it for a token in a one-slot channel or for the
  cancellation of its context, and answers under the mutex. The loop opens the collection of data,
  sets data and flushes by sending a token, which blocks while the slot is full with the mutex held.
  Every section under the mutex is one step; steps interleave in any order.
 */
module Snapshotter {
  import opened Wrappers

  datatype State = Disabled | Listening | TriggerEnabled | StartDataCollection | DataCollected

  datatype Phase = Waiting | GotTrigger | GotCancel

  /** An accepted request, with the number of loops begun when it was accepted. */
  datatype Pending = Pending(phase: Phase, acceptedAt: nat)

  /** Data set by the main loop, with the loop in which it was set. */
  datatype Item = Item(loop: nat, value: int)

  datatype Field = ClusterNodes | UnscheduledPods | TemplateNodes

  datatype Data = Data(items: map<Field, Item>, started: Option<nat>, error: bool)

  const EMPTY := Data(map[], None, false)

  datatype Status = TooManyRequests | Ok | InternalServerError | ServiceUnavailable

  datatype Reply = Reply(id: nat, acceptedAt: nat, status: Status, data: Data)

  /** `next` numbers the requests, `loops` the loops begun; `flushing` is a Flush that waits for the slot. */
  datatype System = System(
    state: State, data: Data, token: bool, flushing: bool,
    pending: map<nat, Pending>, next: nat, loops: nat, replies: seq<Reply>)

  datatype Event =
    | Request
    | Receive(id: nat)
    | ContextDone(id: nat)
    | Respond(id: nat)
    | Abort(id: nat)
    | BeginLoop
    | Set(field: Field, value: Option<int>)
    | Flush

  function Initial(isEnabled: bool): System {
    System(if isEnabled then Listening else Disabled, EMPTY, false, false, map[], 0, 0, [])
  }

  predicate Active(s: State) {
    s == TriggerEnabled || s == StartDataCollection || s == DataCollected
  }

  predicate Collecting(s: State) {
    s == StartDataCollection || s == DataCollected
  }

  predicate InPhase(s: System, id: nat, phase: Phase) {
    id in s.pending && s.pending[id].phase == phase
  }

  /** Sections under the mutex wait for a blocked Flush; receiving and being cancelled do not. */
  predicate Enabled(s: System, e: Event) {
    match e
    case Receive(id) => InPhase(s, id, Waiting) && s.token
    case ContextDone(id) => InPhase(s, id, Waiting)
    case Respond(id) => !s.flushing && InPhase(s, id, GotTrigger)
    case Abort(id) => !s.flushing && InPhase(s, id, GotCancel)
    case _ => !s.flushing
  }

  function SetPhase(s: System, id: nat, phase: Phase): System
    requires id in s.pending
  {
    s.(pending := s.pending[id := s.pending[id].(phase := phase)])
  }

  /** Sending into the slot, or blocking on it. */
  function Send(s: System): System {
    if s.token then s.(flushing := true) else s.(token := true)
  }

  /** The end of an accepted request: an answer, and everything back to listening. */
  function Answered(s: System, id: nat, status: Status, data: Data): System
    requires id in s.pending
  {
    s.(state := Listening, data := EMPTY, pending := s.pending - {id},
       replies := s.replies + [Reply(id, s.pending[id].acceptedAt, status, data)])
  }

  function Step(s: System, e: Event): System
    requires Enabled(s, e)
  {
    match e
    case Request =>
      if s.state != Listening then
        s.(next := s.next + 1, replies := s.replies + [Reply(s.next, s.loops, TooManyRequests, EMPTY)])
      else
        s.(next := s.next + 1, state := TriggerEnabled, pending := s.pending[s.next := Pending(Waiting, s.loops)])
    case Receive(id) => SetPhase(s, id, GotTrigger).(token := s.flushing, flushing := false)
    case ContextDone(id) => SetPhase(s, id, GotCancel)
    case Respond(id) => Answered(s, id, if s.data.error then InternalServerError else Ok, s.data)
    case Abort(id) => Answered(s, id, ServiceUnavailable, EMPTY).(token := false)
    case BeginLoop =>
      var t := s.(loops := s.loops + 1);
      if t.state == TriggerEnabled then t.(state := StartDataCollection, data := t.data.(started := Some(t.loops)))
          else t
    case Set(field, value) =>
      if !Collecting(s.state) then s
      else
        var t := if value.None? then s
            else s.(data := s.data.(items := s.data.items[field := Item(s.loops, value.value)]));
        if field == TemplateNodes then t else t.(state := DataCollected)
    case Flush =>
      if s.state == StartDataCollection then Send(s.(data := s.data.(error := true)))
      else if s.state == DataCollected then Send(s)
      else s
  }

  /** The states reached by a sequence of steps. */
  ghost predicate Reaches(s: System, es: seq<Event>, t: System)
    decreases |es|
  {
    if es == [] then t == s
    else Enabled(s, es[0]) && Reaches(Step(s, es[0]), es[1..], t)
  }

  ghost predicate Reachable(t: System) {
    exists isEnabled: bool, es: seq<Event> :: Reaches(Initial(isEnabled), es, t)
  }

  // ----- the invariant -----

  /** Data from loops begun after the given one. */
  ghost predicate NewerThan(d: Data, loop: nat) {
    && (forall f :: f in d.items ==> d.items[f].loop > loop)
    && (d.started.Some? ==> d.started.value > loop)
  }

  /** The number of answers to a request. */
  function Answers(replies: seq<Reply>, id: nat): nat {
    if replies == [] then 0
    else Answers(replies[..|replies|-1], id) + if replies[|replies|-1].id == id then 1 else 0
  }

  /** One accepted request is pending in the active states and none in the others. */
  ghost predicate OnePending(s: System) {
    if Active(s.state) then exists id :: s.pending.Keys == {id} else s.pending == map[]
  }

  ghost predicate AnsweredOnce(s: System, id: nat) {
    Answers(s.replies, id) + (if id in s.pending then 1 else 0) == if id < s.next then 1 else 0
  }

  ghost predicate Inv(s: System) {
    && OnePending(s)
    && (!Collecting(s.state) ==> s.data == EMPTY)
    && (forall id :: id in s.pending ==>
        id < s.next && s.pending[id].acceptedAt <= s.loops && NewerThan(s.data, s.pending[id].acceptedAt))
    && (Collecting(s.state) ==> s.data.started.Some? && forall id :: id in s.pending ==>
        s.pending[id].acceptedAt < s.loops)
    && (s.flushing ==> s.token && Collecting(s.state))
    && (forall id :: AnsweredOnce(s, id))
    && (forall r :: r in s.replies ==> NewerThan(r.data, r.acceptedAt))
  }

  lemma InitialInv(isEnabled: bool)
    ensures Inv(Initial(isEnabled))
  {
  }

  lemma AnswersSnoc(replies: seq<Reply>, r: Reply, id: nat)
    ensures Answers(replies + [r], id) == Answers(replies, id) + if r.id == id then 1 else 0
  {
    assert (replies + [r])[..|replies|] == replies;
  }

  lemma RequestKeepsInv(s: System)
    requires Inv(s) && Enabled(s, Request)
    ensures Inv(Step(s, Request))
  {
    var t := Step(s, Request);
    forall id ensures AnsweredOnce(t, id) {
      assert AnsweredOnce(s, id);
      if s.state != Listening {
        AnswersSnoc(s.replies, Reply(s.next, s.loops, TooManyRequests, EMPTY), id);
      }
    }
    if s.state == Listening {
      assert t.pending.Keys == {s.next};
    }
  }

  lemma AnswerKeepsInv(s: System, e: Event)
    requires Inv(s) && Enabled(s, e) && (e.Respond? || e.Abort?)
    ensures Inv(Step(s, e))
  {
    var t := Step(s, e);
    var only :| s.pending.Keys == {only};
    assert t.pending == map[];
    var r := t.replies[|s.replies|];
    assert t.replies == s.replies + [r];
    forall id ensures AnsweredOnce(t, id) {
      assert AnsweredOnce(s, id);
      AnswersSnoc(s.replies, r, id);
    }
  }

  lemma WaitKeepsInv(s: System, e: Event)
    requires Inv(s) && Enabled(s, e) && (e.Receive? || e.ContextDone?)
    ensures Inv(Step(s, e))
  {
    var t := Step(s, e);
    assert t.pending.Keys == s.pending.Keys;
    forall id ensures AnsweredOnce(t, id) {
      assert AnsweredOnce(s, id);
    }
  }

  lemma LoopKeepsInv(s: System, e: Event)
    requires Inv(s) && Enabled(s, e) && (e.BeginLoop? || e.Set? || e.Flush?)
    ensures Inv(Step(s, e))
  {
    var t := Step(s, e);
    assert t.pending == s.pending;
    forall id ensures AnsweredOnce(t, id) {
      assert AnsweredOnce(s, id);
    }
  }

  /** Every step of every participant keeps the invariant. */
  lemma StepKeepsInv(s: System, e: Event)
    requires Inv(s) && Enabled(s, e)
    ensures Inv(Step(s, e))
  {
    match e
    case Request => RequestKeepsInv(s);
    case Respond(_) => AnswerKeepsInv(s, e);
    case Abort(_) => AnswerKeepsInv(s, e);
    case Receive(_) => WaitKeepsInv(s, e);
    case ContextDone(_) => WaitKeepsInv(s, e);
    case _ => LoopKeepsInv(s, e);
  }

  lemma {:induction false} RunKeepsInv(s: System, es: seq<Event>, t: System)
    requires Inv(s) && Reaches(s, es, t)
    ensures Inv(t)
    decreases |es|
  {
    if es != [] {
      StepKeepsInv(s, es[0]);
      RunKeepsInv(Step(s, es[0]), es[1..], t);
    }
  }

  /**
    In every interleaving: exactly one accepted request is pending in the active states and none in
    the others; no data is held while listening or after a trigger; every request is pending or has
    exactly one answer; an answer holds only data set in loops begun after its request was accepted.
   */
  lemma ReachableIsSafe(t: System)
    requires Reachable(t)
    ensures OnePending(t)
    ensures !Collecting(t.state) ==> t.data == EMPTY
    ensures forall id :: AnsweredOnce(t, id)
    ensures forall r :: r in t.replies ==> NewerThan(r.data, r.acceptedAt)
  {
    var isEnabled: bool, es: seq<Event> :| Reaches(Initial(isEnabled), es, t);
    InitialInv(isEnabled);
    RunKeepsInv(Initial(isEnabled), es, t);
  }

  // ----- answers without data -----

  /** A setter of the snapshot is called without data. */
  ghost predicate SetsNothing(e: Event) {
    e.Set? && e.value.None?
  }

  /** The answer given now would rest on collected data, or would report an error. */
  predicate Informed(s: System) {
    s.state == DataCollected || (s.state == StartDataCollection && s.data.error)
  }

  /** As long as the request is pending, a token for it is sent only once data was collected or an error noted. */
  ghost predicate Attended(s: System, id: nat) {
    id < s.next && (id in s.pending && (s.token || s.pending[id].phase == GotTrigger) ==> Informed(s))
  }

  lemma StepAttends(s: System, e: Event, id: nat)
    requires Inv(s) && Enabled(s, e) && Attended(s, id)
    ensures Attended(Step(s, e), id)
  {
    if id in s.pending && Active(s.state) {
      var only :| s.pending.Keys == {only};
    }
  }

  lemma {:induction false} RunAttends(s: System, es: seq<Event>, t: System, id: nat)
    requires Inv(s) && Reaches(s, es, t) && Attended(s, id)
    ensures Attended(t, id)
    decreases |es|
  {
    if es != [] {
      StepKeepsInv(s, es[0]);
      StepAttends(s, es[0], id);
      RunAttends(Step(s, es[0]), es[1..], t, id);
    }
  }

  /** Every handler of the request that got a token finds data, or an error to report. */
  ghost predicate AlwaysInformed(s: System, id: nat) {
    forall es, t :: Reaches(s, es, t) && InPhase(t, id, GotTrigger) ==> Informed(t)
  }

  /**
    A request accepted now is answered only after data was collected or an error noted, in every
    interleaving, if and only if no token is left in the slot when it is accepted.
   */
  lemma InformedExactlyWhen(s: System)
    requires Inv(s) && s.state == Listening && !s.flushing
    ensures AlwaysInformed(Step(s, Request), s.next) <==> !s.token
  {
    var s1 := Step(s, Request);
    StepKeepsInv(s, Request);
    if s.token {
      var t := Step(s1, Receive(s.next));
      assert [Receive(s.next)][1..] == [] && Reaches(t, [], t);
      assert Reaches(s1, [Receive(s.next)], t) && InPhase(t, s.next, GotTrigger);
    } else {
      forall es, t | Reaches(s1, es, t) && InPhase(t, s.next, GotTrigger) ensures Informed(t) {
        RunAttends(s1, es, t, s.next);
      }
    }
  }

  /** A successful answer to the request holds data. */
  ghost predicate Truthful(s: System, id: nat) {
    forall r :: r in s.replies && r.id == id && r.status == Ok ==> r.data.items != map[]
  }

  /** The request is attended, its successful answer holds data, and collected data is there. */
  ghost predicate Served(s: System, id: nat) {
    Attended(s, id) && Truthful(s, id) && (s.state == DataCollected ==> s.data.items != map[])
  }

  lemma StepServes(s: System, e: Event, id: nat)
    requires Inv(s) && Enabled(s, e) && Served(s, id) && !SetsNothing(e)
    ensures Served(Step(s, e), id)
  {
    StepAttends(s, e, id);
    var t := Step(s, e);
    if e.Set? && Collecting(s.state) {
      assert e.field in t.data.items;
    }
    if t.replies != s.replies {
      var r := t.replies[|s.replies|];
      assert t.replies == s.replies + [r];
    }
  }

  lemma {:induction false} RunServes(s: System, es: seq<Event>, t: System, id: nat)
    requires Inv(s) && Reaches(s, es, t) && Served(s, id) && forall e :: e in es ==> !SetsNothing(e)
    ensures Served(t, id)
    decreases |es|
  {
    if es != [] {
      StepKeepsInv(s, es[0]);
      StepServes(s, es[0], id);
      RunServes(Step(s, es[0]), es[1..], t, id);
    }
  }

  /** In every run without empty setter calls the successful answer to the request holds data. */
  ghost predicate AlwaysTruthful(s: System, id: nat) {
    forall es, t :: Reaches(s, es, t) && (forall e :: e in es ==> !SetsNothing(e)) ==> Truthful(t, id)
  }

  /** No answer to a request that was not received yet. */
  lemma {:induction false} NoAnswerYet(replies: seq<Reply>, id: nat)
    requires Answers(replies, id) == 0
    ensures forall r :: r in replies ==> r.id != id
  {
    if replies != [] {
      NoAnswerYet(replies[..|replies|-1], id);
      assert replies == replies[..|replies|-1] + [replies[|replies|-1]];
    }
  }

  /**
    A request accepted now gets a successful answer only with data, in every interleaving whose setters
    pass data, if and only if no token is left in the slot when it is accepted.
   */
  lemma TruthfulExactlyWhen(s: System)
    requires Inv(s) && s.state == Listening && !s.flushing
    ensures AlwaysTruthful(Step(s, Request), s.next) <==> !s.token
  {
    var s1, id := Step(s, Request), s.next;
    StepKeepsInv(s, Request);
    assert AnsweredOnce(s, id);
    NoAnswerYet(s.replies, id);
    if s.token {
      var s2 := Step(s1, Receive(id));
      var t := Step(s2, Respond(id));
      var es := [Receive(id), Respond(id)];
      assert es[2..] == [] && Reaches(t, es[2..], t);
      ReachesStep(s2, es, 1, t);
      ReachesStep(s1, es, 0, t);
      assert es[0..] == es;
      assert Reply(id, s.loops, Ok, EMPTY) in t.replies;
    } else {
      forall es, t | Reaches(s1, es, t) && (forall e :: e in es ==> !SetsNothing(e)) ensures Truthful(t, id) {
        RunServes(s1, es, t, id);
      }
    }
  }

  /** A setter call without data counts as collected data, so with such calls no request is safe from an empty answer.
      */
  lemma EmptySettersAnswerNothing(s: System)
    requires Inv(s) && s.state == Listening && !s.flushing
    ensures exists es, t :: Reaches(Step(s, Request), es, t) && !Truthful(t, s.next)
  {
    if s.token {
      TruthfulExactlyWhen(s);
    } else {
      EmptySetterRun(s);
    }
  }

  /** The state after a loop in which a setter was called without data. */
  function NothingCollected(s: System): System
    requires !s.flushing
  {
    Step(s, Request).(state := DataCollected, loops := s.loops + 1, data := Data(map[], Some(s.loops + 1), false),
        token := true)
  }

  lemma NothingIsCollected(s: System)
    requires s.state == Listening && !s.flushing && !s.token && s.data == EMPTY
    ensures Reaches(Step(s, Request), [BeginLoop, Set(ClusterNodes, None), Flush], NothingCollected(s))
  {
    var es := [BeginLoop, Set(ClusterNodes, None), Flush];
    var s4 := NothingCollected(s);
    var s3 := s4.(token := false);
    var s2 := s3.(state := StartDataCollection);
    assert es[3..] == [] && Reaches(s4, es[3..], s4);
    ReachesStep(s3, es, 2, s4);
    ReachesStep(s2, es, 1, s4);
    ReachesStep(Step(s, Request), es, 0, s4);
    assert es[0..] == es;
  }

  lemma EmptySetterRun(s: System)
    requires s.state == Listening && !s.flushing && !s.token && s.data == EMPTY
    ensures exists es, t :: Reaches(Step(s, Request), es, t) && !Truthful(t, s.next)
  {
    NothingIsCollected(s);
    var id, s4 := s.next, NothingCollected(s);
    var s5 := SetPhase(s4, id, GotTrigger).(token := false);
    var t, es := Step(s5, Respond(id)), [Receive(id), Respond(id)];
    assert es[2..] == [] && Reaches(t, es[2..], t);
    ReachesStep(s5, es, 1, t);
    ReachesStep(s4, es, 0, t);
    assert es[0..] == es;
    ReachesThen(Step(s, Request), [BeginLoop, Set(ClusterNodes, None), Flush], s4, es, t);
    assert Reply(id, s.loops, Ok, s4.data) in t.replies;
  }

  /** The state after one request was answered and a later Flush left its token in the slot. */
  function LeftOver(): System {
    var d := Data(map[ClusterNodes := Item(1, 1)], Some(1), false);
    System(Listening, EMPTY, true, false, map[], 1, 1, [Reply(0, 0, Ok, d)])
  }

  /** The state after data was set for the first request. */
  function FirstData(): System {
    var d := Data(map[ClusterNodes := Item(1, 1)], Some(1), false);
    System(DataCollected, d, false, false, map[0 := Pending(Waiting, 0)], 1, 1, [])
  }

  lemma FirstDataIsReachable()
    ensures Reaches(Initial(true), [Request, BeginLoop, Set(ClusterNodes, Some(1))], FirstData())
  {
    var es := [Request, BeginLoop, Set(ClusterNodes, Some(1))];
    var s1 := Initial(true).(state := TriggerEnabled, pending := map[0 := Pending(Waiting, 0)], next := 1);
    var s2 := s1.(state := StartDataCollection, loops := 1, data := Data(map[], Some(1), false));
    assert Reaches(FirstData(), es[3..], FirstData());
    ReachesStep(s2, es, 2, FirstData());
    ReachesStep(s1, es, 1, FirstData());
    ReachesStep(Initial(true), es, 0, FirstData());
    assert es[0..] == es;
  }

  lemma LeftOverFollows()
    ensures Reaches(FirstData(), [Flush, Receive(0), Flush, Respond(0)], LeftOver())
  {
    var es, s3 := [Flush, Receive(0), Flush, Respond(0)], FirstData();
    var s4 := s3.(token := true);
    var s5 := s3.(pending := map[0 := Pending(GotTrigger, 0)]);
    var s6 := s5.(token := true);
    assert Step(s6, Respond(0)) == LeftOver();
    assert Reaches(LeftOver(), es[4..], LeftOver());
    ReachesStep(s6, es, 3, LeftOver());
    ReachesStep(s5, es, 2, LeftOver());
    ReachesStep(s4, es, 1, LeftOver());
    ReachesStep(s3, es, 0, LeftOver());
    assert es[0..] == es;
  }

  lemma {:induction false} ReachesThen(s: System, a: seq<Event>, m: System, b: seq<Event>, t: System)
    requires Reaches(s, a, m) && Reaches(m, b, t)
    ensures Reaches(s, a + b, t)
    decreases |a|
  {
    if a == [] {
      assert a + b == b;
    } else {
      ReachesThen(Step(s, a[0]), a[1..], m, b, t);
      assert (a + b)[1..] == a[1..] + b;
    }
  }

  /** What can be reached after the left-over token can be reached. */
  lemma AfterLeftOver(es: seq<Event>, t: System)
    requires Reaches(LeftOver(), es, t)
    ensures Reachable(t)
  {
    FirstDataIsReachable();
    LeftOverFollows();
    var first, second := [Request, BeginLoop, Set(ClusterNodes, Some(1))], [Flush, Receive(0), Flush, Respond(0)];
    ReachesThen(FirstData(), second, LeftOver(), es, t);
    ReachesThen(Initial(true), first, FirstData(), second + es, t);
  }

  /** A token left over from one request can end the next one successfully with nothing at all. */
  lemma StaleTokenAnswersEmpty()
    ensures exists t, r :: Reachable(t) && r in t.replies && r.status == Ok && r.data == EMPTY
  {
    var m, es := LeftOver(), [Request, Receive(1), Respond(1)];
    var m1 := m.(state := TriggerEnabled, pending := map[1 := Pending(Waiting, 1)], next := 2);
    var m2 := m1.(token := false, pending := map[1 := Pending(GotTrigger, 1)]);
    var r := Reply(1, 1, Ok, EMPTY);
    var t := m2.(state := Listening, pending := map[], replies := m.replies + [r]);
    assert Step(m2, Respond(1)) == t;
    assert Reaches(t, es[3..], t);
    ReachesStep(m2, es, 2, t);
    ReachesStep(m1, es, 1, t);
    ReachesStep(m, es, 0, t);
    assert es[0..] == es;
    AfterLeftOver(es, t);
    assert r in t.replies;
  }

  /** The same token can end it successfully with no more than a start time, once a loop began to collect. */
  lemma StaleTokenAnswersStartOnly()
    ensures exists t, r ::
        Reachable(t) && r in t.replies && r.status == Ok && r.data.items == map[] && r.data.started.Some?
  {
    var m, es := LeftOver(), [Request, BeginLoop, Receive(1), Respond(1)];
    var d := Data(map[], Some(2), false);
    var m1 := m.(state := TriggerEnabled, pending := map[1 := Pending(Waiting, 1)], next := 2);
    var m2 := m1.(state := StartDataCollection, loops := 2, data := d);
    var m3 := m2.(token := false, pending := map[1 := Pending(GotTrigger, 1)]);
    var r := Reply(1, 1, Ok, d);
    var t := m3.(state := Listening, data := EMPTY, pending := map[], replies := m.replies + [r]);
    assert Step(m3, Respond(1)) == t;
    assert Reaches(t, es[4..], t);
    ReachesStep(m3, es, 3, t);
    ReachesStep(m2, es, 2, t);
    ReachesStep(m1, es, 1, t);
    ReachesStep(m, es, 0, t);
    assert es[0..] == es;
    AfterLeftOver(es, t);
    assert r in t.replies;
  }

  lemma ReachesStep(s: System, es: seq<Event>, k: nat, t: System)
    requires k < |es| && Enabled(s, es[k]) && Reaches(Step(s, es[k]), es[k+1..], t)
    ensures Reaches(s, es[k..], t)
  {
    assert es[k..][1..] == es[k+1..];
  }

  // ----- what the answers say -----

  /** Success means that no error was noted, an internal error that one was; the other answers carry nothing. */
  ghost predicate Labelled(r: Reply) {
    && (r.status == Ok ==> !r.data.error)
    && (r.status == InternalServerError ==> r.data.error)
    && (r.status == TooManyRequests || r.status == ServiceUnavailable ==> r.data == EMPTY)
  }

  ghost predicate AllLabelled(s: System) {
    forall r :: r in s.replies ==> Labelled(r)
  }

  lemma {:induction false} RunLabels(s: System, es: seq<Event>, t: System)
    requires AllLabelled(s) && Reaches(s, es, t)
    ensures AllLabelled(t)
    decreases |es|
  {
    if es != [] {
      RunLabels(Step(s, es[0]), es[1..], t);
    }
  }

  /** In every interleaving the status of an answer tells what it carries. */
  lemma StatusesMean(t: System)
    requires Reachable(t)
    ensures AllLabelled(t)
  {
    var isEnabled: bool, es: seq<Event> :| Reaches(Initial(isEnabled), es, t);
    RunLabels(Initial(isEnabled), es, t);
  }

  /** The value that an event sets for a field. */
  ghost function SetBy(e: Event, f: Field): Option<int> {
    if e.Set? && e.field == f then e.value else None
  }

  /** The value last set for a field. */
  ghost function LastSet(es: seq<Event>, f: Field): Option<int>
    decreases |es|
  {
    if es == [] then None
    else if LastSet(es[1..], f).Some? then LastSet(es[1..], f)
    else SetBy(es[0], f)
  }

  /** Some data other than template nodes was set, even if it was empty. */
  ghost predicate SetsData(es: seq<Event>) {
    exists i :: 0 <= i < |es| && es[i].Set? && es[i].field != TemplateNodes
  }

  lemma SetsDataSplit(es: seq<Event>)
    requires es != []
    ensures SetsData(es) <==> (es[0].Set? && es[0].field != TemplateNodes) || SetsData(es[1..])
  {
    if SetsData(es[1..]) {
      var i :| 0 <= i < |es| - 1 && es[1..][i].Set? && es[1..][i].field != TemplateNodes;
      assert es[i+1].Set?;
    }
    if SetsData(es) {
      var i :| 0 <= i < |es| && es[i].Set? && es[i].field != TemplateNodes;
      assert i > 0 ==> es[1..][i-1] == es[i];
    }
  }

  /** A request that was answered is never pending again. */
  lemma {:induction false} GoneForGood(s: System, es: seq<Event>, t: System, id: nat)
    requires Inv(s) && Reaches(s, es, t) && id < s.next && id !in s.pending
    ensures id !in t.pending
    decreases |es|
  {
    if es != [] {
      StepKeepsInv(s, es[0]);
      GoneForGood(Step(s, es[0]), es[1..], t, id);
    }
  }

  /** A field holds the new value if there is one, and what it held before otherwise. */
  ghost predicate Holds(before: map<Field, Item>, value: Option<int>, after: map<Field, Item>, f: Field) {
    match value
    case Some(v) => f in after && after[f].value == v
    case None => (f in after <==> f in before) && (f in before ==> after[f].value == before[f].value)
  }

  /** One step during collection. */
  lemma StepHolds(s: System, e: Event, id: nat, f: Field)
    requires Collecting(s.state) && s.pending.Keys == {id} && Enabled(s, e) && id in Step(s, e).pending
    ensures var t := Step(s, e);
      && Collecting(t.state) && Holds(s.data.items, SetBy(e, f), t.data.items, f)
      && (t.state == DataCollected <==> s.state == DataCollected || (e.Set? && e.field != TemplateNodes))
  {
  }

  lemma OnlyPending(s: System, id: nat)
    requires Inv(s) && id in s.pending
    ensures s.pending.Keys == {id}
  {
  }

  lemma StillPending(s: System, es: seq<Event>, t: System, id: nat)
    requires Inv(s) && es != [] && Reaches(s, es, t) && id in s.pending && id in t.pending
    ensures id in Step(s, es[0]).pending && Inv(Step(s, es[0])) && Reaches(Step(s, es[0]), es[1..], t)
  {
    StepKeepsInv(s, es[0]);
    if id !in Step(s, es[0]).pending {
      GoneForGood(Step(s, es[0]), es[1..], t, id);
    }
  }

  /** As long as a request stays pending during collection, every field holds what was last set for it, and data
      counts as collected exactly when something other than template nodes was set. */
  lemma {:induction false} CollectionHolds(s: System, es: seq<Event>, t: System, id: nat, f: Field)
    requires Inv(s) && Reaches(s, es, t) && Collecting(s.state) && id in s.pending && id in t.pending
    ensures Collecting(t.state) && Holds(s.data.items, LastSet(es, f), t.data.items, f)
    ensures t.state == DataCollected <==> s.state == DataCollected || SetsData(es)
    decreases |es|
  {
    if es != [] {
      StillPending(s, es, t, id);
      OnlyPending(s, id);
      StepHolds(s, es[0], id, f);
      CollectionHolds(Step(s, es[0]), es[1..], t, id, f);
      SetsDataSplit(es);
    }
  }

  /**
    An answer given after the loop began to collect for its request holds, for every field, exactly the
    value last set for it since then, and counts as collected exactly when something other than template
    nodes was set.
   */
  lemma AnswerHoldsLastData(s: System, es: seq<Event>, t: System, id: nat, f: Field)
    requires Inv(s) && s.state == TriggerEnabled && !s.flushing && id in s.pending
    requires Reaches(Step(s, BeginLoop), es, t) && Enabled(t, Respond(id))
    ensures var r := Step(t, Respond(id)).replies[|t.replies|];
      && r.id == id && (f in r.data.items <==> LastSet(es, f).Some?)
      && (f in r.data.items ==> r.data.items[f].value == LastSet(es, f).value)
    ensures t.state == DataCollected <==> SetsData(es)
  {
    StepKeepsInv(s, BeginLoop);
    CollectionHolds(Step(s, BeginLoop), es, t, id, f);
  }

  // ----- tokens -----

  /** Tokens in the slot or waiting for it. */
  function Tokens(s: System): nat {
    (if s.token then 1 else 0) + if s.flushing then 1 else 0
  }

  /** The tokens that Flush sends during collection. */
  ghost function Sent(s: System, es: seq<Event>): nat
    decreases |es|
  {
    if es == [] || !Enabled(s, es[0]) then 0
    else Sent(Step(s, es[0]), es[1..]) + if es[0].Flush? && Collecting(s.state) then 1 else 0
  }

  /** The tokens that handlers receive, or drain when they are cancelled. */
  ghost function Consumed(s: System, es: seq<Event>): nat
    decreases |es|
  {
    if es == [] || !Enabled(s, es[0]) then 0
    else Consumed(Step(s, es[0]), es[1..]) + if es[0].Receive? || (es[0].Abort? && s.token) then 1 else 0
  }

  /** No token is lost or made up: what was sent is consumed, in the slot, or waiting for it. */
  lemma {:induction false} TokensConserved(s: System, es: seq<Event>, t: System)
    requires Inv(s) && Reaches(s, es, t)
    ensures Tokens(s) + Sent(s, es) == Tokens(t) + Consumed(s, es)
    decreases |es|
  {
    if es != [] {
      StepKeepsInv(s, es[0]);
      TokensConserved(Step(s, es[0]), es[1..], t);
    }
  }

  // ----- a Flush that blocks -----

  ghost predicate Stuck(s: System) {
    forall e :: !Enabled(s, e)
  }

  /** A blocked Flush can only be released by its handler receiving; nothing can happen exactly when that handler no
      longer waits. */
  lemma StuckExactlyWhen(s: System)
    requires Inv(s)
    ensures Stuck(s) <==> s.flushing && forall id :: id in s.pending ==> s.pending[id].phase != Waiting
  {
    if !s.flushing {
      assert Enabled(s, BeginLoop);
    } else if exists id :: id in s.pending && s.pending[id].phase == Waiting {
      var id :| id in s.pending && s.pending[id].phase == Waiting;
      assert Enabled(s, ContextDone(id));
    }
  }

  function StuckRun(): seq<Event> {
    [Request, BeginLoop, Flush, ContextDone(0), BeginLoop, Flush]
  }

  /** A request that is cancelled while its token is in the slot, before its handler gets the mutex, lets the next
      Flush block for ever. */
  lemma FlushMayBlockForever()
    ensures exists t :: Reachable(t) && Stuck(t)
  {
    var s0 := Initial(true);
    var s1 := Step(s0, Request);
    var s2 := Step(s1, BeginLoop);
    var s3 := Step(s2, Flush);
    var s4 := Step(s3, ContextDone(0));
    var s5 := Step(s4, BeginLoop);
    var t := Step(s5, Flush);
    var es := StuckRun();
    assert Reaches(t, [], t);
    assert Reaches(s5, [Flush], t);
    assert Reaches(s4, [BeginLoop, Flush], t);
    assert Reaches(s3, [ContextDone(0), BeginLoop, Flush], t);
    assert Reaches(s2, [Flush, ContextDone(0), BeginLoop, Flush], t);
    assert Reaches(s1, [BeginLoop, Flush, ContextDone(0), BeginLoop, Flush], t);
    assert Reaches(s0, es, t);
    assert Reachable(t);
    RunKeepsInv(s0, es, t);
    StuckExactlyWhen(t);
  }

  // ----- the snapshotter itself -----

  /** The snapshotter with the handlers that wait on it; each method is one section under the mutex or one step of a
      waiting handler. */
  class DebuggingSnapshotter {
    var state: State
    var data: Data
    var trigger: bool
    var flushing: bool
    var pending: map<nat, Pending>
    var next: nat
    var loops: nat
    var replies: seq<Reply>

    ghost function View(): System
      reads this
    {
      System(state, data, trigger, flushing, pending, next, loops, replies)
    }

    ghost predicate Valid()
      reads this
    {
      Inv(View())
    }

    constructor (isEnabled: bool)
      ensures Valid() && View() == Initial(isEnabled)
    {
      state := if isEnabled then Listening else Disabled;
      data, trigger, flushing, pending, next, loops, replies := EMPTY, false, false, map[], 0, 0, [];
      new;
      InitialInv(isEnabled);
    }

    /** The first section of a handler: reject, or accept and start to wait. */
    method AcceptRequest() returns (id: nat, accepted: bool)
      requires Valid() && Enabled(View(), Request)
      modifies this
      ensures Valid() && View() == Step(old(View()), Request)
      ensures id == old(next) && (accepted <==> old(state) == Listening)
      ensures accepted ==> state == TriggerEnabled && id in pending && replies == old(replies)
      ensures !accepted ==>
        state == old(state) && replies == old(replies) + [Reply(id, old(loops), TooManyRequests, EMPTY)]
    {
      StepKeepsInv(View(), Request);
      id, accepted := next, state == Listening;
      next := next + 1;
      if !accepted {
        replies := replies + [Reply(id, loops, TooManyRequests, EMPTY)];
        return;
      }
      state := TriggerEnabled;
      pending := pending[id := Pending(Waiting, loops)];
    }

    /** A waiting handler takes the token; a Flush that waits for the slot then completes. */
    method ReceiveToken(id: nat)
      requires Valid() && Enabled(View(), Receive(id))
      modifies this
      ensures Valid() && View() == Step(old(View()), Receive(id))
    {
      StepKeepsInv(View(), Receive(id));
      pending := pending[id := pending[id].(phase := GotTrigger)];
      trigger := flushing;
      flushing := false;
    }

    /** A waiting handler sees the end of its context. */
    method SeeContextDone(id: nat)
      requires Valid() && Enabled(View(), ContextDone(id))
      modifies this
      ensures Valid() && View() == Step(old(View()), ContextDone(id))
    {
      StepKeepsInv(View(), ContextDone(id));
      pending := pending[id := pending[id].(phase := GotCancel)];
    }

    /** The last section of a handler that got the token. */
    method RespondTo(id: nat) returns (reply: Reply)
      requires Valid() && Enabled(View(), Respond(id))
      modifies this
      ensures Valid() && View() == Step(old(View()), Respond(id))
      ensures replies == old(replies) + [reply] && reply.id == id && reply.data == old(data)
      ensures reply.status == (if old(data).error then InternalServerError else Ok)
      ensures state == Listening && data == EMPTY && id !in pending
    {
      StepKeepsInv(View(), Respond(id));
      reply := Reply(id, pending[id].acceptedAt, if data.error then InternalServerError else Ok, data);
      replies := replies + [reply];
      state := Listening;
      pending := pending - {id};
      data := EMPTY;
    }

    /** The last section of a handler that was cancelled; it drains the slot. */
    method AbortRequest(id: nat)
      requires Valid() && Enabled(View(), Abort(id))
      modifies this
      ensures Valid() && View() == Step(old(View()), Abort(id))
      ensures !trigger && state == Listening && data == EMPTY && id !in pending
      ensures |replies| == |old(replies)| + 1 && replies[|old(replies)|].status == ServiceUnavailable
    {
      StepKeepsInv(View(), Abort(id));
      replies := replies + [Reply(id, pending[id].acceptedAt, ServiceUnavailable, EMPTY)];
      data := EMPTY;
      state := Listening;
      pending := pending - {id};
      if trigger {
        trigger := false;
      }
    }

    method StartCollection()
      requires Valid() && Enabled(View(), BeginLoop)
      modifies this
      ensures Valid() && View() == Step(old(View()), BeginLoop)
    {
      StepKeepsInv(View(), BeginLoop);
      loops := loops + 1;
      if state == TriggerEnabled {
        state := StartDataCollection;
        data := data.(started := Some(loops));
      }
    }

    method SetClusterNodes(nodes: Option<int>)
      requires Valid() && Enabled(View(), Set(ClusterNodes, nodes))
      modifies this
      ensures Valid() && View() == Step(old(View()), Set(ClusterNodes, nodes))
    {
      StepKeepsInv(View(), Set(ClusterNodes, nodes));
      if !Collecting(state) {
        return;
      }
      if nodes.Some? {
        data := data.(items := data.items[ClusterNodes := Item(loops, nodes.value)]);
      }
      state := DataCollected;
    }

    method SetUnscheduledPodsCanBeScheduled(pods: Option<int>)
      requires Valid() && Enabled(View(), Set(UnscheduledPods, pods))
      modifies this
      ensures Valid() && View() == Step(old(View()), Set(UnscheduledPods, pods))
    {
      StepKeepsInv(View(), Set(UnscheduledPods, pods));
      if !Collecting(state) {
        return;
      }
      if pods.Some? {
        data := data.(items := data.items[UnscheduledPods := Item(loops, pods.value)]);
      }
      state := DataCollected;
    }

    /** Template nodes alone do not count as collected data. */
    method SetTemplateNodes(templates: Option<int>)
      requires Valid() && Enabled(View(), Set(TemplateNodes, templates))
      modifies this
      ensures Valid() && View() == Step(old(View()), Set(TemplateNodes, templates))
    {
      StepKeepsInv(View(), Set(TemplateNodes, templates));
      if Collecting(state) && templates.Some? {
        data := data.(items := data.items[TemplateNodes := Item(loops, templates.value)]);
      }
    }

    /** The end of a loop: a token is sent, or the send blocks with the mutex held. */
    method FlushData()
      requires Valid() && Enabled(View(), Flush)
      modifies this
      ensures Valid() && View() == Step(old(View()), Flush)
      ensures flushing <==> Collecting(old(state)) && old(trigger)
    {
      StepKeepsInv(View(), Flush);
      if state == StartDataCollection {
        data := data.(error := true);
      }
      if Collecting(state) {
        if trigger {
          flushing := true;
        } else {
          trigger := true;
        }
      }
    }
  }
}
