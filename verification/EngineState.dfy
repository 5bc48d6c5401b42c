/** The state of the engine supervisor of src/gui.rs, and what telemetry does to it. Every telemetry event
    is a function on what the supervisor knows; the methods of the supervisor are proved against it. */
module EngineState {
  import opened Basics
  import opened EngineTrace

  const OUTPUT_DISCONNECT_GRACE: nat := 500
  const OBSERVATION_FAILURE_DRAIN_GRACE: nat := 2_000
  const ENGINE_RESTART_BASE: nat := 2_000
  const ENGINE_RESTART_MAX: nat := 60_000

  datatype Phase = Idle | Starting | Connecting | Authenticating | Mining | Reconnecting | Stopping | Error

  /** How recovery goes on after an exit; anything but `Keep` only on Windows. */
  datatype Escalation = Keep | Light | Terminal

  datatype Exit = Exit(asRequested: bool, escalation: Escalation)

  /** One non-blocking look at a process. */
  datatype Wait = Running | Exited(exit: Exit) | Unobservable

  /** How far a start gets. `reaped` says whether a failed start's process was proven gone. */
  datatype Launch =
    | Refused                                  // settings or memory preflight
    | NoProcess                                // executable not found, or spawn failed
    | Abandoned(pid: Pid, reaped: bool)        // credentials or output readers failed
    | Launched(pid: Pid)

  /** A telemetry event, reduced to what the health machine reads of it. */
  datatype Event =
    | Online                                   // startup, connecting
    | PoolConnected
    | NodeConnected
    | Job
    | JobCleared(current: bool)
    | WorkerInitializing(worker: nat)
    | WorkerReady(worker: nat)                 // worker_ready, worker_recovered
    | WorkerError(worker: nat)
    | EngineFatal
    | SessionError
    | Metrics(hashing: bool, clearsWork: bool)
    | Other

  /** What one frame finds. */
  datatype Frame = Frame(
    now: nat,
    messages: seq<Event>,
    disconnected: bool,
    child: Wait,
    reaped: bool,
    quarantineGone: bool,
    readerFinished: bool,
    launch: Launch)

  function Delay(attempt: nat): (delay: nat)
    ensures attempt == 1 ==> delay == ENGINE_RESTART_BASE
    ensures ENGINE_RESTART_BASE <= delay <= ENGINE_RESTART_MAX
  {
    Min(ENGINE_RESTART_BASE * Doublings(Min(Monus(attempt, 1), 5)), ENGINE_RESTART_MAX)
  }

  function Doublings(shift: nat): (n: nat)
    ensures n >= 1
  {
    if shift == 0 then 1 else 2 * Doublings(shift - 1)
  }

  /** The delay doubles from one attempt to the next until it reaches a minute, and stays there. */
  lemma DelaysDouble(attempt: nat)
    requires attempt >= 1
    ensures Delay(attempt + 1) == Min(2 * Delay(attempt), ENGINE_RESTART_MAX)
  {
    if attempt <= 5 {
      assert Doublings(attempt) == 2 * Doublings(attempt - 1);
    }
    assert Doublings(5) == 32 by {
      assert Doublings(1) == 2 && Doublings(2) == 4 && Doublings(3) == 8 && Doublings(4) == 16;
    }
  }

  // ---------------------------------------------------------------- the state and its invariant

  datatype Engine = Engine(
    child: Option<Pid>,
    quarantined: Option<Pid>,
    pendingExit: Option<Exit>,
    pendingLoss: Option<nat>,      // an observation failure, with its drain deadline
    receiver: bool,
    disconnectedAt: Option<nat>)
  {
    predicate Draining() { pendingExit.Some? || pendingLoss.Some? }

    predicate Live() { child.Some? || quarantined.Some? || Draining() }

    /** The processes in hand. */
    ghost function Held(): set<Pid> {
      (if child.Some? then {child.value} else {}) + (if quarantined.Some? then {quarantined.value} else {})
    }
  }

  datatype Recovery = Recovery(
    requestedStop: bool,
    enabled: bool,
    restartAt: Option<nat>,
    attempts: nat,
    singleWorker: bool,
    light: bool)

  datatype Health = Health(
    phase: Phase,
    nodeLinkLive: bool,
    ready: set<nat>,
    readyWorkers: nat,
    failed: set<nat>,
    canRestore: bool,
    fatal: bool,
    lastMetricsAt: Option<nat>,
    stableSince: Option<nat>)

  function Effective(r: Recovery, workers: nat): nat { if r.singleWorker then 1 else workers }

  // ---------------------------------------------------------------- telemetry

  /** A worker became ready: it is no longer failed, and if it was the last one failed, the engine is
      mining again, provided that is what the first failure interrupted. */
  ghost function Readied(a: Health, worker: nat): Health {
    var failed := a.failed - {worker};
    var restored := worker in a.failed && failed == {} && a.canRestore && a.phase.Error?;
    a.(ready := a.ready + {worker}, readyWorkers := |a.ready + {worker}|, failed := failed,
       canRestore := a.canRestore && failed != {}, phase := if restored then Mining else a.phase)
  }

  /** A worker failed: the first failure remembers whether it interrupted mining. */
  ghost function Failing(a: Health, worker: nat): Health {
    a.(ready := a.ready - {worker}, readyWorkers := |a.ready - {worker}|, failed := a.failed + {worker},
       canRestore := if a.failed == {} then a.phase.Mining? else a.canRestore, phase := Error, stableSince := None)
  }

  /** What one worker last said: that it is ready, or that it failed. */
  datatype Report = Report(worker: nat, ready: bool)

  ghost function AfterReports(a: Health, reports: seq<Report>): Health {
    if reports == [] then a
    else
      var before, last := AfterReports(a, reports[..|reports| - 1]), reports[|reports| - 1];
      if last.ready then Readied(before, last.worker) else Failing(before, last.worker)
  }

  predicate LastSaidFailed(failedBefore: set<nat>, reports: seq<Report>, worker: nat) {
    if reports == [] then worker in failedBefore
    else
      var last := reports[|reports| - 1];
      if last.worker == worker then !last.ready else LastSaidFailed(failedBefore, reports[..|reports| - 1], worker)
  }

  /** Mining with every worker sound, or an error that only waits for the failed ones. */
  ghost predicate MiningButForWorkers(a: Health) {
    !a.fatal && if a.failed == {} then a.phase.Mining? && !a.canRestore else a.phase.Error? && a.canRestore
  }

  /** Whatever the workers of a mining engine report, in any order, it shows `Mining` exactly when the
      last report of no worker was a failure. */
  lemma {:induction false} WorkersDecideThePhase(a: Health, reports: seq<Report>)
    requires MiningButForWorkers(a)
    ensures var b := AfterReports(a, reports);
            && MiningButForWorkers(b) && (b.phase.Mining? <==> b.failed == {})
            && forall w :: w in b.failed <==> LastSaidFailed(a.failed, reports, w)
  {
    if reports != [] {
      WorkersDecideThePhase(a, reports[..|reports| - 1]);
    }
  }

  /** An engine declared fatally failed. */
  function Dead(a: Health): Health {
    a.(fatal := true, nodeLinkLive := false, canRestore := false, phase := Error)
  }

  /** The health after an event that is neither a fatal failure nor a sample. */
  ghost function AfterNews(a: Health, effective: nat, event: Event): Health {
    var sound := a.failed == {};
    match event
    case Online => a.(nodeLinkLive := false, phase := if sound then Connecting else Error, canRestore := false)
    case PoolConnected => a.(phase := if sound then Authenticating else Error, canRestore := false)
    case NodeConnected => a.(nodeLinkLive := true, phase := if sound then Mining else Error, canRestore := !sound)
    case Job => a.(nodeLinkLive := true, phase := if sound then Mining else Error, canRestore := !sound)
    case JobCleared(current) => if current then a.(stableSince := None) else a
    case SessionError =>
      a.(nodeLinkLive := false, canRestore := false, lastMetricsAt := None, stableSince := None, phase := Reconnecting)
    case WorkerInitializing(w) =>
      a.(ready := a.ready - {w}, readyWorkers := |a.ready - {w}|, stableSince := None)
    case WorkerError(w) => if w < effective then Failing(a, w) else a
    case WorkerReady(w) => if w < effective then Readied(a, w) else a
    case _ => a
  }

  /** What such an event does to stable hashing. */
  function ActsOf(event: Event, effective: nat): seq<Act> {
    match event
    case JobCleared(current) => if current then [Disturbed] else []
    case WorkerInitializing(_) => [Disturbed]
    case WorkerError(w) => if w < effective then [Disturbed] else []
    case SessionError => [Silenced]
    case _ => []
  }

  /** All that telemetry acts on. */
  datatype Told = Told(health: Health, recovery: Recovery, trace: Trace)

  function SampleOf(x: Told, workers: nat, hashing: bool, clearsWork: bool, now: nat): Sample {
    Sample(now, hashing, x.health.nodeLinkLive, x.health.failed, x.health.readyWorkers, Effective(x.recovery, workers), clearsWork)
  }

  /** The acts of one event. */
  ghost function EventActs(x: Told, workers: nat, event: Event, now: nat): seq<Act> {
    match event
    case EngineFatal => [Failed, Silenced]
    case Metrics(hashing, clearsWork) =>
      var sampled := [Sampled(SampleOf(x, workers, hashing, clearsWork, now))];
      if x.recovery.attempts > 0 && FiveStableMinutes(x.trace + sampled) then sampled + [Renewed] else sampled
    case _ => ActsOf(event, Effective(x.recovery, workers))
  }

  /** A fatally failed engine is heard no more, and a stopped one only if it fails. */
  predicate Deaf(x: Told, event: Event) { x.health.fatal || (x.recovery.requestedStop && !event.EngineFatal?) }

  /** A sample goes on record, and renews the budget when it completes five stable minutes. */
  ghost function AfterEvent(x: Told, workers: nat, event: Event, now: nat): Told {
    if Deaf(x, event) then x
    else
      var acts := EventActs(x, workers, event, now);
      match event
      case EngineFatal =>
        Told(Dead(x.health).(lastMetricsAt := None, stableSince := None, ready := {}, readyWorkers := 0), x.recovery, x.trace + acts)
      case Metrics(_, _) =>
        Told(x.health.(lastMetricsAt := Some(now), stableSince := StableSince(x.trace + acts[..1])),
             x.recovery.(attempts := if |acts| > 1 then 0 else x.recovery.attempts),
             x.trace + acts)
      case _ => Told(AfterNews(x.health, Effective(x.recovery, workers), event), x.recovery, x.trace + acts)
  }

  /** A sample, told in two steps: it goes on record, and then it may renew the budget. */
  lemma SampleInTwoSteps(x: Told, workers: nat, hashing: bool, clearsWork: bool, now: nat, y: Told)
    requires !Deaf(x, Metrics(hashing, clearsWork))
    requires y.trace == x.trace + [Sampled(SampleOf(x, workers, hashing, clearsWork, now))]
    requires y.health == x.health.(lastMetricsAt := Some(now), stableSince := StableSince(y.trace)) && y.recovery == x.recovery
    ensures AfterEvent(x, workers, Metrics(hashing, clearsWork), now)
            == if x.recovery.attempts > 0 && FiveStableMinutes(y.trace)
               then Told(y.health, y.recovery.(attempts := 0), y.trace + [Renewed]) else y
  {
    hide FiveStableMinutes, StableSince;
    var sampled := [Sampled(SampleOf(x, workers, hashing, clearsWork, now))];
    assert sampled[..1] == sampled && (sampled + [Renewed])[..1] == sampled;
    assert x.trace + sampled + [Renewed] == x.trace + (sampled + [Renewed]);
  }

  /** The messages of one frame, in order. */
  ghost function AfterEvents(x: Told, workers: nat, events: seq<Event>, now: nat): Told {
    if events == [] then x
    else AfterEvent(AfterEvents(x, workers, events[..|events| - 1], now), workers, events[|events| - 1], now)
  }

  // ---------------------------------------------------------------- what the messages of a frame amount to

  predicate Disturbing(event: Event) {
    (event.JobCleared? && event.current) || event.WorkerInitializing? || event.WorkerError?
  }

  predicate SomeDisturbs(events: seq<Event>) { exists e :: e in events && Disturbing(e) }

  /** An act that these messages can cause at this time. */
  predicate CameFrom(act: Act, events: seq<Event>, now: nat) {
    match act
    case Sampled(s) => s.at == now && Metrics(s.hashing, s.clearsWork) in events
    case Renewed => MetricsEvents(events) != []
    case Disturbed => SomeDisturbs(events)
    case Silenced => SessionError in events || EngineFatal in events
    case Failed => EngineFatal in events
    case _ => false
  }

  predicate AllCameFrom(acts: seq<Act>, events: seq<Event>, now: nat) {
    forall i | 0 <= i < |acts| :: CameFrom(acts[i], events, now)
  }

  /** The samples among some acts, as the events they came from. */
  function SampledEvents(acts: seq<Act>): seq<Event> {
    if acts == [] then []
    else
      var last := acts[|acts| - 1];
      SampledEvents(acts[..|acts| - 1])
      + (if last.Sampled? then [Metrics(last.sample.hashing, last.sample.clearsWork)] else [])
  }

  function MetricsEvents(events: seq<Event>): seq<Event> {
    if events == [] then []
    else MetricsEvents(events[..|events| - 1]) + (if events[|events| - 1].Metrics? then [events[|events| - 1]] else [])
  }

  lemma SampledEventsSnoc(acts: seq<Act>, act: Act)
    ensures SampledEvents(acts + [act])
            == SampledEvents(acts) + (if act.Sampled? then [Metrics(act.sample.hashing, act.sample.clearsWork)] else [])
  {
    assert (acts + [act])[..|acts|] == acts;
  }

  lemma {:induction false} SampledEventsJoin(a: seq<Act>, b: seq<Act>)
    ensures SampledEvents(a + b) == SampledEvents(a) + SampledEvents(b)
  {
    if b == [] {
      assert a + b == a;
    } else {
      var front, last := b[..|b| - 1], b[|b| - 1];
      assert b == front + [last];
      assert a + b == a + front + [last];
      SampledEventsSnoc(a + front, last);
      SampledEventsSnoc(front, last);
      SampledEventsJoin(a, front);
    }
  }

  lemma SampleActsAre(sample: Sample)
    ensures SampledEvents([Sampled(sample)]) == [Metrics(sample.hashing, sample.clearsWork)]
    ensures SampledEvents([Sampled(sample), Renewed]) == [Metrics(sample.hashing, sample.clearsWork)]
  {
    SampledEventsSnoc([], Sampled(sample));
    SampledEventsSnoc([Sampled(sample)], Renewed);
    assert [] + [Sampled(sample)] == [Sampled(sample)];
    assert [Sampled(sample)] + [Renewed] == [Sampled(sample), Renewed];
  }

  lemma QuietActsAre()
    ensures SampledEvents([]) == [] && SampledEvents([Disturbed]) == [] && SampledEvents([Silenced]) == []
    ensures SampledEvents([Failed, Silenced]) == []
  {
    SampledEventsSnoc([Failed], Silenced);
    assert [Failed] + [Silenced] == [Failed, Silenced];
  }

  lemma EventActsAre(x: Told, workers: nat, event: Event, now: nat)
    ensures AllCameFrom(EventActs(x, workers, event, now), [event], now)
    ensures SampledEvents(EventActs(x, workers, event, now)) == (if event.Metrics? then [event] else [])
  {
    hide FiveStableMinutes, SampledEvents, MetricsEvents;
    assert event in [event];
    if event.Metrics? {
      SampleActsCameFrom(SampleOf(x, workers, event.hashing, event.clearsWork, now), event);
    } else {
      QuietActsAre();
      hide SampleOf;
    }
  }

  lemma SampleActsCameFrom(sample: Sample, event: Event)
    requires event == Metrics(sample.hashing, sample.clearsWork)
    ensures AllCameFrom([Sampled(sample)], [event], sample.at) && AllCameFrom([Sampled(sample)] + [Renewed], [event], sample.at)
    ensures SampledEvents([Sampled(sample)]) == [event] && SampledEvents([Sampled(sample)] + [Renewed]) == [event]
  {
    hide SampledEvents;
    SampleActsAre(sample);
    assert [Sampled(sample)] + [Renewed] == [Sampled(sample), Renewed];
    MetricsEventsSnoc([], event);
    assert [] + [event] == [event] && event in [event];
  }

  lemma MetricsEventsSnoc(events: seq<Event>, event: Event)
    ensures MetricsEvents(events + [event]) == MetricsEvents(events) + (if event.Metrics? then [event] else [])
  {
    assert (events + [event])[..|events|] == events;
  }

  /** The engine is heard throughout these messages. */
  predicate HeardThroughout(x: Told, events: seq<Event>) {
    !x.health.fatal && !x.recovery.requestedStop && EngineFatal !in events
  }

  lemma CameFromMore(act: Act, front: seq<Event>, last: Event, now: nat)
    requires CameFrom(act, front, now) || CameFrom(act, [last], now)
    ensures CameFrom(act, front + [last], now)
  {
    MetricsEventsSnoc(front, last);
    MetricsEventsSnoc([], last);
    assert [] + [last] == [last];
    hide MetricsEvents;
    if act.Disturbed? {
      var e :| (e in front || e == last) && Disturbing(e);
      assert e in front + [last];
    }
  }

  lemma ActsJoin(before: seq<Act>, added: seq<Act>, front: seq<Event>, last: Event, now: nat)
    requires AllCameFrom(before, front, now) && AllCameFrom(added, [last], now)
    ensures AllCameFrom(before + added, front + [last], now)
    ensures SampledEvents(before) == MetricsEvents(front) && SampledEvents(added) == (if last.Metrics? then [last] else []) ==>
              SampledEvents(before + added) == MetricsEvents(front + [last])
  {
    SampledEventsJoin(before, added);
    MetricsEventsSnoc(front, last);
    hide SampledEvents, MetricsEvents, CameFrom;
    var acts := before + added;
    forall i | 0 <= i < |acts| ensures CameFrom(acts[i], front + [last], now) {
      assert acts[i] == if i < |before| then before[i] else added[i - |before|];
      CameFromMore(acts[i], front, last, now);
    }
  }

  /** From `x` to `y`, messages `events` added `acts`: only what telemetry can cause, only samples of these
      messages, at the time of the frame, and all of them if the engine is heard. */
  ghost predicate Adds(x: Told, y: Told, acts: seq<Act>, events: seq<Event>, now: nat) {
    && y.trace == x.trace + acts
    && AllCameFrom(acts, events, now)
    && (HeardThroughout(x, events) ==> SampledEvents(acts) == MetricsEvents(events) && !y.health.fatal)
    && y.recovery == x.recovery.(attempts := y.recovery.attempts) && y.recovery.attempts <= x.recovery.attempts
    && (x.health.fatal ==> y == x)
    && (y.health.fatal <==> x.health.fatal || EngineFatal in events)
    && ((x.health.fatal ==> !x.health.phase.Mining?) ==> y.health.fatal ==> !y.health.phase.Mining?)
  }

  lemma AddsNothing(x: Told, now: nat)
    ensures Adds(x, x, [], [], now)
  {
    QuietActsAre();
  }

  lemma AddsDeaf(x: Told, y: Told, acts: seq<Act>, front: seq<Event>, last: Event, now: nat)
    requires Adds(x, y, acts, front, now) && Deaf(y, last)
    ensures Adds(x, y, acts + [], front + [last], now)
  {
    assert acts + [] == acts;
    assert HeardThroughout(x, front + [last]) ==> HeardThroughout(x, front);
    forall i | 0 <= i < |acts| ensures CameFrom(acts[i], front + [last], now) { CameFromMore(acts[i], front, last, now); }
    hide SampledEvents, MetricsEvents, CameFrom;
  }

  lemma AddsHeard(x: Told, y: Told, workers: nat, acts: seq<Act>, front: seq<Event>, last: Event, now: nat)
    requires Adds(x, y, acts, front, now) && !Deaf(y, last)
    ensures Adds(x, AfterEvent(y, workers, last, now), acts + EventActs(y, workers, last, now), front + [last], now)
  {
    var added := EventActs(y, workers, last, now);
    EventFrame(y, workers, last, now);
    EventActsAre(y, workers, last, now);
    hide EventActs, AfterEvent, SampledEvents, MetricsEvents, AllCameFrom;
    ActsJoin(acts, added, front, last, now);
    assert x.trace + acts + added == x.trace + (acts + added);
    assert HeardThroughout(x, front + [last]) ==> HeardThroughout(x, front) && last != EngineFatal;
  }

  lemma AddsOne(x: Told, y: Told, workers: nat, acts: seq<Act>, front: seq<Event>, last: Event, now: nat)
    requires Adds(x, y, acts, front, now)
    ensures var added := if Deaf(y, last) then [] else EventActs(y, workers, last, now);
            Adds(x, AfterEvent(y, workers, last, now), acts + added, front + [last], now)
  {
    EventFrame(y, workers, last, now);
    if Deaf(y, last) {
      assert AfterEvent(y, workers, last, now) == y;
      hide *;
      AddsDeaf(x, y, acts, front, last, now);
    } else {
      hide *;
      AddsHeard(x, y, workers, acts, front, last, now);
    }
  }

  /** What the messages of a frame add to the trace. */
  lemma {:induction false} EventsAdd(x: Told, workers: nat, events: seq<Event>, now: nat) returns (acts: seq<Act>)
    ensures Adds(x, AfterEvents(x, workers, events, now), acts, events, now)
  {
    if events == [] {
      acts := [];
      AddsNothing(x, now);
    } else {
      var front, last := events[..|events| - 1], events[|events| - 1];
      assert events == front + [last];
      var y := AfterEvents(x, workers, front, now);
      assert AfterEvents(x, workers, events, now) == AfterEvent(y, workers, last, now);
      hide *;
      acts := EventsAdd(x, workers, front, now);
      AddsOne(x, y, workers, acts, front, last, now);
      acts := acts + (if Deaf(y, last) then [] else EventActs(y, workers, last, now));
    }
  }

  lemma EventFrame(x: Told, workers: nat, event: Event, now: nat)
    ensures var y := AfterEvent(x, workers, event, now);
            && y.trace == x.trace + (if Deaf(x, event) then [] else EventActs(x, workers, event, now))
            && y.recovery == x.recovery.(attempts := y.recovery.attempts) && y.recovery.attempts <= x.recovery.attempts
            && (y.health.fatal <==> x.health.fatal || event.EngineFatal?) && (x.health.fatal ==> y == x)
            && (y.health.fatal && !x.health.fatal ==> !y.health.phase.Mining?)
  {
    hide FiveStableMinutes, StableSince, EventActs;
  }

  // ---------------------------------------------------------------- what the workers said

  function ReportOf(event: Event): Option<Report> {
    match event
    case WorkerReady(w) => Some(Report(w, true))
    case WorkerError(w) => Some(Report(w, false))
    case _ => None
  }

  /** The reports of workers that count, in order. */
  function Reports(events: seq<Event>, effective: nat): seq<Report> {
    if events == [] then []
    else
      var report := ReportOf(events[|events| - 1]);
      Reports(events[..|events| - 1], effective)
      + (if report.Some? && report.value.worker < effective then [report.value] else [])
  }

  lemma StillHeard(x: Told, workers: nat, front: seq<Event>, last: Event, now: nat)
    requires HeardThroughout(x, front + [last])
    ensures HeardThroughout(x, front) && !Deaf(AfterEvents(x, workers, front, now), last)
    ensures Effective(AfterEvents(x, workers, front, now).recovery, workers) == Effective(x.recovery, workers)
  {
    var acts := EventsAdd(x, workers, front, now);
    assert last in front + [last] && forall e | e in front :: e in front + [last];
    hide AfterEvents, AllCameFrom, SampledEvents, MetricsEvents;
  }

  /** A heard engine's failed workers after a frame are those whose last report was a failure. */
  lemma {:induction false} FailedAreLastReports(x: Told, workers: nat, events: seq<Event>, now: nat, w: nat)
    requires HeardThroughout(x, events)
    ensures w in AfterEvents(x, workers, events, now).health.failed <==>
            LastSaidFailed(x.health.failed, Reports(events, Effective(x.recovery, workers)), w)
  {
    if events != [] {
      var front, last := events[..|events| - 1], events[|events| - 1];
      assert events == front + [last];
      var effective := Effective(x.recovery, workers);
      StillHeard(x, workers, front, last, now);
      FailedAreLastReports(x, workers, front, now, w);
      var y := AfterEvents(x, workers, front, now);
      StillHeard(x, workers, front, last, now);
      EventFailed(y, workers, last, now);
      hide AfterEvent, HeardThroughout, Deaf;
      var report := ReportOf(last);
      if report.Some? && report.value.worker < effective {
        assert Reports(events, effective)[..|Reports(front, effective)|] == Reports(front, effective);
      } else {
        assert Reports(events, effective) == Reports(front, effective);
      }
    }
  }

  lemma EventFailed(x: Told, workers: nat, event: Event, now: nat)
    requires !Deaf(x, event)
    ensures var failed, report := AfterEvent(x, workers, event, now).health.failed, ReportOf(event);
            failed == if report.Some? && report.value.worker < Effective(x.recovery, workers)
                      then (if report.value.ready then x.health.failed - {report.value.worker} else x.health.failed + {report.value.worker})
                      else x.health.failed
  {
    hide FiveStableMinutes, StableSince;
  }

  /** The worker's last word on being ready: that it is, or that it starts over or failed. */
  predicate LastSaidReady(readyBefore: set<nat>, events: seq<Event>, effective: nat, worker: nat) {
    if events == [] then worker in readyBefore
    else
      var last, front := events[|events| - 1], events[..|events| - 1];
      if last == WorkerReady(worker) && worker < effective then true
      else if last == WorkerInitializing(worker) || (last == WorkerError(worker) && worker < effective) then false
      else LastSaidReady(readyBefore, front, effective, worker)
  }

  lemma LastSaidReadyStep(readyBefore: set<nat>, front: seq<Event>, last: Event, effective: nat, worker: nat)
    ensures LastSaidReady(readyBefore, front + [last], effective, worker) ==
              ((last == WorkerReady(worker) && worker < effective)
               || (last != WorkerInitializing(worker) && !(last == WorkerError(worker) && worker < effective)
                   && LastSaidReady(readyBefore, front, effective, worker)))
  {
    assert (front + [last])[..|front|] == front;
  }

  /** The ready workers of a heard engine are those whose last word was that they are. */
  lemma {:induction false} ReadyAreLastReports(x: Told, workers: nat, events: seq<Event>, now: nat, w: nat)
    requires HeardThroughout(x, events)
    ensures w in AfterEvents(x, workers, events, now).health.ready <==>
            LastSaidReady(x.health.ready, events, Effective(x.recovery, workers), w)
  {
    if events != [] {
      var front, last, effective := events[..|events| - 1], events[|events| - 1], Effective(x.recovery, workers);
      assert events == front + [last];
      StillHeard(x, workers, front, last, now);
      HeardNotFatal(x, events, |events| - 1);
      var y := AfterEvents(x, workers, front, now);
      assert AfterEvents(x, workers, events, now) == AfterEvent(y, workers, last, now);
      HeardBefore(x, front, last);
      hide *;
      ReadyAreLastReports(x, workers, front, now, w);
      LastSaidReadyStep(x.health.ready, front, last, effective, w);
      EventReady(y, workers, last, now);
    }
  }

  lemma EventReady(x: Told, workers: nat, event: Event, now: nat)
    requires !Deaf(x, event) && !event.EngineFatal?
    ensures var ready, effective := AfterEvent(x, workers, event, now).health.ready, Effective(x.recovery, workers);
            ready == if event.WorkerReady? && event.worker < effective then x.health.ready + {event.worker}
                     else if event.WorkerInitializing? || (event.WorkerError? && event.worker < effective) then x.health.ready - {event.worker}
                     else x.health.ready
  {
    hide FiveStableMinutes, StableSince;
  }

  // ---------------------------------------------------------------- what the engine said of its connection

  predicate LastSaidLinked(linkedBefore: bool, events: seq<Event>) {
    if events == [] then linkedBefore
    else
      var last := events[|events| - 1];
      if last.NodeConnected? || last.Job? then true
      else if last.Online? || last.SessionError? then false
      else LastSaidLinked(linkedBefore, events[..|events| - 1])
  }

  /** The link of a heard engine is live exactly when the last word on it was a connection to the node or a job. */
  lemma {:induction false} LinkIsTheLastWord(x: Told, workers: nat, events: seq<Event>, now: nat)
    requires HeardThroughout(x, events)
    ensures AfterEvents(x, workers, events, now).health.nodeLinkLive <==> LastSaidLinked(x.health.nodeLinkLive, events)
  {
    if events != [] {
      var front, last := events[..|events| - 1], events[|events| - 1];
      assert events == front + [last];
      StillHeard(x, workers, front, last, now);
      LinkIsTheLastWord(x, workers, front, now);
      EventLink(AfterEvents(x, workers, front, now), workers, last, now);
      hide AfterEvent, HeardThroughout, Deaf;
    }
  }

  lemma EventLink(x: Told, workers: nat, event: Event, now: nat)
    requires !Deaf(x, event) && !event.EngineFatal?
    ensures AfterEvent(x, workers, event, now).health.nodeLinkLive
            == ((event.NodeConnected? || event.Job?) || (!event.Online? && !event.SessionError? && x.health.nodeLinkLive))
  {
    hide FiveStableMinutes, StableSince;
  }

  /** A word on where the connection stands. */
  predicate LinkWord(event: Event) {
    event.Online? || event.PoolConnected? || event.NodeConnected? || event.Job? || event.SessionError?
  }

  predicate LastLinkWord(events: seq<Event>, n: nat) {
    n < |events| && LinkWord(events[n]) && forall k | n < k < |events| :: !LinkWord(events[k])
  }

  predicate CountedError(event: Event, effective: nat) { event.WorkerError? && event.worker < effective }

  predicate ErrorSince(events: seq<Event>, n: nat, effective: nat) {
    exists k :: n < k < |events| && CountedError(events[k], effective)
  }

  /** The phase that follows from the last word on the connection, the workers failed when it came, and whether
      one failed since; and that only a connection to the node can be restored to `Mining`. */
  ghost predicate Follows(a: Health, word: Event, failedThen: set<nat>, erred: bool) {
    match word
    case NodeConnected => MiningButForWorkers(a)
    case Job => MiningButForWorkers(a)
    case SessionError => !a.canRestore && a.phase == if erred then Error else Reconnecting
    case Online => !a.canRestore && a.phase == if failedThen == {} && !erred then Connecting else Error
    case PoolConnected => !a.canRestore && a.phase == if failedThen == {} && !erred then Authenticating else Error
    case _ => false
  }

  lemma LinkWordFollows(x: Told, workers: nat, word: Event, now: nat)
    requires LinkWord(word) && !Deaf(x, word)
    ensures Follows(AfterEvent(x, workers, word, now).health, word, x.health.failed, false)
  {
    hide FiveStableMinutes, StableSince;
  }

  lemma OtherWordsFollow(x: Told, workers: nat, event: Event, now: nat, word: Event, failedThen: set<nat>, erred: bool)
    requires !LinkWord(event) && !Deaf(x, event) && !event.EngineFatal?
    requires Follows(x.health, word, failedThen, erred)
    ensures Follows(AfterEvent(x, workers, event, now).health, word, failedThen,
                    erred || CountedError(event, Effective(x.recovery, workers)))
  {
    hide FiveStableMinutes, StableSince;
  }

  lemma {:induction false} PhaseFollows(x: Told, workers: nat, events: seq<Event>, now: nat, n: nat)
    requires HeardThroughout(x, events) && LastLinkWord(events, n)
    ensures Follows(AfterEvents(x, workers, events, now).health, events[n], AfterEvents(x, workers, events[..n], now).health.failed,
                    ErrorSince(events, n, Effective(x.recovery, workers)))
  {
    var front, last, effective := events[..|events| - 1], events[|events| - 1], Effective(x.recovery, workers);
    assert events == front + [last];
    StillHeard(x, workers, front, last, now);
    var y := AfterEvents(x, workers, front, now);
    hide AfterEvent, HeardThroughout, Deaf, Follows, LinkWord, CountedError;
    if n == |events| - 1 {
      LinkWordFollows(y, workers, last, now);
      assert !ErrorSince(events, n, effective);
    } else {
      assert forall k | 0 <= k < |front| :: front[k] == events[k];
      PhaseFollows(x, workers, front, now, n);
      assert front[..n] == events[..n];
      assert last != EngineFatal by { HeardNotFatal(x, events, |events| - 1); }
      OtherWordsFollow(y, workers, last, now, events[n], AfterEvents(x, workers, events[..n], now).health.failed,
                       ErrorSince(front, n, effective));
      ErrorSinceStep(events, n, effective);
    }
  }

  lemma HeardNotFatal(x: Told, events: seq<Event>, k: nat)
    requires HeardThroughout(x, events) && k < |events|
    ensures events[k] != EngineFatal
  {
  }

  lemma ErrorSinceStep(events: seq<Event>, n: nat, effective: nat)
    requires n + 1 < |events|
    ensures ErrorSince(events, n, effective) <==>
            ErrorSince(events[..|events| - 1], n, effective) || CountedError(events[|events| - 1], effective)
  {
    var front := events[..|events| - 1];
    hide CountedError;
    assert forall k | 0 <= k < |front| :: front[k] == events[k];
    if k :| n < k < |front| && CountedError(front[k], effective) { assert CountedError(events[k], effective); }
  }

  /** What the screen shows of a heard engine follows from its last word on the connection: after a connection to
      the node or a job, `Mining` exactly without failed workers; earlier in the handshake, or after the session
      ended, the phase it named, unless a worker had failed or failed since. */
  lemma PhaseIsTheLastWord(x: Told, workers: nat, events: seq<Event>, now: nat, n: nat)
    requires HeardThroughout(x, events) && LastLinkWord(events, n)
    ensures var a, failedThen := AfterEvents(x, workers, events, now).health, AfterEvents(x, workers, events[..n], now).health.failed;
            var erred := ErrorSince(events, n, Effective(x.recovery, workers));
            a.phase == match events[n]
                       case SessionError => if erred then Error else Reconnecting
                       case Online => if failedThen == {} && !erred then Connecting else Error
                       case PoolConnected => if failedThen == {} && !erred then Authenticating else Error
                       case _ => if a.failed == {} then Mining else Error
  {
    PhaseFollows(x, workers, events, now, n);
    hide AfterEvents, HeardThroughout, ErrorSince;
  }

  // ---------------------------------------------------------------- what a sample records

  /** The sample of a heard metrics event says what the engine said, up to that event: the time, the hashing, the
      link, the failed workers, how many are ready, and how many there are. */
  lemma SamplesTellWhatWasSaid(x: Told, workers: nat, front: seq<Event>, hashing: bool, clearsWork: bool, now: nat)
    requires HeardThroughout(x, front + [Metrics(hashing, clearsWork)])
    ensures var y, z := AfterEvents(x, workers, front, now), AfterEvents(x, workers, front + [Metrics(hashing, clearsWork)], now);
            && |y.trace| < |z.trace| && z.trace[|y.trace|].Sampled?
            && var s := z.trace[|y.trace|].sample;
               && s.at == now && s.hashing == hashing && s.clearsWork == clearsWork
               && (s.linkLive <==> LastSaidLinked(x.health.nodeLinkLive, front))
               && (forall w: nat :: w in s.failed <==> LastSaidFailed(x.health.failed, Reports(front, Effective(x.recovery, workers)), w))
               && s.ready == y.health.readyWorkers && s.workers == Effective(x.recovery, workers)
  {
    var last := Metrics(hashing, clearsWork);
    StillHeard(x, workers, front, last, now);
    HeardBefore(x, front, last);
    assert (front + [last])[..|front|] == front;
    var y := AfterEvents(x, workers, front, now);
    assert AfterEvents(x, workers, front + [last], now) == AfterEvent(y, workers, last, now);
    EventFrame(y, workers, last, now);
    FirstActSamples(y, workers, last, now);
    LinkIsTheLastWord(x, workers, front, now);
    hide AfterEvents, AfterEvent, HeardThroughout, LastSaidLinked, LastSaidFailed, Reports, EventActs;
    forall w: nat ensures w in y.health.failed <==> LastSaidFailed(x.health.failed, Reports(front, Effective(x.recovery, workers)), w) {
      FailedAreLastReports(x, workers, front, now, w);
    }
  }

  lemma HeardBefore(x: Told, front: seq<Event>, last: Event)
    requires HeardThroughout(x, front + [last])
    ensures HeardThroughout(x, front)
  {
    assert forall e | e in front :: e in front + [last];
  }

  lemma FirstActSamples(y: Told, workers: nat, event: Event, now: nat)
    requires event.Metrics?
    ensures var acts := EventActs(y, workers, event, now);
            && acts != [] && acts[0] == Sampled(Sample(now, event.hashing, y.health.nodeLinkLive, y.health.failed, y.health.readyWorkers,
                                                       Effective(y.recovery, workers), event.clearsWork))
  {
    hide FiveStableMinutes;
  }

  // ---------------------------------------------------------------- what ends stable hashing

  /** An event by which hashing is no longer known to be stable. */
  predicate Interrupts(event: Event, effective: nat) {
    event == JobCleared(true) || event.WorkerInitializing? || CountedError(event, effective) || event.SessionError?
  }

  predicate Breaks(t: Trace, n: nat) { n < |t| && (t[n].Disturbed? || t[n].Silenced?) }

  lemma InterruptionBreaks(x: Told, workers: nat, event: Event, now: nat)
    requires !Deaf(x, event) && Interrupts(event, Effective(x.recovery, workers))
    ensures Breaks(AfterEvent(x, workers, event, now).trace, |x.trace|)
  {
    hide FiveStableMinutes, StableSince;
  }

  lemma BreakStays(x: Told, workers: nat, event: Event, now: nat, n: nat)
    requires Breaks(x.trace, n)
    ensures Breaks(AfterEvent(x, workers, event, now).trace, n)
  {
    EventFrame(x, workers, event, now);
    hide AfterEvent, EventActs;
  }

  lemma EventsGrow(x: Told, workers: nat, events: seq<Event>, now: nat)
    ensures x.trace <= AfterEvents(x, workers, events, now).trace
  {
    var acts := EventsAdd(x, workers, events, now);
    hide AfterEvents, AllCameFrom, SampledEvents, MetricsEvents;
  }

  /** Every interruption a heard engine reports goes on record. */
  lemma {:induction false} InterruptionsAreRecorded(x: Told, workers: nat, events: seq<Event>, now: nat, e: Event) returns (n: nat)
    requires HeardThroughout(x, events) && e in events && Interrupts(e, Effective(x.recovery, workers))
    ensures |x.trace| <= n && Breaks(AfterEvents(x, workers, events, now).trace, n)
  {
    var front, last := events[..|events| - 1], events[|events| - 1];
    assert events == front + [last];
    StillHeard(x, workers, front, last, now);
    var y := AfterEvents(x, workers, front, now);
    assert AfterEvents(x, workers, events, now) == AfterEvent(y, workers, last, now);
    EventsGrow(x, workers, front, now);
    hide AfterEvents, AfterEvent, HeardThroughout, Deaf, Interrupts, Breaks;
    if e == last {
      n := |y.trace|;
      InterruptionBreaks(y, workers, last, now);
    } else {
      n := InterruptionsAreRecorded(x, workers, front, now, e);
      BreakStays(y, workers, last, now, n);
    }
  }

  // ---------------------------------------------------------------- who is not heard

  /** An engine that is being stopped is heard for one thing only, that it failed. */
  lemma {:induction false} StoppingIsHeardOnlyToFail(x: Told, workers: nat, events: seq<Event>, now: nat)
    requires x.recovery.requestedStop && EngineFatal !in events
    ensures AfterEvents(x, workers, events, now) == x
  {
    if events != [] {
      var front := events[..|events| - 1];
      assert events == front + [events[|events| - 1]];
      StoppingIsHeardOnlyToFail(x, workers, front, now);
    }
    hide AfterEvent;
  }

  /** Once the engine has reported a fatal failure, nothing of what it said before or says after is shown: no
      worker, no link, no metrics. */
  lemma {:induction false} NothingIsShownOfAFailedEngine(x: Told, workers: nat, events: seq<Event>, now: nat)
    requires !x.health.fatal && EngineFatal in events
    ensures var a := AfterEvents(x, workers, events, now).health;
            && a.fatal && a.phase == Error && a.ready == {} && a.readyWorkers == 0 && !a.nodeLinkLive && !a.canRestore
            && a.lastMetricsAt == None && a.stableSince == None
  {
    var front, last := events[..|events| - 1], events[|events| - 1];
    assert events == front + [last];
    var y := AfterEvents(x, workers, front, now);
    if EngineFatal in front {
      NothingIsShownOfAFailedEngine(x, workers, front, now);
      EventFrame(y, workers, last, now);
      hide AfterEvent, EventActs;
    } else {
      var _ := EventsAdd(x, workers, front, now);
      hide AfterEvents, EventActs, AllCameFrom, SampledEvents, MetricsEvents, StableSince;
    }
  }
}
