/** What the engine supervisor of src/gui.rs does with one input, as functions on all there is to see of it:
    the operator's start and stop, and a frame with its messages, its look at the process, the end of an
    exit or a loss, the output readers, and a restart that is due. The class is proved to compute them;
    here the invariant is proved of them. Times are in milliseconds. */
module EngineSteps {
  import opened Basics
  import opened EngineTrace
  import opened EngineState

  datatype Config = Config(windows: bool, workers: nat, reportSecs: nat)

  /** Metrics older than this are stale. */
  function StaleAfter(c: Config): nat { Max(3 * c.reportSecs, 8) * 1_000 }

  datatype Input =
    | OperatorStart(launch: Launch, now: nat)
    | OperatorStop(look: Wait, reaped: bool, killed: bool, now: nat)
    | NextFrame(frame: Frame)

  /** All there is to see of a supervisor, and what it did so far. */
  datatype View = View(engine: Engine, recovery: Recovery, health: Health, trace: Trace)

  predicate InUse(v: View) { v.engine.Live() || v.recovery.restartAt.Some? }

  function Showing(v: View, phase: Phase): View { v.(health := v.health.(phase := phase)) }

  // ---------------------------------------------------------------- starting

  const FRESH_HEALTH: Health := Health(Starting, false, {}, 0, {}, false, false, None, None)

  /** Spends one unit of the budget on a delayed restart, or gives up when it is spent. */
  function Scheduled(c: Config, v: View, now: nat): View {
    var r := v.recovery;
    if r.requestedStop || !r.enabled then v
    else
      var s := r.(singleWorker := c.windows || r.singleWorker);
      if r.attempts >= MAX_AUTOMATIC_ENGINE_RESTARTS
      then Showing(v.(recovery := s.(enabled := false, restartAt := None)), Error)
      else Showing(v.(recovery := s.(attempts := r.attempts + 1, restartAt := Some(now + Delay(r.attempts + 1)))), Reconnecting)
  }

  /** A failed start is final for the operator's, and one more reason to retry for an automatic one. */
  function StartFailed(c: Config, v: View, automatic: bool, now: nat): View {
    if automatic then Scheduled(c, Showing(v, Error), now) else Showing(v, Error)
  }

  /** A start that passed its checks. */
  function Reset(v: View): View {
    View(v.engine.(disconnectedAt := None, pendingLoss := None), v.recovery.(requestedStop := false), FRESH_HEALTH, v.trace + [Prepared])
  }

  /** A process the start could not use: proven gone, or held in quarantine. */
  function GivenUp(v: View, pid: Pid, reaped: bool): View {
    v.(engine := if reaped then v.engine else v.engine.(quarantined := Some(pid)),
       trace := v.trace + (if reaped then [Spawned(pid), Reaped(pid)] else [Spawned(pid)]))
  }

  function Kept(v: View, pid: Pid): View {
    v.(engine := v.engine.(child := Some(pid), receiver := true), trace := v.trace + [Spawned(pid)])
  }

  /** A start that is not held back by anything outstanding. */
  function Attempted(c: Config, v: View, automatic: bool, launch: Launch, now: nat): View {
    match launch
    case Refused => StartFailed(c, v, automatic, now)
    case NoProcess => StartFailed(c, Reset(v), automatic, now)
    case Abandoned(pid, reaped) => StartFailed(c, GivenUp(Reset(v), pid, reaped), automatic, now)
    case Launched(pid) => Kept(Reset(v), pid)
  }

  /** The operator's start fills the budget. */
  function Begin(v: View): View {
    v.(recovery := v.recovery.(attempts := 0, singleWorker := false, light := false, enabled := true), trace := v.trace + [Begun])
  }

  function AfterStart(c: Config, v: View, launch: Launch, now: nat): View {
    if InUse(v) then v else Attempted(c, Begin(v), false, launch, now)
  }

  // ---------------------------------------------------------------- losing and stopping the engine

  function DeclaredDead(v: View): View { v.(health := Dead(v.health), trace := v.trace + [Failed]) }

  /** The engine can no longer be observed: it is reaped or quarantined, and its output is drained. */
  function Lost(v: View, reaped: bool, now: nat): View {
    if v.engine.pendingLoss.Some? then v
    else
      var child := v.engine.child;
      View(v.engine.(child := None, quarantined := if child.Some? && !reaped then child else v.engine.quarantined,
                     pendingLoss := Some(now + OBSERVATION_FAILURE_DRAIN_GRACE)),
           v.recovery.(requestedStop := false), Dead(v.health),
           v.trace + (if child.Some? && reaped then [Failed, Reaped(child.value)] else [Failed]))
  }

  /** The process in hand was seen to have exited. */
  function Gone(v: View, exit: Exit): View {
    v.(engine := v.engine.(child := None, pendingExit := Some(exit)),
       trace := v.trace + (if v.engine.child.Some? then [Reaped(v.engine.child.value)] else []))
  }

  function Canceled(v: View): View {
    var canceled := v.recovery.restartAt.Some?;
    View(v.engine,
         v.recovery.(enabled := false, restartAt := None, attempts := if canceled then 0 else v.recovery.attempts),
         if canceled then v.health.(nodeLinkLive := false) else v.health,
         v.trace + [Ended])
  }

  /** A quarantined process is proven gone. */
  function QuarantineEnded(v: View, gone: bool): View {
    if gone && v.engine.quarantined.Some?
    then v.(engine := v.engine.(quarantined := None), trace := v.trace + [Reaped(v.engine.quarantined.value)])
    else v
  }

  function StoppedWithout(v: View, reaped: bool): View {
    var w := QuarantineEnded(v, reaped);
    if w.engine.Draining() then Showing(w, Stopping) else if w.engine.quarantined == None then Showing(w, Idle) else w
  }

  function StoppedWith(v: View, look: Wait, reaped: bool, killed: bool, now: nat): View {
    match look
    case Unobservable => Lost(v, reaped, now)
    case Exited(exit) => Gone(v, exit)
    case Running =>
      var w := v.(health := v.health.(canRestore := false, nodeLinkLive := false, phase := Stopping));
      if killed then w.(recovery := w.recovery.(requestedStop := true)) else DeclaredDead(w)
  }

  /** The operator's stop. */
  function AfterStop(v: View, look: Wait, reaped: bool, killed: bool, now: nat): View {
    var w := Canceled(v);
    if w.engine.child == None then StoppedWithout(w, reaped) else StoppedWith(w, look, reaped, killed, now)
  }

  // ---------------------------------------------------------------- one frame

  /** What the messages of a frame leave, if there is still output to read. */
  ghost function Drained(c: Config, v: View, messages: seq<Event>, now: nat): View {
    var x := Told(v.health, v.recovery, v.trace);
    var y := if v.engine.receiver then AfterEvents(x, c.workers, messages, now) else x;
    View(v.engine, y.recovery, y.health, y.trace)
  }

  /** A look at the process in hand. */
  function Observed(v: View, look: Wait, reaped: bool, now: nat): View {
    if v.engine.Draining() || v.engine.child == None then v
    else
      match look
      case Running => v
      case Exited(exit) => var w := Gone(v, exit); w.(health := w.health.(nodeLinkLive := false))
      case Unobservable => Lost(v, reaped, now)
  }

  /** The output of an engine that is gone is over: no worker, no link, no metrics. */
  function Closed(v: View): View {
    v.(engine := v.engine.(receiver := false, disconnectedAt := None),
       health := v.health.(ready := {}, readyWorkers := 0, nodeLinkLive := false, lastMetricsAt := None, stableSince := None, phase := Error),
       trace := v.trace + [Silenced])
  }

  predicate LossOver(e: Engine, disconnected: bool, now: nat) {
    e.pendingLoss.Some? && (disconnected || now >= e.pendingLoss.value)
  }

  /** A loss at the end of its grace, or of its output; recovery goes on from here. */
  function LossFinished(c: Config, v: View, now: nat): View {
    Scheduled(c, Closed(v.(engine := v.engine.(pendingLoss := None))), now)
  }

  /** The recovery tier an exit calls for. */
  function Escalated(c: Config, r: Recovery, escalation: Escalation): Recovery {
    if !c.windows then r
    else
      match escalation
      case Keep => r.(singleWorker := true)
      case Light => r.(singleWorker := true, light := true)
      case Terminal => r.(enabled := false)
  }

  /** An exit at the end of its output: a requested one is the end of it, any other a reason to recover. */
  function ExitFinished(c: Config, v: View, exit: Exit, now: nat): View {
    var w := Closed(v.(engine := v.engine.(pendingExit := None), health := v.health.(canRestore := false)));
    if w.recovery.requestedStop && !w.health.fatal && exit.asRequested then Showing(w, Idle)
    else Scheduled(c, w.(recovery := Escalated(c, w.recovery, exit.escalation)), now)
  }

  function Finished(c: Config, v: View, disconnected: bool, gone: bool, now: nat): View {
    var l := if LossOver(v.engine, disconnected, now) then LossFinished(c, v, now) else v;
    var q := QuarantineEnded(l, gone);
    if disconnected && q.engine.pendingExit.Some? then ExitFinished(c, q, q.engine.pendingExit.value, now) else q
  }

  /** An output reader that ends while the engine runs on is fatal, after a grace period. */
  function ReadersChecked(v: View, hadReceiver: bool, ended: bool, now: nat): View {
    if v.engine.pendingExit == None && v.engine.child.Some? && ended then
      var since := if v.engine.disconnectedAt == None then now else v.engine.disconnectedAt.value;
      var w := v.(engine := v.engine.(disconnectedAt := Some(since)));
      if Monus(now, since) >= OUTPUT_DISCONNECT_GRACE && !w.recovery.requestedStop && !w.health.fatal then DeclaredDead(w) else w
    else if hadReceiver && !ended then v.(engine := v.engine.(disconnectedAt := None))
    else v
  }

  predicate RestartDue(v: View, now: nat) {
    v.recovery.restartAt.Some? && now >= v.recovery.restartAt.value && !v.engine.Live()
  }

  function Restarting(v: View): View {
    v.(recovery := v.recovery.(restartAt := None), trace := v.trace + [Retried])
  }

  /** A restart happens when it is due and nothing is outstanding. */
  function Restarted(c: Config, v: View, launch: Launch, now: nat): View {
    if RestartDue(v, now) then Attempted(c, Restarting(v), true, launch, now) else v
  }

  /** One poll. */
  ghost function Polled(c: Config, v: View, frame: Frame): View {
    var disconnected, now := !v.engine.receiver || frame.disconnected, frame.now;
    var d := Drained(c, v, frame.messages, now);
    var o := Observed(d, frame.child, frame.reaped, now);
    var f := Finished(c, o, disconnected, frame.quarantineGone, now);
    var k := ReadersChecked(f, v.engine.receiver, disconnected || frame.readerFinished, now);
    Restarted(c, k, frame.launch, now)
  }

  /** Stale metrics end the stretch of stable hashing. */
  function Rested(v: View, now: nat, limit: nat): View {
    var last := v.health.lastMetricsAt;
    var live := last.Some? && Monus(now, last.value) < limit;
    v.(health := if live then v.health else v.health.(stableSince := None), trace := v.trace + [FrameEnded(now, limit)])
  }

  /** One frame: the poll, and the freshness check. */
  ghost function AfterFrame(c: Config, v: View, frame: Frame): View {
    Rested(Polled(c, v, frame), frame.now, StaleAfter(c))
  }

  ghost function After(c: Config, v: View, input: Input): View {
    match input
    case OperatorStart(launch, now) => AfterStart(c, v, launch, now)
    case OperatorStop(look, reaped, killed, now) => AfterStop(v, look, reaped, killed, now)
    case NextFrame(frame) => AfterFrame(c, v, frame)
  }

  // ---------------------------------------------------------------- the invariant

  /** What the invariant needs to know of the trace. */
  datatype History = History(
    unreaped: set<Pid>,
    used: nat,
    stopped: bool,
    dead: bool,
    lastSample: Option<nat>,
    stableSince: Option<nat>)

  ghost function Recall(t: Trace): History {
    History(Unreaped(t), Used(t), Stopped(t), Fatal(t), LastSample(t), StableSince(t))
  }

  ghost function Then(h: History, act: Act): History {
    History(UnreapedAfter(h.unreaped, act), UsedAfter(h.used, act),
            !act.Begun? && (act.Ended? || h.stopped), !act.Prepared? && (act.Failed? || h.dead),
            LastSampleAfter(h.lastSample, act), StableSinceAfter(h.stableSince, h.lastSample, act))
  }

  /** `Allowed`, in terms of the history recalled. */
  ghost predicate Permitted(h: History, t: Trace, act: Act) {
    match act
    case Retried => !h.stopped && h.used < MAX_AUTOMATIC_ENGINE_RESTARTS && h.unreaped == {}
    case Spawned(_) => !h.stopped && h.unreaped == {} && PreparedNow(t)
    case Reaped(pid) => pid in h.unreaped
    case Prepared => StartsNow(t)
    case Renewed => StableNow(t, h.stableSince)
    case _ => true
  }

  lemma Acted(t: Trace, act: Act)
    requires Safe(t) && Permitted(Recall(t), t, act)
    ensures Safe(t + [act]) && Recall(t + [act]) == Then(Recall(t), act)
    ensures (t + [act]) != [] && (t + [act])[|t|] == act
  {
    SafeExtended(t, act);
    BudgetExtended(t, act);
    StabilityExtended(t, act);
  }

  /** A process is in one place only, and output is read for as long as a process, its exit or its loss is
      outstanding. */
  predicate Shaped(e: Engine) {
    && !(e.child.Some? && e.quarantined.Some?)
    && !(e.child.Some? && e.Draining())
    && !(e.pendingExit.Some? && e.pendingLoss.Some?)
    && (e.receiver <==> e.child.Some? || e.Draining())
    && (!e.receiver ==> e.disconnectedAt == None)
  }

  /** Every engine not proven gone is in hand. */
  ghost predicate EnginesOk(e: Engine, h: History) { Shaped(e) && h.unreaped == e.Held() }

  /** Every automatic start is paid for out of the budget of five, and is announced only while the
      operator wants recovery and nothing is being read. */
  ghost predicate RecoveryOk(r: Recovery, e: Engine, h: History) {
    && r.attempts <= MAX_AUTOMATIC_ENGINE_RESTARTS
    && (r.enabled ==> !h.stopped && h.used + (if r.restartAt.Some? then 1 else 0) <= r.attempts)
    && (r.restartAt.Some? ==> r.enabled && !r.requestedStop && !e.receiver)
  }

  /** `Mining` is shown only of a healthy engine, and nothing at all of one whose output is not read. */
  ghost predicate HealthOk(a: Health, e: Engine, h: History) {
    && WorkersOk(a)
    && (a.fatal <==> h.dead)
    && a.lastMetricsAt == h.lastSample && a.stableSince == h.stableSince
    && (!e.receiver ==> a.ready == {} && !a.canRestore && !a.nodeLinkLive && a.lastMetricsAt == None && !a.phase.Mining?)
    && (e.pendingLoss.Some? ==> a.fatal)
  }

  ghost predicate WorkersOk(a: Health) {
    && (a.phase.Mining? ==> a.failed == {} && !a.fatal)
    && (forall w | w in a.ready :: w !in a.failed) && a.readyWorkers == |a.ready|
    && (a.canRestore ==> a.failed != {} && !a.fatal)
  }

  ghost predicate PartsOk(v: View, h: History) {
    EnginesOk(v.engine, h) && RecoveryOk(v.recovery, v.engine, h) && HealthOk(v.health, v.engine, h)
  }

  ghost predicate Good(v: View) { Safe(v.trace) && PartsOk(v, Recall(v.trace)) }

  /** One act: from a sound view to another with that act on record. */
  lemma ActOk(v: View, act: Act, w: View)
    requires Safe(v.trace) && Permitted(Recall(v.trace), v.trace, act)
    requires w.trace == v.trace + [act] && PartsOk(w, Then(Recall(v.trace), act))
    ensures Good(w)
  {
    hide PartsOk, Permitted, Recall, Then, Safe;
    Acted(v.trace, act);
  }

  lemma SameTraceOk(v: View, w: View)
    requires Good(v) && w.trace == v.trace && PartsOk(w, Recall(v.trace))
    ensures Good(w)
  {
  }

  // Each function keeps the invariant.

  lemma ShowingOk(v: View, phase: Phase)
    requires Good(v) && !phase.Mining?
    ensures Good(Showing(v, phase))
  {
    hide Safe, Recall;
  }

  lemma ScheduledOk(c: Config, v: View, now: nat)
    requires Good(v) && v.recovery.restartAt == None && !v.engine.receiver
    ensures Good(Scheduled(c, v, now))
  {
    hide Safe, Recall;
  }

  lemma StartFailedOk(c: Config, v: View, automatic: bool, now: nat)
    requires Good(v) && v.recovery.restartAt == None && !v.engine.receiver
    ensures Good(StartFailed(c, v, automatic, now))
  {
    hide Good, Scheduled;
    ShowingOk(v, Error);
    if automatic { ScheduledOk(c, Showing(v, Error), now); }
  }

  lemma ResetOk(v: View)
    requires Good(v) && !v.engine.Live() && StartsNow(v.trace)
    ensures Good(Reset(v)) && PreparedNow(Reset(v).trace)
  {
    hide Safe, Recall, StartsNow;
    ActOk(v, Prepared, Reset(v));
  }

  /** A start is in order: nothing is outstanding, and the operator wants recovery. */
  ghost predicate Clear(v: View) {
    Good(v) && !v.engine.Live() && v.recovery.enabled && v.recovery.restartAt == None
  }

  lemma GivenUpOk(v: View, pid: Pid, reaped: bool)
    requires Clear(v) && PreparedNow(v.trace)
    ensures Good(GivenUp(v, pid, reaped))
  {
    var w := v.(engine := v.engine.(quarantined := Some(pid)), trace := v.trace + [Spawned(pid)]);
    hide Safe, Recall, PreparedNow;
    ActOk(v, Spawned(pid), w);
    if reaped {
      var z := v.(trace := w.trace + [Reaped(pid)]);
      assert w.trace + [Reaped(pid)] == v.trace + [Spawned(pid), Reaped(pid)];
      assert Recall(w.trace).unreaped == {pid};
      ActOk(w, Reaped(pid), z);
    }
  }

  lemma KeptOk(v: View, pid: Pid)
    requires Clear(v) && PreparedNow(v.trace)
    ensures Good(Kept(v, pid))
  {
    hide Safe, Recall, PreparedNow;
    ActOk(v, Spawned(pid), Kept(v, pid));
  }

  lemma ClearFacts(v: View)
    requires Clear(v)
    ensures !v.engine.receiver && v.engine.child == None && v.engine.quarantined == None && !v.engine.Draining()
  {
    hide Safe, Recall;
  }

  lemma AttemptedOk(c: Config, v: View, automatic: bool, launch: Launch, now: nat)
    requires Clear(v) && StartsNow(v.trace)
    ensures Good(Attempted(c, v, automatic, launch, now))
  {
    ClearFacts(v);
    ResetOk(v);
    assert Clear(Reset(v));
    hide Good, StartFailed, StartsNow, PreparedNow;
    match launch {
      case Refused => StartFailedOk(c, v, automatic, now);
      case NoProcess => StartFailedOk(c, Reset(v), automatic, now);
      case Abandoned(pid, reaped) =>
        GivenUpOk(Reset(v), pid, reaped);
        StartFailedOk(c, GivenUp(Reset(v), pid, reaped), automatic, now);
      case Launched(pid) => KeptOk(Reset(v), pid);
    }
  }

  lemma BeginOk(v: View)
    requires Good(v) && !InUse(v)
    ensures Clear(Begin(v)) && StartsNow(Begin(v).trace)
  {
    hide Safe, Recall;
    ActOk(v, Begun, Begin(v));
  }

  lemma AfterStartOk(c: Config, v: View, launch: Launch, now: nat)
    requires Good(v)
    ensures Good(AfterStart(c, v, launch, now))
  {
    hide Good, Clear, StartsNow, Attempted;
    if !InUse(v) {
      BeginOk(v);
      AttemptedOk(c, Begin(v), false, launch, now);
    }
  }

  lemma DeclaredDeadOk(v: View)
    requires Good(v)
    ensures Good(DeclaredDead(v))
  {
    hide Safe, Recall;
    ActOk(v, Failed, DeclaredDead(v));
  }

  lemma LostOk(v: View, reaped: bool, now: nat)
    requires Good(v) && v.engine.child.Some?
    ensures Good(Lost(v, reaped, now))
  {
    var pid := v.engine.child.value;
    DeclaredDeadOk(v);
    var d := DeclaredDead(v);
    var w := Lost(v, reaped, now);
    hide Safe, Recall;
    if reaped {
      assert w.trace == d.trace + [Reaped(pid)];
      ActOk(d, Reaped(pid), w);
    } else {
      SameTraceOk(d, w);
    }
  }

  lemma GoneOk(v: View, exit: Exit)
    requires Good(v) && v.engine.child.Some?
    ensures Good(Gone(v, exit))
  {
    hide Safe, Recall;
    ActOk(v, Reaped(v.engine.child.value), Gone(v, exit));
  }

  lemma CanceledOk(v: View)
    requires Good(v)
    ensures Good(Canceled(v))
  {
    hide Safe, Recall;
    ActOk(v, Ended, Canceled(v));
  }

  lemma QuarantineEndedOk(v: View, gone: bool)
    requires Good(v)
    ensures Good(QuarantineEnded(v, gone))
  {
    hide Safe, Recall;
    if gone && v.engine.quarantined.Some? {
      ActOk(v, Reaped(v.engine.quarantined.value), QuarantineEnded(v, gone));
    }
  }

  lemma StoppingOk(v: View)
    requires Good(v)
    ensures Good(v.(health := v.health.(canRestore := false, nodeLinkLive := false, phase := Stopping)))
  {
    hide Safe, Recall;
  }

  lemma RequestedOk(v: View)
    requires Good(v) && v.recovery.restartAt == None
    ensures Good(v.(recovery := v.recovery.(requestedStop := true)))
  {
    hide Safe, Recall;
  }

  lemma AfterStopOk(v: View, look: Wait, reaped: bool, killed: bool, now: nat)
    requires Good(v)
    ensures Good(AfterStop(v, look, reaped, killed, now))
  {
    hide Good;
    CanceledOk(v);
    var w := Canceled(v);
    if w.engine.child == None {
      QuarantineEndedOk(w, reaped);
      ShowingOk(QuarantineEnded(w, reaped), Stopping);
      ShowingOk(QuarantineEnded(w, reaped), Idle);
    } else {
      match look {
        case Unobservable => LostOk(w, reaped, now);
        case Exited(exit) => GoneOk(w, exit);
        case Running =>
          StoppingOk(w);
          var z := w.(health := w.health.(canRestore := false, nodeLinkLive := false, phase := Stopping));
          RequestedOk(z);
          DeclaredDeadOk(z);
      }
    }
  }

  // ---------------------------------------------------------------- telemetry keeps the invariant

  ghost function Telling(v: View, y: Told): View { View(v.engine, y.recovery, y.health, y.trace) }

  ghost function Hearing(v: View): Told { Told(v.health, v.recovery, v.trace) }

  lemma FailureIs(x: Told, workers: nat, now: nat)
    requires !Deaf(x, EngineFatal)
    ensures AfterEvent(x, workers, EngineFatal, now)
            == Told(Dead(x.health).(lastMetricsAt := None, stableSince := None, ready := {}, readyWorkers := 0), x.recovery,
                    x.trace + [Failed] + [Silenced])
  {
    hide FiveStableMinutes, StableSince;
    assert x.trace + [Failed] + [Silenced] == x.trace + [Failed, Silenced];
  }

  lemma FailureOk(v: View, workers: nat, now: nat)
    requires Good(v) && v.engine.receiver && !Deaf(Hearing(v), EngineFatal)
    ensures Good(Telling(v, AfterEvent(Hearing(v), workers, EngineFatal, now)))
  {
    DeclaredDeadOk(v);
    FailureIs(Hearing(v), workers, now);
    hide Safe, Recall, AfterEvent;
    ActOk(DeclaredDead(v), Silenced, Telling(v, AfterEvent(Hearing(v), workers, EngineFatal, now)));
  }

  /** After a sample, whether the budget may be renewed is read off the history. */
  lemma RenewableExactly(t: Trace, sample: Sample)
    requires Safe(t)
    ensures var u := t + [Sampled(sample)];
            && Safe(u) && Recall(u) == Then(Recall(t), Sampled(sample))
            && (Permitted(Recall(u), u, Renewed) <==> FiveStableMinutes(u))
            && (FiveStableMinutes(u) <==>
                  Recall(u).stableSince.Some? && sample.at >= Recall(u).stableSince.value + ENGINE_STABILITY_RESET)
  {
    Acted(t, Sampled(sample));
    StableNowExactly(t + [Sampled(sample)]);
    hide FiveStableMinutes, Safe, StableSince;
  }

  /** A sample, told by the clocks on record: it renews the budget exactly when some of it is used, and hashing
      has been stable for five minutes. */
  lemma SampleExactly(v: View, workers: nat, hashing: bool, clearsWork: bool, now: nat)
    requires Good(v) && !Deaf(Hearing(v), Metrics(hashing, clearsWork))
    ensures var act := Sampled(SampleOf(Hearing(v), workers, hashing, clearsWork, now));
            var since := StableSinceAfter(v.health.stableSince, v.health.lastMetricsAt, act);
            var health := v.health.(lastMetricsAt := Some(now), stableSince := since);
            && since == StableSince(v.trace + [act])
            && AfterEvent(Hearing(v), workers, Metrics(hashing, clearsWork), now)
               == if v.recovery.attempts > 0 && since.Some? && Monus(now, since.value) >= ENGINE_STABILITY_RESET
                  then Told(health, v.recovery.(attempts := 0), v.trace + [act] + [Renewed])
                  else Told(health, v.recovery, v.trace + [act])
  {
    var sample := SampleOf(Hearing(v), workers, hashing, clearsWork, now);
    var u := v.trace + [Sampled(sample)];
    var m := v.(health := v.health.(lastMetricsAt := Some(now), stableSince := StableSince(u)), trace := u);
    RenewableExactly(v.trace, sample);
    SampleInTwoSteps(Hearing(v), workers, hashing, clearsWork, now, Hearing(m));
    hide FiveStableMinutes, StableSince, LastSample, Safe, AfterEvent, Unreaped, Used, Stopped, Fatal, Permitted, SampleOf;
  }

  lemma SampleOk(v: View, workers: nat, hashing: bool, clearsWork: bool, now: nat)
    requires Good(v) && v.engine.receiver && !Deaf(Hearing(v), Metrics(hashing, clearsWork))
    ensures Good(Telling(v, AfterEvent(Hearing(v), workers, Metrics(hashing, clearsWork), now)))
  {
    var sample := SampleOf(Hearing(v), workers, hashing, clearsWork, now);
    var u := v.trace + [Sampled(sample)];
    var m := v.(health := v.health.(lastMetricsAt := Some(now), stableSince := StableSince(u)), trace := u);
    RenewableExactly(v.trace, sample);
    SampleInTwoSteps(Hearing(v), workers, hashing, clearsWork, now, Hearing(m));
    assert Recall(u).stableSince == StableSince(u);
    hide FiveStableMinutes, Safe, Recall, StableSince, AfterEvent, SampleOf;
    ActOk(v, Sampled(sample), m);
    if v.recovery.attempts > 0 && FiveStableMinutes(u) {
      ActOk(m, Renewed, m.(recovery := m.recovery.(attempts := 0), trace := m.trace + [Renewed]));
    }
  }

  lemma NewsOk(v: View, workers: nat, event: Event, now: nat)
    requires Good(v) && v.engine.receiver && !Deaf(Hearing(v), event) && !event.EngineFatal? && !event.Metrics?
    ensures Good(Telling(v, AfterEvent(Hearing(v), workers, event, now)))
  {
    var effective := Effective(v.recovery, workers);
    var acts := ActsOf(event, effective);
    var w := Telling(v, AfterEvent(Hearing(v), workers, event, now));
    hide FiveStableMinutes, StableSince, Safe, Recall;
    assert w.trace == v.trace + acts;
    if acts == [] {
      assert w.trace == v.trace;
      QuietNewsOk(v, w, effective, event);
    } else {
      LoudNewsOk(v, w, effective, event);
    }
  }

  lemma QuietNewsOk(v: View, w: View, effective: nat, event: Event)
    requires Good(v) && !v.health.fatal && v.engine.receiver && !event.EngineFatal? && !event.Metrics?
    requires ActsOf(event, effective) == [] && w == v.(health := AfterNews(v.health, effective, event))
    ensures Good(w)
  {
    hide Safe, Recall, WorkersOk;
    NewsKeepsWorkers(v.health, effective, event);
  }

  lemma LoudNewsOk(v: View, w: View, effective: nat, event: Event)
    requires Good(v) && !v.health.fatal && v.engine.receiver && !event.EngineFatal? && !event.Metrics?
    requires ActsOf(event, effective) != []
    requires w == v.(health := AfterNews(v.health, effective, event), trace := v.trace + ActsOf(event, effective))
    ensures Good(w)
  {
    hide Safe, Recall, WorkersOk;
    NewsKeepsWorkers(v.health, effective, event);
    ActOk(v, if event.SessionError? then Silenced else Disturbed, w);
  }

  lemma FailingKeepsWorkers(a: Health, worker: nat)
    requires WorkersOk(a) && !a.fatal
    ensures WorkersOk(Failing(a, worker)) && !Failing(a, worker).fatal
  {
  }

  lemma ReadiedKeepsWorkers(a: Health, worker: nat)
    requires WorkersOk(a) && !a.fatal
    ensures WorkersOk(Readied(a, worker)) && !Readied(a, worker).fatal
  {
  }

  lemma OtherNewsKeepsWorkers(a: Health, b: Health)
    requires WorkersOk(a) && !a.fatal && b.failed == a.failed && b.ready <= a.ready && b.readyWorkers == |b.ready| && !b.fatal
    requires (b.phase.Mining? ==> b.failed == {}) && (b.canRestore ==> b.failed != {})
    ensures WorkersOk(b)
  {
  }

  lemma WorkersFacts(a: Health)
    requires WorkersOk(a)
    ensures a.readyWorkers == |a.ready| && (a.phase.Mining? ==> a.failed == {}) && (a.canRestore ==> a.failed != {})
  {
  }

  lemma NewsKeepsWorkers(a: Health, effective: nat, event: Event)
    requires WorkersOk(a) && !a.fatal
    ensures WorkersOk(AfterNews(a, effective, event)) && !AfterNews(a, effective, event).fatal
  {
    hide WorkersOk, Failing, Readied;
    WorkersFacts(a);
    match event {
      case WorkerError(w) => FailingKeepsWorkers(a, w);
      case WorkerReady(w) => ReadiedKeepsWorkers(a, w);
      case _ => OtherNewsKeepsWorkers(a, AfterNews(a, effective, event));
    }
  }

  lemma EventOk(v: View, workers: nat, event: Event, now: nat)
    requires Good(v) && v.engine.receiver
    ensures Good(Telling(v, AfterEvent(Hearing(v), workers, event, now)))
  {
    if Deaf(Hearing(v), event) {
      assert Telling(v, AfterEvent(Hearing(v), workers, event, now)) == v;
    } else {
      hide Good, Telling, AfterEvent, Hearing, Deaf;
      match event {
        case EngineFatal => FailureOk(v, workers, now);
        case Metrics(hashing, clearsWork) => SampleOk(v, workers, hashing, clearsWork, now);
        case _ => NewsOk(v, workers, event, now);
      }
    }
  }

  lemma {:induction false} DrainedOk(c: Config, v: View, messages: seq<Event>, now: nat)
    requires Good(v)
    ensures Good(Drained(c, v, messages, now)) && Drained(c, v, messages, now).engine == v.engine
  {
    hide Good, AfterEvent;
    if v.engine.receiver && messages != [] {
      var front := messages[..|messages| - 1];
      DrainedOk(c, v, front, now);
      var d := Drained(c, v, front, now);
      EventOk(d, c.workers, messages[|messages| - 1], now);
      assert Drained(c, v, messages, now) == Telling(d, AfterEvent(Hearing(d), c.workers, messages[|messages| - 1], now));
    } else {
      assert Drained(c, v, messages, now) == v;
    }
  }

  // ---------------------------------------------------------------- frames keep the invariant

  lemma LinkDownOk(v: View)
    requires Good(v)
    ensures Good(v.(health := v.health.(nodeLinkLive := false)))
  {
    hide Safe, Recall;
  }

  lemma ObservedOk(v: View, look: Wait, reaped: bool, now: nat)
    requires Good(v)
    ensures Good(Observed(v, look, reaped, now))
  {
    hide Good;
    if !v.engine.Draining() && v.engine.child.Some? {
      match look {
        case Running =>
        case Exited(exit) =>
          GoneOk(v, exit);
          LinkDownOk(Gone(v, exit));
        case Unobservable => LostOk(v, reaped, now);
      }
    }
  }

  /** What is needed of an engine whose output is over. */
  lemma ClosedOk(v: View, w: View)
    requires Good(v) && v.engine.Draining()
    requires w == Closed(v.(engine := v.engine.(pendingLoss := None, pendingExit := None), health := v.health.(canRestore := false)))
    ensures Good(w) && w.recovery.restartAt == None
  {
    hide Safe, Recall;
    ActOk(v, Silenced, w);
  }

  lemma DrainingFacts(v: View)
    requires Good(v)
    ensures Shaped(v.engine)
    ensures v.engine.pendingLoss.Some? ==> !v.health.canRestore && v.health.fatal && v.engine.pendingExit == None
    ensures v.engine.Draining() ==> v.recovery.restartAt == None
  {
    hide Safe, Recall;
  }

  lemma LossFinishedOk(c: Config, v: View, now: nat)
    requires Good(v) && v.engine.pendingLoss.Some?
    ensures Good(LossFinished(c, v, now))
  {
    DrainingFacts(v);
    var w := Closed(v.(engine := v.engine.(pendingLoss := None)));
    assert v.engine.(pendingLoss := None) == v.engine.(pendingLoss := None, pendingExit := None);
    assert v.health.(canRestore := false) == v.health;
    hide Good, Scheduled;
    ClosedOk(v, w);
    ScheduledOk(c, w, now);
  }

  lemma EscalatedOk(c: Config, v: View, escalation: Escalation)
    requires Good(v) && v.recovery.restartAt == None
    ensures Good(v.(recovery := Escalated(c, v.recovery, escalation)))
    ensures Escalated(c, v.recovery, escalation).restartAt == None
  {
    hide Safe, Recall;
  }

  lemma ExitFinishedOk(c: Config, v: View, exit: Exit, now: nat)
    requires Good(v) && v.engine.pendingExit.Some?
    ensures Good(ExitFinished(c, v, exit, now))
  {
    DrainingFacts(v);
    var w := Closed(v.(engine := v.engine.(pendingExit := None), health := v.health.(canRestore := false)));
    assert v.engine.(pendingExit := None) == v.engine.(pendingLoss := None, pendingExit := None);
    hide Good, Scheduled, Escalated;
    ClosedOk(v, w);
    ShowingOk(w, Idle);
    EscalatedOk(c, w, exit.escalation);
    ScheduledOk(c, w.(recovery := Escalated(c, w.recovery, exit.escalation)), now);
  }

  lemma FinishedOk(c: Config, v: View, disconnected: bool, gone: bool, now: nat)
    requires Good(v)
    ensures Good(Finished(c, v, disconnected, gone, now))
  {
    hide Good, LossFinished, ExitFinished, QuarantineEnded;
    if LossOver(v.engine, disconnected, now) { LossFinishedOk(c, v, now); }
    var l := if LossOver(v.engine, disconnected, now) then LossFinished(c, v, now) else v;
    QuarantineEndedOk(l, gone);
    var q := QuarantineEnded(l, gone);
    if disconnected && q.engine.pendingExit.Some? { ExitFinishedOk(c, q, q.engine.pendingExit.value, now); }
  }

  lemma NotedOk(v: View, since: Option<nat>)
    requires Good(v) && (v.engine.receiver || since == None)
    ensures Good(v.(engine := v.engine.(disconnectedAt := since)))
  {
    hide Safe, Recall;
  }

  lemma ReadersCheckedOk(v: View, hadReceiver: bool, ended: bool, now: nat)
    requires Good(v)
    ensures Good(ReadersChecked(v, hadReceiver, ended, now))
  {
    DrainingFacts(v);
    hide Good;
    var since := if v.engine.disconnectedAt == None then now else v.engine.disconnectedAt.value;
    NotedOk(v, None);
    if v.engine.child.Some? {
      NotedOk(v, Some(since));
      DeclaredDeadOk(v.(engine := v.engine.(disconnectedAt := Some(since))));
    }
  }

  lemma RestartingOk(v: View, now: nat)
    requires Good(v) && RestartDue(v, now)
    ensures Clear(Restarting(v)) && StartsNow(Restarting(v).trace)
  {
    hide Safe, Recall;
    ActOk(v, Retried, Restarting(v));
  }

  lemma RestartedOk(c: Config, v: View, launch: Launch, now: nat)
    requires Good(v)
    ensures Good(Restarted(c, v, launch, now))
  {
    hide Good, Clear, StartsNow, Attempted, Restarting;
    if RestartDue(v, now) {
      RestartingOk(v, now);
      AttemptedOk(c, Restarting(v), true, launch, now);
    }
  }

  lemma PolledOk(c: Config, v: View, frame: Frame)
    requires Good(v)
    ensures Good(Polled(c, v, frame))
  {
    hide Good, Drained, Observed, Finished, ReadersChecked, Restarted;
    var disconnected, now := !v.engine.receiver || frame.disconnected, frame.now;
    DrainedOk(c, v, frame.messages, now);
    var d := Drained(c, v, frame.messages, now);
    ObservedOk(d, frame.child, frame.reaped, now);
    var o := Observed(d, frame.child, frame.reaped, now);
    FinishedOk(c, o, disconnected, frame.quarantineGone, now);
    var f := Finished(c, o, disconnected, frame.quarantineGone, now);
    ReadersCheckedOk(f, v.engine.receiver, disconnected || frame.readerFinished, now);
    RestartedOk(c, ReadersChecked(f, v.engine.receiver, disconnected || frame.readerFinished, now), frame.launch, now);
  }

  lemma RestedOk(v: View, now: nat, limit: nat)
    requires Good(v)
    ensures Good(Rested(v, now, limit))
  {
    hide Safe, Recall;
    ActOk(v, FrameEnded(now, limit), Rested(v, now, limit));
  }

  /** Whatever the operator asks and the system answers, the invariant is kept. */
  lemma AfterOk(c: Config, v: View, input: Input)
    requires Good(v)
    ensures Good(After(c, v, input))
  {
    hide Good, AfterStart, AfterStop, Polled, Rested;
    match input {
      case OperatorStart(launch, now) => AfterStartOk(c, v, launch, now);
      case OperatorStop(look, reaped, killed, now) => AfterStopOk(v, look, reaped, killed, now);
      case NextFrame(frame) =>
        PolledOk(c, v, frame);
        RestedOk(Polled(c, v, frame), frame.now, StaleAfter(c));
    }
  }
}
