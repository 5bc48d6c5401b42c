/** The engine supervisor and telemetry health machine of src/gui.rs, without its drawing. Every
    answer of the operating system (whether a process starts, has exited, could be reaped) and every
    telemetry event is an argument, so a theorem about all calls is one about all behaviours.

    The ghost `trace` records what the supervisor did. Every method is proved to leave exactly the view that
    `EngineSteps` says; what that means over whole runs is proved in `EngineRuns`. Times are in
    milliseconds. */
module EngineSupervisor {
  import opened Basics
  import opened EngineTrace
  import opened EngineState
  import opened EngineSteps
  import opened EngineRuns

  class MinerApp {
    const config: Config

    var engine: Engine
    var recovery: Recovery
    var health: Health
    ghost var trace: Trace

    function EffectiveWorkers(): nat reads this`recovery { Effective(recovery, config.workers) }

    predicate IsRunning() reads this`engine, this`recovery { engine.Live() || recovery.restartAt.Some? }

    /** What an onlooker sees. */
    ghost function Seen(): View reads this { View(engine, recovery, health, trace) }

    ghost function Hears(): Told reads this { Hearing(Seen()) }

    ghost predicate Valid() reads this { Good(Seen()) }

    constructor (config: Config)
      ensures Seen() == INITIAL && this.config == config
    {
      this.config := config;
      engine := Engine(None, None, None, None, false, None);
      recovery := Recovery(false, false, None, 0, false, false);
      health := Health(Idle, false, {}, 0, {}, false, false, None, None);
      trace := [];
    }

    // -------------------------------------------------------------- telemetry health

    method MarkWorkerUnready(worker: nat)
      modifies this`health
      ensures var ready := old(health).ready - {worker};
              health == old(health).(ready := ready, readyWorkers := |ready|, stableSince := None)
    {
      var ready := health.ready - {worker};
      health := health.(ready := ready, readyWorkers := |ready|, stableSince := None);
    }

    /** A worker that is ready is no longer failed; the last one to recover brings back `Mining`, if that
        is what the first failure interrupted. */
    method MarkWorkerReady(worker: nat) returns (news: bool)
      modifies this`health
      ensures worker >= EffectiveWorkers() || health.fatal ==> !news && health == old(health)
      ensures worker < EffectiveWorkers() && !health.fatal ==>
                && (news <==> worker !in old(health).ready || worker in old(health).failed)
                && health == Readied(old(health), worker)
    {
      if worker >= EffectiveWorkers() || health.fatal { return false; }
      var newlyReady, recovered := worker !in health.ready, worker in health.failed;
      var ready, failed := health.ready + {worker}, health.failed - {worker};
      var restored := recovered && health.canRestore && health.phase.Error? && failed == {};
      health := health.(ready := ready, readyWorkers := |ready|, failed := failed,
                        canRestore := health.canRestore && failed != {},
                        phase := if restored then Mining else health.phase);
      news := newlyReady || recovered;
    }

    method EnterMiningPhase()
      modifies this`health
      ensures health == old(health).(
                phase := if health.fatal || health.failed != {} then Error else Mining,
                canRestore := !health.fatal && health.failed != {})
    {
      if health.fatal {
        health := health.(phase := Error, canRestore := false);
      } else if health.failed != {} {
        health := health.(phase := Error, canRestore := true);
      } else {
        health := health.(phase := Mining, canRestore := false);
      }
    }

    method EnterConnectionPhase(next: Phase)
      modifies this`health
      ensures health == old(health).(phase := if health.fatal || health.failed != {} then Error else next, canRestore := false)
    {
      health := health.(phase := if health.fatal || health.failed != {} then Error else next, canRestore := false);
    }

    method FailWorker(worker: nat)
      modifies this`health
      ensures worker >= EffectiveWorkers() ==> health == old(health)
      ensures worker < EffectiveWorkers() ==> health == Failing(old(health), worker)
    {
      if worker < EffectiveWorkers() {
        var restore := if health.failed == {} then health.phase.Mining? else health.canRestore;
        MarkWorkerUnready(worker);
        health := health.(failed := health.failed + {worker}, canRestore := restore, phase := Error);
      }
    }

    /** The engine is fatally failed; its processes, if any, stay in hand. */
    method DeclareFatal()
      modifies this`health, this`trace
      ensures Seen() == DeclaredDead(old(Seen()))
    {
      trace := trace + [Failed];
      health := health.(fatal := true, nodeLinkLive := false, canRestore := false, phase := Error);
    }

    method NoteSample(hashing: bool, clearsWork: bool, now: nat)
      modifies this`health, this`trace
      ensures var act := Sampled(SampleOf(old(Hears()), config.workers, hashing, clearsWork, now));
              && trace == old(trace) + [act]
              && health == old(health).(lastMetricsAt := Some(now),
                                        stableSince := StableSinceAfter(old(health).stableSince, old(health).lastMetricsAt, act))
    {
      trace := trace + [Sampled(SampleOf(Hears(), config.workers, hashing, clearsWork, now))];
      health := health.(lastMetricsAt := Some(now));
      if clearsWork { health := health.(stableSince := None); }
      if hashing && health.nodeLinkLive && health.failed == {} && health.readyWorkers == EffectiveWorkers() {
        if health.stableSince == None { health := health.(stableSince := Some(now)); }
      } else {
        health := health.(stableSince := None);
      }
    }

    /** A sample is recorded; the budget is renewed exactly when some of it is used and the sample completes
        five stable minutes. */
    method ApplyMetrics(hashing: bool, clearsWork: bool, now: nat)
      requires Valid() && !Deaf(Hears(), Metrics(hashing, clearsWork))
      modifies this`health, this`recovery, this`trace
      ensures Hears() == AfterEvent(old(Hears()), config.workers, Metrics(hashing, clearsWork), now)
    {
      SampleExactly(Seen(), config.workers, hashing, clearsWork, now);
      hide Good, AfterEvent, StableSince, StableSinceAfter, SampleOf;
      NoteSample(hashing, clearsWork, now);
      if recovery.attempts > 0 && health.stableSince.Some? && Monus(now, health.stableSince.value) >= ENGINE_STABILITY_RESET {
        recovery := recovery.(attempts := 0);
        trace := trace + [Renewed];
      }
    }

    method FailEngine()
      requires !Deaf(Hears(), EngineFatal)
      modifies this`health, this`trace
      ensures forall now :: Hears() == AfterEvent(old(Hears()), config.workers, EngineFatal, now)
    {
      ghost var t := trace;
      DeclareFatal();
      trace := trace + [Silenced];
      assert t + [Failed] + [Silenced] == t + [Failed, Silenced];
      health := health.(lastMetricsAt := None, stableSince := None, ready := {}, readyWorkers := 0);
    }

    /** An event by which hashing stops being stable, or may. */
    method ApplyInterruption(event: Event)
      requires event.JobCleared? || event.WorkerInitializing? || event.WorkerError? || event.SessionError?
      modifies this`health, this`trace
      ensures health == AfterNews(old(health), EffectiveWorkers(), event)
      ensures trace == old(trace) + ActsOf(event, EffectiveWorkers())
    {
      match event {
        case JobCleared(current) => if !current { return; }
          health := health.(stableSince := None);
        case WorkerInitializing(w) => MarkWorkerUnready(w);
        case WorkerError(w) => if w >= EffectiveWorkers() { return; }
          FailWorker(w);
        case SessionError =>
          health := health.(nodeLinkLive := false, canRestore := false, lastMetricsAt := None, stableSince := None, phase := Reconnecting);
      }
      trace := trace + [if event.SessionError? then Silenced else Disturbed];
    }

    method ApplyConnection(event: Event)
      requires !health.fatal
      requires event.Online? || event.PoolConnected? || event.NodeConnected? || event.Job?
      modifies this`health
      ensures health == AfterNews(old(health), EffectiveWorkers(), event)
    {
      match event {
        case Online =>
          health := health.(nodeLinkLive := false);
          EnterConnectionPhase(Connecting);
        case PoolConnected => EnterConnectionPhase(Authenticating);
        case NodeConnected =>
          health := health.(nodeLinkLive := true);
          EnterMiningPhase();
        case Job =>
          health := health.(nodeLinkLive := true);
          EnterMiningPhase();
      }
    }

    /** Any event but a fatal failure and a sample. */
    method ApplyNews(event: Event, now: nat)
      requires !Deaf(Hears(), event) && !event.EngineFatal? && !event.Metrics?
      modifies this`health, this`trace
      ensures Hears() == AfterEvent(old(Hears()), config.workers, event, now)
    {
      assert trace + [] == trace;
      hide Readied, Failing, FiveStableMinutes, StableSince;
      match event {
        case WorkerReady(w) => var _ := MarkWorkerReady(w);
        case Other =>
        case Online => ApplyConnection(event);
        case PoolConnected => ApplyConnection(event);
        case NodeConnected => ApplyConnection(event);
        case Job => ApplyConnection(event);
        case JobCleared(_) => ApplyInterruption(event);
        case WorkerInitializing(_) => ApplyInterruption(event);
        case WorkerError(_) => ApplyInterruption(event);
        case SessionError => ApplyInterruption(event);
      }
    }

    /** One telemetry event. A fatally failed engine is heard no more, and a stopped one only if it fails. */
    method ApplyTelemetry(event: Event, now: nat)
      requires Valid()
      modifies this`health, this`recovery, this`trace
      ensures Hears() == AfterEvent(old(Hears()), config.workers, event, now)
    {
      if health.fatal || (recovery.requestedStop && !event.EngineFatal?) { return; }
      assert !Deaf(Hears(), event);
      hide Valid, Hears, Deaf, AfterEvent;
      match event {
        case EngineFatal => FailEngine();
        case Metrics(hashing, clearsWork) => ApplyMetrics(hashing, clearsWork, now);
        case _ => ApplyNews(event, now);
      }
    }

    /** The messages of one frame, in order; true when every sender is gone and the queue is empty. */
    method DrainProcessMessages(messages: seq<Event>, disconnected: bool, now: nat) returns (ended: bool)
      requires Valid()
      modifies this`health, this`recovery, this`trace
      ensures Seen() == Drained(config, old(Seen()), messages, now)
      ensures ended <==> !engine.receiver || disconnected
    {
      if !engine.receiver { return true; }
      hide Good, AfterEvent;
      for i := 0 to |messages|
        invariant Valid() && Hears() == AfterEvents(old(Hears()), config.workers, messages[..i], now)
      {
        EventOk(Seen(), config.workers, messages[i], now);
        ApplyTelemetry(messages[i], now);
        assert messages[..i + 1][..i] == messages[..i];
      }
      assert messages[..|messages|] == messages;
      ended := disconnected;
    }

    // -------------------------------------------------------------- starting

    /** Spends one unit of the budget on a delayed restart, or gives up when it is spent. */
    method ScheduleAutomaticRestart(now: nat)
      modifies this`recovery, this`health
      ensures Seen() == Scheduled(config, old(Seen()), now)
    {
      if recovery.requestedStop || !recovery.enabled { return; }
      if config.windows { recovery := recovery.(singleWorker := true); }
      if recovery.attempts >= MAX_AUTOMATIC_ENGINE_RESTARTS {
        recovery := recovery.(enabled := false, restartAt := None);
        health := health.(phase := Error);
        return;
      }
      var attempts := recovery.attempts + 1;
      recovery := recovery.(attempts := attempts, restartAt := Some(now + Delay(attempts)));
      health := health.(phase := Reconnecting);
    }

    method FailEngineStart(automatic: bool, now: nat)
      modifies this`recovery, this`health
      ensures Seen() == StartFailed(config, old(Seen()), automatic, now)
    {
      health := health.(phase := Error);
      if automatic { ScheduleAutomaticRestart(now); }
    }

    method ResetTelemetry()
      modifies this`engine, this`health, this`trace
      ensures Seen() == Reset(old(Seen())).(recovery := old(recovery))
    {
      engine := engine.(disconnectedAt := None, pendingLoss := None);
      health := Health(Starting, false, {}, 0, {}, false, false, None, None);
      trace := trace + [Prepared];
    }

    /** Starts an engine unless something of an earlier one is outstanding. Only a launch that gets all the
        way puts a process in `child`; a process that had to be given up is never lost sight of. */
    method StartEngine(automatic: bool, launch: Launch, now: nat)
      modifies this
      ensures Seen() == if old(engine).Live() then old(Seen())
                        else Attempted(config, old(Seen()).(recovery := old(recovery).(restartAt := None)), automatic, launch, now)
    {
      if engine.Live() { return; }
      recovery := recovery.(restartAt := None);
      if launch.Refused? {
        FailEngineStart(automatic, now);
        return;
      }
      ResetTelemetry();
      recovery := recovery.(requestedStop := false);
      BringUp(automatic, launch, now);
    }

    /** From the spawn on. */
    method BringUp(automatic: bool, launch: Launch, now: nat)
      requires !launch.Refused?
      modifies this
      ensures Seen() == match launch
                        case NoProcess => StartFailed(config, old(Seen()), automatic, now)
                        case Abandoned(pid, reaped) => StartFailed(config, GivenUp(old(Seen()), pid, reaped), automatic, now)
                        case Launched(pid) => Kept(old(Seen()), pid)
    {
      hide StartFailed;
      match launch {
        case NoProcess => FailEngineStart(automatic, now);
        case Abandoned(pid, reaped) =>
          AbandonChild(pid, reaped);
          FailEngineStart(automatic, now);
        case Launched(pid) =>
          trace := trace + [Spawned(pid)];
          engine := engine.(receiver := true, child := Some(pid));
      }
    }

    /** A process that a start cannot use: proven gone, or held in quarantine. */
    method AbandonChild(pid: Pid, reaped: bool)
      modifies this`engine, this`trace
      ensures Seen() == GivenUp(old(Seen()), pid, reaped)
    {
      ghost var t := trace;
      trace := trace + [Spawned(pid)];
      if reaped {
        trace := trace + [Reaped(pid)];
        assert trace == t + [Spawned(pid), Reaped(pid)];
      } else {
        engine := engine.(quarantined := Some(pid));
      }
    }

    /** The operator's start: a full budget, and nothing while an engine or a restart is outstanding. */
    method Start(launch: Launch, now: nat)
      modifies this
      ensures Seen() == AfterStart(config, old(Seen()), launch, now)
    {
      if IsRunning() { return; }
      hide Attempted;
      recovery := recovery.(attempts := 0, singleWorker := false, light := false, enabled := true);
      trace := trace + [Begun];
      assert recovery.(restartAt := None) == recovery;
      StartEngine(false, launch, now);
    }

    // -------------------------------------------------------------- losing and stopping the engine

    /** The engine can no longer be observed: it is reaped or quarantined, and its output is drained. */
    method BeginObservationFailure(reaped: bool, now: nat)
      modifies this
      ensures Seen() == Lost(old(Seen()), reaped, now)
    {
      if engine.pendingLoss.Some? { return; }
      ghost var t := trace;
      DeclareFatal();
      recovery := recovery.(requestedStop := false);
      if engine.child.Some? {
        if reaped {
          trace := trace + [Reaped(engine.child.value)];
          assert trace == t + [Failed, Reaped(engine.child.value)];
        } else {
          engine := engine.(quarantined := engine.child);
        }
        engine := engine.(child := None);
      }
      engine := engine.(pendingLoss := Some(now + OBSERVATION_FAILURE_DRAIN_GRACE));
    }

    /** The output of a lost engine is drained or given up; recovery goes on from here. */
    method FinishObservationFailure(now: nat)
      modifies this
      ensures Seen() == LossFinished(config, old(Seen()), now)
    {
      hide Scheduled;
      engine := engine.(pendingLoss := None);
      CloseOutput();
      ScheduleAutomaticRestart(now);
    }

    /** The output of an engine that is gone is over: no worker, no link, no metrics. */
    method CloseOutput()
      modifies this`engine, this`health, this`trace
      ensures Seen() == Closed(old(Seen()))
    {
      engine := engine.(receiver := false, disconnectedAt := None);
      health := health.(lastMetricsAt := None, stableSince := None, ready := {}, readyWorkers := 0, nodeLinkLive := false, phase := Error);
      trace := trace + [Silenced];
    }

    /** The engine has exited and its output is drained: a requested exit is the end of it, any other one a
        reason to recover. */
    method FinishExitedChild(exit: Exit, now: nat)
      requires engine.pendingExit == Some(exit)
      modifies this
      ensures Seen() == ExitFinished(config, old(Seen()), exit, now)
    {
      hide Scheduled;
      engine := engine.(pendingExit := None);
      health := health.(canRestore := false);
      CloseOutput();
      if recovery.requestedStop && !health.fatal && exit.asRequested {
        health := health.(phase := Idle);
      } else {
        EscalateRecovery(exit.escalation);
        ScheduleAutomaticRestart(now);
      }
    }

    /** The recovery tier an exit calls for. */
    method EscalateRecovery(escalation: Escalation)
      modifies this`recovery
      ensures recovery == Escalated(config, old(recovery), escalation)
    {
      if config.windows {
        match escalation {
          case Keep => recovery := recovery.(singleWorker := true);
          case Light => recovery := recovery.(singleWorker := true, light := true);
          case Terminal => recovery := recovery.(enabled := false);
        }
      }
    }

    /** The operator's stop. Whatever the system answers, recovery is off and no restart is announced; a
        process in hand is killed, reaped, or kept in hand. */
    method Stop(look: Wait, reaped: bool, killed: bool, now: nat)
      modifies this
      ensures Seen() == AfterStop(old(Seen()), look, reaped, killed, now)
    {
      hide StoppedWith, StoppedWithout;
      CancelRecovery();
      if engine.child == None {
        StopWithoutChild(reaped);
      } else {
        StopChild(look, reaped, killed, now);
      }
    }

    method CancelRecovery()
      modifies this`recovery, this`health, this`trace
      ensures Seen() == Canceled(old(Seen()))
    {
      trace := trace + [Ended];
      var canceled := recovery.restartAt.Some?;
      recovery := recovery.(enabled := false, restartAt := None);
      if canceled {
        recovery := recovery.(attempts := 0);
        health := health.(nodeLinkLive := false);
      }
    }

    method StopWithoutChild(reaped: bool)
      modifies this`engine, this`health, this`trace
      ensures Seen() == StoppedWithout(old(Seen()), reaped)
    {
      ObserveQuarantine(reaped);
      if engine.Draining() {
        health := health.(phase := Stopping);
      } else if engine.quarantined == None {
        health := health.(phase := Idle);
      }
    }

    method StopChild(look: Wait, reaped: bool, killed: bool, now: nat)
      requires engine.child.Some?
      modifies this
      ensures Seen() == StoppedWith(old(Seen()), look, reaped, killed, now)
    {
      match look {
        case Unobservable => BeginObservationFailure(reaped, now);
        case Exited(exit) => SeeExit(exit);
        case Running =>
          health := health.(canRestore := false, nodeLinkLive := false, phase := Stopping);
          if killed {
            recovery := recovery.(requestedStop := true);
          } else {
            DeclareFatal();
          }
      }
    }

    // -------------------------------------------------------------- one frame

    method ObserveChild(look: Wait, reaped: bool, now: nat)
      modifies this
      ensures Seen() == Observed(old(Seen()), look, reaped, now)
    {
      if engine.Draining() || engine.child == None { return; }
      match look {
        case Exited(exit) =>
          SeeExit(exit);
          health := health.(nodeLinkLive := false);
        case Unobservable => BeginObservationFailure(reaped, now);
        case Running =>
      }
    }

    /** The process in hand is gone; its output is still to be read. */
    method SeeExit(exit: Exit)
      requires engine.child.Some?
      modifies this`engine, this`trace
      ensures Seen() == Gone(old(Seen()), exit)
    {
      trace := trace + [Reaped(engine.child.value)];
      engine := engine.(child := None, pendingExit := Some(exit));
    }

    method ObserveQuarantine(gone: bool)
      modifies this`engine, this`trace
      ensures Seen() == QuarantineEnded(old(Seen()), gone)
    {
      if engine.quarantined.Some? && gone {
        trace := trace + [Reaped(engine.quarantined.value)];
        engine := engine.(quarantined := None);
      }
    }

    method FinishWhatIsOver(disconnected: bool, quarantineGone: bool, now: nat)
      modifies this
      ensures Seen() == Finished(config, old(Seen()), disconnected, quarantineGone, now)
    {
      hide LossFinished, ExitFinished, QuarantineEnded;
      if engine.pendingLoss.Some? && (disconnected || now >= engine.pendingLoss.value) {
        FinishObservationFailure(now);
      }
      ObserveQuarantine(quarantineGone);
      if disconnected && engine.pendingExit.Some? {
        FinishExitedChild(engine.pendingExit.value, now);
      }
    }

    /** An output reader that ends while the engine runs on is fatal, after a grace period. */
    method CheckReaders(hadReceiver: bool, ended: bool, now: nat)
      modifies this`engine, this`health, this`trace
      ensures Seen() == ReadersChecked(old(Seen()), hadReceiver, ended, now)
    {
      if engine.pendingExit == None && engine.child.Some? && ended {
        if engine.disconnectedAt == None { engine := engine.(disconnectedAt := Some(now)); }
        if Monus(now, engine.disconnectedAt.value) >= OUTPUT_DISCONNECT_GRACE && !recovery.requestedStop && !health.fatal {
          DeclareFatal();
        }
      } else if hadReceiver && !ended {
        engine := engine.(disconnectedAt := None);
      }
    }

    /** A restart happens when it is due and nothing is outstanding. */
    method RestartIfDue(launch: Launch, now: nat)
      modifies this
      ensures Seen() == Restarted(config, old(Seen()), launch, now)
    {
      hide Attempted;
      if recovery.restartAt.Some? && now >= recovery.restartAt.value && !engine.Live() {
        recovery := recovery.(restartAt := None);
        trace := trace + [Retried];
        assert recovery.(restartAt := None) == recovery;
        StartEngine(true, launch, now);
      }
    }

    /** One poll: the messages, the process, its end, its output readers, and a restart that is due. */
    method PollProcess(frame: Frame)
      requires Valid()
      modifies this
      ensures Seen() == Polled(config, old(Seen()), frame)
    {
      hide Good, Drained, Observed, Finished, ReadersChecked, Restarted;
      var now, hadReceiver := frame.now, engine.receiver;
      DrainingLeavesEngine(config, Seen(), frame.messages, now);
      var disconnected := DrainProcessMessages(frame.messages, frame.disconnected, now);
      ObserveChild(frame.child, frame.reaped, now);
      FinishWhatIsOver(disconnected, frame.quarantineGone, now);
      CheckReaders(hadReceiver, disconnected || frame.readerFinished, now);
      RestartIfDue(frame.launch, now);
    }

    /** Stale metrics end the stretch of stable hashing. */
    method CheckFreshness(now: nat)
      modifies this`health, this`trace
      ensures Seen() == Rested(old(Seen()), now, StaleAfter(config))
    {
      trace := trace + [FrameEnded(now, StaleAfter(config))];
      if health.lastMetricsAt == None || Monus(now, health.lastMetricsAt.value) >= StaleAfter(config) {
        health := health.(stableSince := None);
      }
    }

    /** What the GUI does once per frame, before it draws. */
    method Logic(frame: Frame)
      requires Valid()
      modifies this
      ensures Seen() == AfterFrame(config, old(Seen()), frame)
    {
      hide Good, Polled;
      PollProcess(frame);
      CheckFreshness(frame.now);
    }

    method Respond(input: Input)
      requires Valid()
      modifies this
      ensures Valid() && Seen() == After(config, old(Seen()), input)
    {
      AfterOk(config, Seen(), input);
      hide Good, AfterStart, AfterStop, AfterFrame;
      match input {
        case OperatorStart(launch, now) => Start(launch, now);
        case OperatorStop(look, reaped, killed, now) => Stop(look, reaped, killed, now);
        case NextFrame(frame) => Logic(frame);
      }
    }
  }

  lemma DrainingLeavesEngine(c: Config, v: View, messages: seq<Event>, now: nat)
    ensures Drained(c, v, messages, now).engine == v.engine
  {
    hide AfterEvents;
  }

  /** Every run of the supervisor, whatever the operator and the system do, is a run in the sense of
      `EngineRuns`: each input has exactly the effect promised of it, and what is on the screen is true. */
  method Supervise(config: Config, inputs: seq<Input>) returns (app: MinerApp, ghost views: seq<View>)
    ensures fresh(app) && app.config == config && app.Valid()
    ensures Run(config, views, inputs) && views[|inputs|] == app.Seen()
    ensures forall k | 0 <= k < |views| :: Sound(views[k])
  {
    app := new MinerApp(config);
    views := [app.Seen()];
    InitialOk();
    assert Run(config, views, []);
    hide *;
    for i := 0 to |inputs|
      invariant fresh(app) && app.config == config && app.Valid()
      invariant |views| == i + 1 && Run(config, views, inputs[..i]) && views[i] == app.Seen()
    {
      app.Respond(inputs[i]);
      RunExtended(config, views, inputs[..i], inputs[i]);
      views := views + [app.Seen()];
      assert inputs[..i + 1] == inputs[..i] + [inputs[i]];
    }
    assert inputs[..|inputs|] == inputs;
    forall k | 0 <= k < |views| ensures Sound(views[k]) { EveryStateIsSound(config, views, inputs, k); }
  }
}
