/** Whole runs of the engine supervisor of src/gui.rs over its inputs: what the operator asks for, and what
    the system answers. A run is the sequence of views that `After` leads to; which input each act comes
    from, and what that says of every run, is proved here. */
module EngineRuns {
  import opened Basics
  import opened EngineTrace
  import opened EngineState
  import opened EngineSteps

  const INITIAL: View :=
    View(Engine(None, None, None, None, false, None), Recovery(false, false, None, 0, false, false),
         Health(Idle, false, {}, 0, {}, false, false, None, None), [])

  ghost predicate Run(c: Config, views: seq<View>, inputs: seq<Input>) {
    && |views| == |inputs| + 1 && views[0] == INITIAL
    && forall i | 0 <= i < |inputs| :: views[i + 1] == After(c, views[i], inputs[i])
  }

  /** What is on the screen is true, and no process is lost sight of. */
  ghost predicate Sound(v: View) {
    && Safe(v.trace) && Shaped(v.engine) && Unreaped(v.trace) == v.engine.Held() && |v.engine.Held()| <= 1
    && (v.health.phase.Mining? ==> v.health.failed == {} && !v.health.fatal)
    && (v.health.fatal <==> Fatal(v.trace))
    && (forall w | w in v.health.ready :: w !in v.health.failed) && v.health.readyWorkers == |v.health.ready|
    && v.health.stableSince == StableSince(v.trace)
    && (!v.engine.receiver ==> v.health.ready == {} && !v.health.nodeLinkLive && v.health.lastMetricsAt == None && !v.health.phase.Mining?)
    && v.recovery.attempts <= MAX_AUTOMATIC_ENGINE_RESTARTS
  }

  lemma OkIsSound(v: View)
    requires Good(v)
    ensures Sound(v)
  {
    AtMostOneEngine(v.trace);
    hide Safe, Unreaped, Used, Stopped, Fatal, LastSample, StableSince;
  }

  lemma InitialOk()
    ensures Good(INITIAL)
  {
  }

  lemma RunStep(c: Config, views: seq<View>, inputs: seq<Input>, i: nat)
    requires Run(c, views, inputs) && i < |inputs|
    ensures |views| == |inputs| + 1 && views[i + 1] == After(c, views[i], inputs[i])
  {
    hide After;
  }

  lemma RunStarts(c: Config, views: seq<View>, inputs: seq<Input>)
    requires Run(c, views, inputs)
    ensures |views| == |inputs| + 1 && views[0] == INITIAL
  {
    hide After;
  }

  lemma RunExtended(c: Config, views: seq<View>, inputs: seq<Input>, input: Input)
    requires Run(c, views, inputs)
    ensures Run(c, views + [After(c, views[|inputs|], input)], inputs + [input])
  {
    hide After;
  }

  lemma {:induction false} RunOk(c: Config, views: seq<View>, inputs: seq<Input>, k: nat)
    requires Run(c, views, inputs) && k < |views|
    ensures |views| == |inputs| + 1 && Good(views[k])
  {
    hide *;
    RunStarts(c, views, inputs);
    if k == 0 {
      InitialOk();
    } else {
      RunOk(c, views, inputs, k - 1);
      RunStep(c, views, inputs, k - 1);
      AfterOk(c, views[k - 1], inputs[k - 1]);
    }
  }

  /** Over every run, whatever the operator asks and the system answers: at most one engine exists, it is in
      hand in one place and is the only one not proven gone, and the screen tells the truth. */
  lemma EveryStateIsSound(c: Config, views: seq<View>, inputs: seq<Input>, k: nat)
    requires Run(c, views, inputs) && k < |views|
    ensures |views| == |inputs| + 1 && Sound(views[k])
  {
    hide *;
    RunOk(c, views, inputs, k);
    OkIsSound(views[k]);
  }

  // ---------------------------------------------------------------- which input an act comes from

  /** The system's answers to this input prove that process `pid` is gone: it was seen to exit, or a cleanup
      of it succeeded. */
  predicate ProvenGone(v: View, input: Input, pid: Pid) {
    match input
    case OperatorStart(launch, _) => launch == Abandoned(pid, true)
    case OperatorStop(look, reaped, _, _) =>
      || (v.engine.child == Some(pid) && (look.Exited? || (look.Unobservable? && reaped)))
      || (v.engine.child == None && v.engine.quarantined == Some(pid) && reaped)
    case NextFrame(frame) =>
      || (v.engine.child == Some(pid) && (frame.child.Exited? || (frame.child.Unobservable? && (frame.reaped || frame.quarantineGone))))
      || (v.engine.quarantined == Some(pid) && frame.quarantineGone)
      || frame.launch == Abandoned(pid, true)
  }

  function LaunchOf(input: Input): Launch {
    match input
    case OperatorStart(launch, _) => launch
    case OperatorStop(_, _, _, _) => Refused
    case NextFrame(frame) => frame.launch
  }

  /** What this input, given what was seen before it, can cause. */
  predicate CausedBy(c: Config, v: View, act: Act, input: Input) {
    match act
    case Begun => input.OperatorStart? && !InUse(v)
    case Ended => input.OperatorStop?
    case Retried => input.NextFrame? && v.recovery.restartAt.Some? && input.frame.now >= v.recovery.restartAt.value
    case Prepared => !LaunchOf(input).Refused?
    case Spawned(pid) => LaunchOf(input) == Launched(pid) || LaunchOf(input) == Abandoned(pid, true) || LaunchOf(input) == Abandoned(pid, false)
    case Reaped(pid) => ProvenGone(v, input, pid)
    case Failed =>
      || (input.OperatorStop? && (input.look.Unobservable? || (input.look.Running? && !input.killed)))
      || (input.NextFrame? && (CameFrom(act, input.frame.messages, input.frame.now) || input.frame.child.Unobservable?
                               || input.frame.disconnected || input.frame.readerFinished))
    case Silenced =>
      input.NextFrame? && (CameFrom(act, input.frame.messages, input.frame.now)
                           || v.engine.Draining() || !input.frame.child.Running?)
    case FrameEnded(at, limit) => input.NextFrame? && at == input.frame.now && limit == StaleAfter(c)
    case _ => input.NextFrame? && CameFrom(act, input.frame.messages, input.frame.now)
  }

  /** From `t` to `u` only acts that this input can cause were added. */
  ghost predicate Causes(c: Config, v: View, input: Input, t: Trace, u: Trace) {
    t <= u && forall a | |t| <= a < |u| :: CausedBy(c, v, u[a], input)
  }

  lemma CausesNone(c: Config, v: View, input: Input, t: Trace)
    ensures Causes(c, v, input, t, t)
  {
  }

  lemma CausesOne(c: Config, v: View, input: Input, t: Trace, act: Act)
    requires CausedBy(c, v, act, input)
    ensures Causes(c, v, input, t, t + [act])
  {
  }

  lemma CausesTwo(c: Config, v: View, input: Input, t: Trace, a: Act, b: Act)
    requires CausedBy(c, v, a, input) && CausedBy(c, v, b, input)
    ensures Causes(c, v, input, t, t + [a, b])
  {
  }

  lemma CausesMore(c: Config, v: View, input: Input, t: Trace, u: Trace, w: Trace)
    requires Causes(c, v, input, t, u) && Causes(c, v, input, u, w)
    ensures Causes(c, v, input, t, w)
  {
    forall a | |t| <= a < |w| ensures CausedBy(c, v, w[a], input) { if a < |u| { assert w[a] == u[a]; } }
  }

  lemma ScheduledTrace(c: Config, v: View, now: nat)
    ensures Scheduled(c, v, now).trace == v.trace && Scheduled(c, v, now).engine == v.engine
    ensures !Scheduled(c, v, now).recovery.restartAt.Some? || Scheduled(c, v, now).recovery.restartAt == v.recovery.restartAt
            || Scheduled(c, v, now).recovery.restartAt.value > now
  {
  }

  lemma AttemptedAdds(c: Config, v: View, input: Input, s: View, automatic: bool, now: nat)
    ensures Causes(c, v, input, s.trace, Attempted(c, s, automatic, LaunchOf(input), now).trace)
  {
    var launch, t := LaunchOf(input), s.trace;
    ScheduledTrace(c, Showing(s, Error), now);
    ScheduledTrace(c, Showing(Reset(s), Error), now);
    CausesNone(c, v, input, t);
    if !launch.Refused? {
      CausesOne(c, v, input, t, Prepared);
      var p := t + [Prepared];
      CausesNone(c, v, input, p);
      match launch {
        case NoProcess =>
        case Launched(pid) => CausesOne(c, v, input, p, Spawned(pid));
        case Abandoned(pid, reaped) =>
          ScheduledTrace(c, Showing(GivenUp(Reset(s), pid, reaped), Error), now);
          if reaped { CausesTwo(c, v, input, p, Spawned(pid), Reaped(pid)); } else { CausesOne(c, v, input, p, Spawned(pid)); }
      }
      hide Causes, CausedBy;
      CausesMore(c, v, input, t, p, Attempted(c, s, automatic, launch, now).trace);
    }
  }

  lemma StartAdds(c: Config, v: View, input: Input)
    requires input.OperatorStart?
    ensures Causes(c, v, input, v.trace, After(c, v, input).trace)
  {
    CausesNone(c, v, input, v.trace);
    if !InUse(v) {
      CausesOne(c, v, input, v.trace, Begun);
      hide Causes, CausedBy, Attempted;
      AttemptedAdds(c, v, input, Begin(v), false, input.now);
      CausesMore(c, v, input, v.trace, Begin(v).trace, After(c, v, input).trace);
    }
  }

  lemma StopAdds(c: Config, v: View, input: Input)
    requires input.OperatorStop?
    ensures Causes(c, v, input, v.trace, After(c, v, input).trace)
    ensures v.trace + [Ended] <= After(c, v, input).trace
  {
    var w := Canceled(v);
    var t, e := w.trace, v.engine;
    CausesOne(c, v, input, v.trace, Ended);
    CausesNone(c, v, input, t);
    if e.child.Some? {
      if input.look.Exited? { CausesOne(c, v, input, t, Reaped(e.child.value)); }
      if input.look.Running? && !input.killed { CausesOne(c, v, input, t, Failed); }
      if input.look.Unobservable? {
        CausesOne(c, v, input, t, Failed);
        if input.reaped { CausesTwo(c, v, input, t, Failed, Reaped(e.child.value)); }
      }
    } else if input.reaped && e.quarantined.Some? {
      CausesOne(c, v, input, t, Reaped(e.quarantined.value));
    }
    hide Causes, CausedBy;
    CausesMore(c, v, input, v.trace, t, After(c, v, input).trace);
  }

  lemma DrainedAdds(c: Config, v: View, frame: Frame)
    ensures Causes(c, v, NextFrame(frame), v.trace, Drained(c, v, frame.messages, frame.now).trace)
    ensures var d := Drained(c, v, frame.messages, frame.now);
            d.engine == v.engine && d.recovery == v.recovery.(attempts := d.recovery.attempts)
  {
    var input := NextFrame(frame);
    CausesNone(c, v, input, v.trace);
    if v.engine.receiver {
      var acts := EventsAdd(Told(v.health, v.recovery, v.trace), c.workers, frame.messages, frame.now);
      var u := v.trace + acts;
      hide AfterEvents, SampledEvents, HeardThroughout, MetricsEvents;
      forall a | |v.trace| <= a < |u| ensures CausedBy(c, v, u[a], input) {
        assert u[a] == acts[a - |v.trace|] && CameFrom(u[a], frame.messages, frame.now);
      }
    }
  }

  lemma ObservedAdds(c: Config, v: View, frame: Frame, d: View)
    requires d.engine == v.engine
    ensures var o := Observed(d, frame.child, frame.reaped, frame.now);
            && Causes(c, v, NextFrame(frame), d.trace, o.trace)
            && o.recovery.restartAt == d.recovery.restartAt
            && (o.engine.quarantined == v.engine.quarantined
                || (v.engine.child.Some? && o.engine.quarantined == v.engine.child && frame.child.Unobservable?))
            && (o.engine.Draining() ==> v.engine.Draining() || !frame.child.Running?)
  {
    var input, t := NextFrame(frame), d.trace;
    CausesNone(c, v, input, t);
    if !v.engine.Draining() && v.engine.child.Some? {
      var pid := v.engine.child.value;
      if frame.child.Exited? { CausesOne(c, v, input, t, Reaped(pid)); }
      if frame.child.Unobservable? {
        CausesOne(c, v, input, t, Failed);
        if frame.reaped { CausesTwo(c, v, input, t, Failed, Reaped(pid)); }
      }
    }
    hide Causes, CausedBy;
  }

  lemma QuarantineAdds(c: Config, v: View, frame: Frame, l: View)
    requires l.engine.quarantined == v.engine.quarantined
             || (v.engine.child.Some? && l.engine.quarantined == v.engine.child && frame.child.Unobservable?)
    ensures Causes(c, v, NextFrame(frame), l.trace, QuarantineEnded(l, frame.quarantineGone).trace)
  {
    CausesNone(c, v, NextFrame(frame), l.trace);
    if frame.quarantineGone && l.engine.quarantined.Some? {
      CausesOne(c, v, NextFrame(frame), l.trace, Reaped(l.engine.quarantined.value));
    }
    hide Causes, CausedBy;
  }

  lemma LossFinishedTrace(c: Config, o: View, now: nat)
    ensures var w := LossFinished(c, o, now);
            && w.trace == o.trace + [Silenced]
            && w.engine == o.engine.(pendingLoss := None, receiver := false, disconnectedAt := None)
            && (w.recovery.restartAt == None || w.recovery.restartAt == o.recovery.restartAt || w.recovery.restartAt.value > now)
  {
    var w := Closed(o.(engine := o.engine.(pendingLoss := None)));
    ScheduledTrace(c, w, now);
    hide Scheduled;
  }

  lemma ExitFinishedTrace(c: Config, q: View, exit: Exit, now: nat)
    ensures var w := ExitFinished(c, q, exit, now);
            && w.trace == q.trace + [Silenced]
            && w.engine == q.engine.(pendingExit := None, receiver := false, disconnectedAt := None)
            && (w.recovery.restartAt == None || w.recovery.restartAt == q.recovery.restartAt || w.recovery.restartAt.value > now)
  {
    var w := Closed(q.(engine := q.engine.(pendingExit := None), health := q.health.(canRestore := false)));
    ScheduledTrace(c, w.(recovery := Escalated(c, w.recovery, exit.escalation)), now);
    hide Scheduled;
  }

  lemma FinishedAdds(c: Config, v: View, frame: Frame, o: View, disconnected: bool)
    requires o.engine.quarantined == v.engine.quarantined
             || (v.engine.child.Some? && o.engine.quarantined == v.engine.child && frame.child.Unobservable?)
    requires o.engine.Draining() ==> v.engine.Draining() || !frame.child.Running?
    ensures var f := Finished(c, o, disconnected, frame.quarantineGone, frame.now);
            && Causes(c, v, NextFrame(frame), o.trace, f.trace)
            && (f.recovery.restartAt == None || f.recovery.restartAt == o.recovery.restartAt
                || f.recovery.restartAt.value > frame.now)
  {
    var input, now := NextFrame(frame), frame.now;
    var l := if LossOver(o.engine, disconnected, now) then LossFinished(c, o, now) else o;
    var q := QuarantineEnded(l, frame.quarantineGone);
    LossFinishedTrace(c, o, now);
    if q.engine.pendingExit.Some? { ExitFinishedTrace(c, q, q.engine.pendingExit.value, now); }
    CausesNone(c, v, input, o.trace);
    if o.engine.Draining() {
      CausesOne(c, v, input, o.trace, Silenced);
      CausesOne(c, v, input, q.trace, Silenced);
    }
    CausesNone(c, v, input, q.trace);
    QuarantineAdds(c, v, frame, l);
    var f := Finished(c, o, disconnected, frame.quarantineGone, now);
    hide Causes, CausedBy, LossFinished, ExitFinished;
    CausesMore(c, v, input, o.trace, l.trace, q.trace);
    CausesMore(c, v, input, o.trace, q.trace, f.trace);
  }

  lemma ReadersAdd(c: Config, v: View, frame: Frame, f: View, hadReceiver: bool, ended: bool)
    requires ended ==> frame.disconnected || frame.readerFinished || f.engine.child == None
    ensures var k := ReadersChecked(f, hadReceiver, ended, frame.now);
            Causes(c, v, NextFrame(frame), f.trace, k.trace) && k.recovery == f.recovery
  {
    CausesNone(c, v, NextFrame(frame), f.trace);
    if f.engine.child.Some? && ended { CausesOne(c, v, NextFrame(frame), f.trace, Failed); }
    hide Causes, CausedBy;
  }

  lemma RestartedAdds(c: Config, v: View, frame: Frame, k: View)
    requires k.recovery.restartAt == None || k.recovery.restartAt == v.recovery.restartAt || k.recovery.restartAt.value > frame.now
    ensures Causes(c, v, NextFrame(frame), k.trace, Restarted(c, k, frame.launch, frame.now).trace)
  {
    var input := NextFrame(frame);
    CausesNone(c, v, input, k.trace);
    if RestartDue(k, frame.now) {
      CausesOne(c, v, input, k.trace, Retried);
      hide Causes, CausedBy, Attempted;
      AttemptedAdds(c, v, input, Restarting(k), true, frame.now);
      CausesMore(c, v, input, k.trace, Restarting(k).trace, Restarted(c, k, frame.launch, frame.now).trace);
    }
  }

  lemma ChildOnlyWithReceiver(c: Config, v: View, frame: Frame)
    requires Good(v)
    ensures v.engine.receiver || v.engine.child == None
  {
    hide Safe, Recall;
  }

  lemma FinishedKeepsChild(c: Config, o: View, disconnected: bool, gone: bool, now: nat)
    ensures Finished(c, o, disconnected, gone, now).engine.child == o.engine.child
  {
    var l := if LossOver(o.engine, disconnected, now) then LossFinished(c, o, now) else o;
    var q := QuarantineEnded(l, gone);
    LossFinishedTrace(c, o, now);
    if q.engine.pendingExit.Some? { ExitFinishedTrace(c, q, q.engine.pendingExit.value, now); }
    hide LossFinished, ExitFinished;
  }

  lemma FinishedChild(c: Config, v: View, frame: Frame)
    ensures var d := Drained(c, v, frame.messages, frame.now);
            var o := Observed(d, frame.child, frame.reaped, frame.now);
            var disconnected := !v.engine.receiver || frame.disconnected;
            Finished(c, o, disconnected, frame.quarantineGone, frame.now).engine.child.Some? ==> v.engine.child.Some?
  {
    var d := Drained(c, v, frame.messages, frame.now);
    DrainedAdds(c, v, frame);
    hide Drained, Causes, Finished;
    FinishedKeepsChild(c, Observed(d, frame.child, frame.reaped, frame.now), !v.engine.receiver || frame.disconnected,
                       frame.quarantineGone, frame.now);
  }

  lemma FrameAdds(c: Config, v: View, input: Input)
    requires input.NextFrame? && Good(v)
    ensures Causes(c, v, input, v.trace, After(c, v, input).trace)
  {
    var frame := input.frame;
    var now, disconnected := frame.now, !v.engine.receiver || frame.disconnected;
    var d := Drained(c, v, frame.messages, now);
    var o := Observed(d, frame.child, frame.reaped, now);
    var f := Finished(c, o, disconnected, frame.quarantineGone, now);
    var k := ReadersChecked(f, v.engine.receiver, disconnected || frame.readerFinished, now);
    var w := Restarted(c, k, frame.launch, now);
    ChildOnlyWithReceiver(c, v, frame);
    FinishedChild(c, v, frame);
    CausesOne(c, v, input, w.trace, FrameEnded(now, StaleAfter(c)));
    hide Causes, CausedBy, Good, Drained, Observed, Finished, ReadersChecked, Restarted;
    DrainedAdds(c, v, frame);
    ObservedAdds(c, v, frame, d);
    FinishedAdds(c, v, frame, o, disconnected);
    ReadersAdd(c, v, frame, f, v.engine.receiver, disconnected || frame.readerFinished);
    RestartedAdds(c, v, frame, k);
    CausesMore(c, v, input, v.trace, d.trace, o.trace);
    CausesMore(c, v, input, v.trace, o.trace, f.trace);
    CausesMore(c, v, input, v.trace, f.trace, k.trace);
    CausesMore(c, v, input, v.trace, k.trace, w.trace);
    CausesMore(c, v, input, v.trace, w.trace, After(c, v, input).trace);
  }

  /** Every act is one that the input during which it happens can cause: the operator's marks by the operator,
      a retry by a restart that is due, a spawn by that very launch, a reap by an answer that proves that
      process gone, samples, failures and silences by that frame's messages or observations. */
  lemma StepCauses(c: Config, v: View, input: Input)
    requires Good(v)
    ensures Causes(c, v, input, v.trace, After(c, v, input).trace)
    ensures input.OperatorStop? ==> v.trace + [Ended] <= After(c, v, input).trace
  {
    hide Good, Causes, After;
    match input {
      case OperatorStart(_, _) => StartAdds(c, v, input);
      case OperatorStop(_, _, _, _) => StopAdds(c, v, input);
      case NextFrame(_) => FrameAdds(c, v, input);
    }
  }

  // ---------------------------------------------------------------- every automatic spawn is paid for

  /** From `t` to `u` no more engines were spawned than automatic starts were counted. */
  ghost predicate Paid(t: Trace, u: Trace) { t <= u && Spawns(u) + Retries(t) <= Spawns(t) + Retries(u) }

  /** From `t` to `u` nothing was started. */
  ghost predicate Quiet(t: Trace, u: Trace) {
    t <= u && forall a | |t| <= a < |u| :: !u[a].Spawned? && !u[a].Retried?
  }

  lemma {:induction false} QuietCounts(t: Trace, u: Trace)
    requires Quiet(t, u)
    ensures Spawns(u) == Spawns(t) && Retries(u) == Retries(t)
    decreases |u|
  {
    if |t| < |u| {
      var front := u[..|u| - 1];
      assert u == front + [u[|u| - 1]];
      CountsExtended(front, u[|u| - 1]);
      QuietCounts(t, front);
    } else {
      assert t == u;
    }
  }

  lemma QuietIsPaid(t: Trace, u: Trace)
    requires Quiet(t, u)
    ensures Paid(t, u)
  {
    QuietCounts(t, u);
    hide Spawns, Retries;
  }

  lemma PaidOnwards(t: Trace, u: Trace, w: Trace)
    requires Paid(t, u) && Paid(u, w)
    ensures Paid(t, w)
  {
    hide Spawns, Retries;
  }

  lemma QuietOnwards(t: Trace, u: Trace, w: Trace)
    requires Quiet(t, u) && Quiet(u, w)
    ensures Quiet(t, w)
  {
    forall a | |t| <= a < |w| ensures !w[a].Spawned? && !w[a].Retried? { if a < |u| { assert w[a] == u[a]; } }
  }

  lemma GivenUpSpawns(p: Trace, pid: Pid)
    ensures Spawns(p + [Spawned(pid)]) == Spawns(p) + 1 && Retries(p + [Spawned(pid)]) == Retries(p)
    ensures Spawns(p + [Spawned(pid), Reaped(pid)]) == Spawns(p) + 1 && Retries(p + [Spawned(pid), Reaped(pid)]) == Retries(p)
  {
    CountsExtended(p, Spawned(pid));
    CountsExtended(p + [Spawned(pid)], Reaped(pid));
    assert p + [Spawned(pid)] + [Reaped(pid)] == p + [Spawned(pid), Reaped(pid)];
    hide Spawns, Retries;
  }

  lemma AttemptedTrace(c: Config, s: View, automatic: bool, launch: Launch, now: nat)
    ensures var p := s.trace + [Prepared];
            Attempted(c, s, automatic, launch, now).trace
            == match launch
               case Refused => s.trace
               case NoProcess => p
               case Abandoned(pid, reaped) => p + (if reaped then [Spawned(pid), Reaped(pid)] else [Spawned(pid)])
               case Launched(pid) => p + [Spawned(pid)]
  {
    ScheduledTrace(c, Showing(s, Error), now);
    ScheduledTrace(c, Showing(Reset(s), Error), now);
    if launch.Abandoned? { ScheduledTrace(c, Showing(GivenUp(Reset(s), launch.pid, launch.reaped), Error), now); }
    hide Scheduled;
  }

  lemma AttemptedSpawns(c: Config, s: View, automatic: bool, launch: Launch, now: nat)
    ensures var t := Attempted(c, s, automatic, launch, now).trace;
            s.trace <= t && Spawns(t) <= Spawns(s.trace) + 1 && Retries(t) == Retries(s.trace)
  {
    AttemptedTrace(c, s, automatic, launch, now);
    CountsExtended(s.trace, Prepared);
    if launch.Launched? || launch.Abandoned? { GivenUpSpawns(s.trace + [Prepared], launch.pid); }
    hide Spawns, Retries, Attempted;
  }

  lemma RestartedPaid(c: Config, k: View, launch: Launch, now: nat)
    ensures Paid(k.trace, Restarted(c, k, launch, now).trace)
  {
    CountsExtended(k.trace, Retried);
    hide Spawns, Retries, Attempted;
    if RestartDue(k, now) { AttemptedSpawns(c, Restarting(k), true, launch, now); }
  }

  lemma DrainedQuiet(c: Config, v: View, messages: seq<Event>, now: nat)
    ensures Quiet(v.trace, Drained(c, v, messages, now).trace)
  {
    if v.engine.receiver {
      var acts := EventsAdd(Told(v.health, v.recovery, v.trace), c.workers, messages, now);
      var u := v.trace + acts;
      hide AfterEvents, SampledEvents, HeardThroughout, MetricsEvents;
      forall a | |v.trace| <= a < |u| ensures !u[a].Spawned? && !u[a].Retried? {
        assert u[a] == acts[a - |v.trace|] && CameFrom(u[a], messages, now);
      }
    }
  }

  lemma FinishedQuiet(c: Config, o: View, disconnected: bool, gone: bool, now: nat)
    ensures Quiet(o.trace, Finished(c, o, disconnected, gone, now).trace)
  {
    var l := if LossOver(o.engine, disconnected, now) then LossFinished(c, o, now) else o;
    var q := QuarantineEnded(l, gone);
    LossFinishedTrace(c, o, now);
    if q.engine.pendingExit.Some? { ExitFinishedTrace(c, q, q.engine.pendingExit.value, now); }
    hide LossFinished, ExitFinished;
  }

  lemma ObservedQuiet(d: View, look: Wait, reaped: bool, now: nat)
    ensures Quiet(d.trace, Observed(d, look, reaped, now).trace)
  {
  }

  lemma ReadersQuiet(f: View, hadReceiver: bool, ended: bool, now: nat)
    ensures Quiet(f.trace, ReadersChecked(f, hadReceiver, ended, now).trace)
  {
  }

  lemma RestedQuiet(w: View, now: nat, limit: nat)
    ensures Quiet(w.trace, Rested(w, now, limit).trace)
  {
  }

  lemma FramePaid(c: Config, v: View, frame: Frame)
    ensures Paid(v.trace, AfterFrame(c, v, frame).trace)
  {
    var now, disconnected := frame.now, !v.engine.receiver || frame.disconnected;
    var d := Drained(c, v, frame.messages, now);
    var o := Observed(d, frame.child, frame.reaped, now);
    var f := Finished(c, o, disconnected, frame.quarantineGone, now);
    var k := ReadersChecked(f, v.engine.receiver, disconnected || frame.readerFinished, now);
    var w := Restarted(c, k, frame.launch, now);
    hide Quiet, Paid, Drained, Observed, Finished, ReadersChecked, Restarted, Rested;
    DrainedQuiet(c, v, frame.messages, now);
    ObservedQuiet(d, frame.child, frame.reaped, now);
    FinishedQuiet(c, o, disconnected, frame.quarantineGone, now);
    ReadersQuiet(f, v.engine.receiver, disconnected || frame.readerFinished, now);
    QuietOnwards(v.trace, d.trace, o.trace);
    QuietOnwards(v.trace, o.trace, f.trace);
    QuietOnwards(v.trace, f.trace, k.trace);
    QuietIsPaid(v.trace, k.trace);
    RestartedPaid(c, k, frame.launch, now);
    RestedQuiet(w, now, StaleAfter(c));
    QuietIsPaid(w.trace, AfterFrame(c, v, frame).trace);
    PaidOnwards(v.trace, k.trace, w.trace);
    PaidOnwards(v.trace, w.trace, AfterFrame(c, v, frame).trace);
  }

  /** What the messages put on record stays there through the rest of the frame. */
  lemma FrameKeepsDrained(c: Config, v: View, frame: Frame)
    ensures v.trace <= Drained(c, v, frame.messages, frame.now).trace <= AfterFrame(c, v, frame).trace
  {
    var now, disconnected := frame.now, !v.engine.receiver || frame.disconnected;
    var d := Drained(c, v, frame.messages, now);
    var o := Observed(d, frame.child, frame.reaped, now);
    var f := Finished(c, o, disconnected, frame.quarantineGone, now);
    var k := ReadersChecked(f, v.engine.receiver, disconnected || frame.readerFinished, now);
    var w := Restarted(c, k, frame.launch, now);
    DrainedQuiet(c, v, frame.messages, now);
    ObservedQuiet(d, frame.child, frame.reaped, now);
    FinishedQuiet(c, o, disconnected, frame.quarantineGone, now);
    ReadersQuiet(f, v.engine.receiver, disconnected || frame.readerFinished, now);
    RestartedPaid(c, k, frame.launch, now);
    RestedQuiet(w, now, StaleAfter(c));
    hide Drained, Observed, Finished, ReadersChecked, Restarted, Rested, Spawns, Retries;
  }

  lemma StopQuiet(v: View, look: Wait, reaped: bool, killed: bool, now: nat)
    ensures Quiet(v.trace, AfterStop(v, look, reaped, killed, now).trace)
  {
  }

  lemma InputPaid(c: Config, v: View, input: Input)
    requires !input.OperatorStart?
    ensures Paid(v.trace, After(c, v, input).trace)
  {
    hide Paid, Quiet, AfterFrame, AfterStop;
    match input {
      case OperatorStop(look, reaped, killed, now) =>
        StopQuiet(v, look, reaped, killed, now);
        QuietIsPaid(v.trace, After(c, v, input).trace);
      case NextFrame(frame) => FramePaid(c, v, frame);
    }
  }

  lemma {:induction false} StretchPaid(c: Config, views: seq<View>, inputs: seq<Input>, i: nat, j: nat)
    requires Run(c, views, inputs) && i <= j < |views| && |views| == |inputs| + 1
    requires forall k | i <= k < j :: !inputs[k].OperatorStart?
    ensures Paid(views[i].trace, views[j].trace)
  {
    if i == j {
      QuietIsPaid(views[i].trace, views[i].trace);
    } else {
      hide *;
      StretchPaid(c, views, inputs, i, j - 1);
      RunStep(c, views, inputs, j - 1);
      InputPaid(c, views[j - 1], inputs[j - 1]);
      PaidOnwards(views[i].trace, views[j - 1].trace, views[j].trace);
    }
  }

  // ---------------------------------------------------------------- acts and their inputs

  lemma StepGrows(c: Config, views: seq<View>, inputs: seq<Input>, k: nat)
    requires Run(c, views, inputs) && k < |inputs|
    ensures |views| == |inputs| + 1 && views[k].trace <= views[k + 1].trace
  {
    hide *;
    RunStep(c, views, inputs, k);
    RunOk(c, views, inputs, k);
    StepCauses(c, views[k], inputs[k]);
    CausesGrow(c, views[k], inputs[k], views[k + 1].trace);
  }

  lemma {:induction false} TraceGrows(c: Config, views: seq<View>, inputs: seq<Input>, i: nat, j: nat)
    requires Run(c, views, inputs) && i <= j < |views|
    ensures views[i].trace <= views[j].trace
  {
    hide *;
    RunStarts(c, views, inputs);
    if i < j {
      TraceGrows(c, views, inputs, i, j - 1);
      StepGrows(c, views, inputs, j - 1);
      PrefixOnwards(views[i].trace, views[j - 1].trace, views[j].trace);
    }
  }

  lemma CausesGrow(c: Config, v: View, input: Input, u: Trace)
    requires Causes(c, v, input, v.trace, u)
    ensures v.trace <= u
  {
  }

  lemma PrefixOnwards(t: Trace, u: Trace, w: Trace)
    requires t <= u <= w
    ensures t <= w
  {
  }

  lemma LengthGrows(c: Config, views: seq<View>, inputs: seq<Input>, i: nat, j: nat)
    requires Run(c, views, inputs) && i <= j < |views|
    ensures |views[i].trace| <= |views[j].trace|
  {
    hide *;
    TraceGrows(c, views, inputs, i, j);
  }

  /** Act `a` of the trace happened during input `i`. */
  ghost predicate During(views: seq<View>, i: nat, a: nat)
    requires i + 1 < |views|
  {
    |views[i].trace| <= a < |views[i + 1].trace|
  }

  lemma {:induction false} SomeInput(views: seq<View>, i: nat, j: nat, a: nat) returns (k: nat)
    requires i <= j < |views| && |views[i].trace| <= a < |views[j].trace|
    ensures i <= k < j && During(views, k, a)
  {
    if a < |views[j - 1].trace| { k := SomeInput(views, i, j - 1, a); } else { k := j - 1; }
  }

  lemma EndsBefore(views: seq<View>, k: nat, a: nat)
    requires k + 1 < |views| && During(views, k, a)
    ensures a < |views[k + 1].trace|
  {
  }

  lemma PrefixAct(t: Trace, u: Trace, a: nat)
    requires t <= u && a < |t|
    ensures a < |u| && t[a] == u[a]
  {
  }

  /** What happened stays on record. */
  lemma ActStays(c: Config, views: seq<View>, inputs: seq<Input>, i: nat, j: nat, a: nat)
    requires Run(c, views, inputs) && i <= j < |views| && a < |views[i].trace|
    ensures a < |views[j].trace| && views[i].trace[a] == views[j].trace[a]
  {
    hide *;
    TraceGrows(c, views, inputs, i, j);
    PrefixAct(views[i].trace, views[j].trace, a);
  }

  /** The act at `a` is one that this input can cause. */
  ghost predicate CausedAt(c: Config, v: View, t: Trace, a: nat, input: Input) { a < |t| && CausedBy(c, v, t[a], input) }

  lemma CausedAlike(c: Config, v: View, t: Trace, u: Trace, a: nat, input: Input)
    requires CausedAt(c, v, t, a, input) && a < |u| && t[a] == u[a]
    ensures CausedAt(c, v, u, a, input)
  {
  }

  lemma InputCauses(c: Config, views: seq<View>, inputs: seq<Input>, k: nat, a: nat)
    requires Run(c, views, inputs) && k < |inputs| && |views| == |inputs| + 1 && During(views, k, a)
    ensures CausedAt(c, views[k], views[k + 1].trace, a, inputs[k])
  {
    hide Run, After, CausedBy, Good;
    RunStep(c, views, inputs, k);
    RunOk(c, views, inputs, k);
    StepCauses(c, views[k], inputs[k]);
  }

  /** Every act on record was caused by the input during which it happened. */
  lemma EveryActHasItsInput(c: Config, views: seq<View>, inputs: seq<Input>, i: nat, j: nat, a: nat) returns (k: nat)
    requires Run(c, views, inputs) && i <= j < |views| && |views[i].trace| <= a < |views[j].trace|
    ensures |views| == |inputs| + 1 && i <= k < j && During(views, k, a)
    ensures CausedAt(c, views[k], views[j].trace, a, inputs[k])
  {
    hide *;
    EveryStateIsSound(c, views, inputs, j);
    k := SomeInput(views, i, j, a);
    EndsBefore(views, k, a);
    ActStays(c, views, inputs, k + 1, j, a);
    InputCauses(c, views, inputs, k, a);
    CausedAlike(c, views[k], views[k + 1].trace, views[j].trace, a, inputs[k]);
  }

  // ---------------------------------------------------------------- main results: starting and stopping

  lemma StopIsOnRecord(c: Config, views: seq<View>, inputs: seq<Input>, i: nat, j: nat)
    requires Run(c, views, inputs) && i < j < |views| && i < |inputs| && inputs[i].OperatorStop?
    ensures |views[i].trace| < |views[j].trace| && views[j].trace[|views[i].trace|] == Ended
  {
    hide Run, After, Causes, Good;
    RunStep(c, views, inputs, i);
    RunOk(c, views, inputs, i);
    StepCauses(c, views[i], inputs[i]);
    var n := |views[i].trace|;
    assert (views[i].trace + [Ended])[n] == views[i + 1].trace[n];
    ActStays(c, views, inputs, i + 1, j, n);
  }

  /** A mark of the operator's start was made by one. */
  lemma BegunByTheOperator(c: Config, views: seq<View>, inputs: seq<Input>, i: nat, j: nat, b: nat) returns (k: nat)
    requires Run(c, views, inputs) && i <= j < |views| && |views[i].trace| <= b < |views[j].trace|
    requires views[j].trace[b].Begun?
    ensures |views| == |inputs| + 1 && i <= k < j && inputs[k].OperatorStart?
  {
    hide Run;
    k := EveryActHasItsInput(c, views, inputs, i, j, b);
  }

  lemma SoundTrace(v: View)
    requires Sound(v)
    ensures Safe(v.trace) && Unreaped(v.trace) == v.engine.Held()
  {
  }

  /** After the operator's stop nothing is started, automatically or otherwise, before an operator's start
      among the inputs. */
  lemma NothingStartsUntilTheOperatorStarts(c: Config, views: seq<View>, inputs: seq<Input>, i: nat, j: nat, a: nat)
    requires Run(c, views, inputs) && i < j < |views| && i < |inputs| && inputs[i].OperatorStop?
    requires |views[i].trace| <= a < |views[j].trace| && (views[j].trace[a].Retried? || views[j].trace[a].Spawned?)
    ensures |views| == |inputs| + 1 && exists k :: i < k < j && inputs[k].OperatorStart?
  {
    hide *;
    EveryStateIsSound(c, views, inputs, j);
    SoundTrace(views[j]);
    var t, e := views[j].trace, |views[i].trace|;
    StopIsOnRecord(c, views, inputs, i, j);
    NothingStartsAfterAStop(t, e, a);
    var b :| e < b < a && t[b].Begun?;
    var k := BegunByTheOperator(c, views, inputs, i, j, b);
    assert k != i;
  }

  /** As long as the operator does not start the miner, and metrics events do not prove hashing stable for
      five minutes, at most five engines are spawned: every automatic spawn belongs to a counted retry. */
  lemma AtMostFiveAutomaticStarts(c: Config, views: seq<View>, inputs: seq<Input>, i: nat, j: nat)
    requires Run(c, views, inputs) && i <= j < |views| && |views| == |inputs| + 1
    requires forall k | i <= k < j :: !inputs[k].OperatorStart?
    requires forall k | |views[i].trace| <= k < |views[j].trace| :: !FiveStableMinutes(views[j].trace[..k])
    ensures views[i].trace <= views[j].trace
    ensures var window := views[j].trace[|views[i].trace|..];
            Spawns(window) <= Retries(window) <= MAX_AUTOMATIC_ENGINE_RESTARTS
  {
    hide *;
    EveryStateIsSound(c, views, inputs, j);
    SoundTrace(views[j]);
    var t, e := views[j].trace, |views[i].trace|;
    TraceGrows(c, views, inputs, i, j);
    forall k | e <= k < |t| ensures !t[k].Begun? {
      if t[k].Begun? { var _ := BegunByTheOperator(c, views, inputs, i, j, k); }
    }
    AtMostFiveRetries(t, e, |t|);
    assert t[e..|t|] == t[e..];
    StretchPaid(c, views, inputs, i, j);
    WindowPaid(views[i].trace, t);
  }

  lemma WindowPaid(t: Trace, u: Trace)
    requires Paid(t, u)
    ensures Spawns(u[|t|..]) <= Retries(u[|t|..])
  {
    assert u == t + u[|t|..];
    CountsJoin(t, u[|t|..]);
    hide Spawns, Retries;
  }

  // ---------------------------------------------------------------- main results: no engine is lost

  /** An engine counts as gone only when the system's answers to an input proved it. */
  lemma EveryReapWasObserved(c: Config, views: seq<View>, inputs: seq<Input>, i: nat, j: nat, a: nat) returns (k: nat)
    requires Run(c, views, inputs) && i <= j < |views| && |views[i].trace| <= a < |views[j].trace| && views[j].trace[a].Reaped?
    ensures |views| == |inputs| + 1 && i <= k < j && ProvenGone(views[k], inputs[k], views[j].trace[a].pid)
  {
    hide Run, ProvenGone;
    k := EveryActHasItsInput(c, views, inputs, i, j, a);
  }

  /** A spawned engine that no answer of the system has proven gone since is still in hand. */
  lemma NoEngineIsLost(c: Config, views: seq<View>, inputs: seq<Input>, i: nat, j: nat, a: nat, pid: Pid)
    requires Run(c, views, inputs) && |views| == |inputs| + 1 && i <= j < |views|
    requires |views[i].trace| <= a < |views[j].trace| && views[j].trace[a] == Spawned(pid)
    requires forall k | i <= k < j :: !ProvenGone(views[k], inputs[k], pid)
    ensures pid in views[j].engine.Held()
  {
    hide *;
    EveryStateIsSound(c, views, inputs, j);
    SoundTrace(views[j]);
    var t := views[j].trace;
    forall n | a < n < |t| ensures t[n] != Reaped(pid) {
      if t[n] == Reaped(pid) { var _ := EveryReapWasObserved(c, views, inputs, i, j, n); }
    }
    StaysUnreaped(t, a, |t|, pid);
    assert t[..|t|] == t;
  }

  /** An engine is spawned only after answers of the system proved every earlier one gone. */
  lemma SpawnsWaitForTheSystem(c: Config, views: seq<View>, inputs: seq<Input>, i: nat, j: nat, a: nat, b: nat)
    requires Run(c, views, inputs) && i <= j < |views| && |views[i].trace| <= a < b < |views[j].trace|
    requires views[j].trace[a].Spawned? && views[j].trace[b].Spawned?
    ensures |views| == |inputs| + 1 && exists k :: i <= k < j && ProvenGone(views[k], inputs[k], views[j].trace[a].pid)
  {
    hide *;
    EveryStateIsSound(c, views, inputs, j);
    SoundTrace(views[j]);
    SpawnsWaitForTheReap(views[j].trace, a, b);
    var n :| a < n < b && views[j].trace[n] == Reaped(views[j].trace[a].pid);
    var k := EveryReapWasObserved(c, views, inputs, i, j, n);
  }

  predicate SpawnsIt(launch: Launch, pid: Pid) { (launch.Launched? || launch.Abandoned?) && launch.pid == pid }

  lemma FinishedHolds(c: Config, o: View, disconnected: bool, gone: bool, now: nat)
    ensures var f := Finished(c, o, disconnected, gone, now);
            f.engine.child == o.engine.child && f.engine.quarantined == if gone then None else o.engine.quarantined
  {
    var l := if LossOver(o.engine, disconnected, now) then LossFinished(c, o, now) else o;
    var q := QuarantineEnded(l, gone);
    LossFinishedTrace(c, o, now);
    if q.engine.pendingExit.Some? { ExitFinishedTrace(c, q, q.engine.pendingExit.value, now); }
    hide LossFinished, ExitFinished;
  }

  lemma ObservedHolds(c: Config, v: View, frame: Frame, pid: Pid)
    requires Good(v) && pid in v.engine.Held() && ProvenGone(v, NextFrame(frame), pid) && !SpawnsIt(frame.launch, pid)
    ensures var o := Observed(Drained(c, v, frame.messages, frame.now), frame.child, frame.reaped, frame.now);
            o.engine.child != Some(pid) && (frame.quarantineGone || o.engine.quarantined != Some(pid))
  {
    DrainedAdds(c, v, frame);
    ShapeFacts(v);
    hide Drained, Causes, Good;
  }

  lemma RestartedHolds(c: Config, k: View, launch: Launch, now: nat, pid: Pid)
    requires pid !in k.engine.Held() && !SpawnsIt(launch, pid)
    ensures pid !in Restarted(c, k, launch, now).engine.Held()
  {
    var s := Restarting(k);
    ScheduledTrace(c, Showing(s, Error), now);
    ScheduledTrace(c, Showing(Reset(s), Error), now);
    if launch.Abandoned? { ScheduledTrace(c, Showing(GivenUp(Reset(s), launch.pid, launch.reaped), Error), now); }
    hide Scheduled;
  }

  lemma LateKeepsHeld(v: View, hadReceiver: bool, ended: bool, now: nat, limit: nat)
    ensures ReadersChecked(v, hadReceiver, ended, now).engine.Held() == v.engine.Held()
    ensures Rested(v, now, limit).engine.Held() == v.engine.Held()
  {
  }

  lemma FrameLetsGo(c: Config, v: View, frame: Frame, pid: Pid)
    requires Good(v) && pid in v.engine.Held() && ProvenGone(v, NextFrame(frame), pid) && !SpawnsIt(frame.launch, pid)
    ensures pid !in AfterFrame(c, v, frame).engine.Held()
  {
    hide *;
    var o, f, k, w := FrameParts(c, v, frame);
    ObservedHolds(c, v, frame, pid);
    FinishedHolds(c, o, !v.engine.receiver || frame.disconnected, frame.quarantineGone, frame.now);
    assert pid !in f.engine.Held() by { NotHeld(f.engine, pid); }
    LateKeepsHeld(f, v.engine.receiver, !v.engine.receiver || frame.disconnected || frame.readerFinished, frame.now, 0);
    RestartedHolds(c, k, frame.launch, frame.now, pid);
    LateKeepsHeld(w, true, true, frame.now, StaleAfter(c));
  }

  lemma NotHeld(e: Engine, pid: Pid)
    requires e.child != Some(pid) && e.quarantined != Some(pid)
    ensures pid !in e.Held()
  {
  }

  /** And the converse of `NoEngineIsLost`: in every reachable state, a process that the answers to an input prove
      gone is not in hand afterwards, unless that very input spawned one of its number. */
  lemma ProvenGoneIsLetGo(c: Config, v: View, input: Input, pid: Pid)
    requires Good(v) && pid in v.engine.Held() && ProvenGone(v, input, pid) && !SpawnsIt(LaunchOf(input), pid)
    ensures pid !in After(c, v, input).engine.Held()
  {
    match input {
      case OperatorStart(_, _) =>
      case OperatorStop(_, _, _, _) => OperatorStops(c, v, input);
      case NextFrame(frame) => FrameLetsGo(c, v, frame, pid);
    }
    hide Good, AfterStart, AfterStop, AfterFrame;
  }

  // ---------------------------------------------------------------- main results: recovery goes on

  /** Recovery is wanted, and not spent. */
  predicate Recoverable(r: Recovery) {
    r.enabled && !r.requestedStop && r.attempts < MAX_AUTOMATIC_ENGINE_RESTARTS
  }

  lemma RecoverableIsScheduled(c: Config, v: View, now: nat)
    requires Recoverable(v.recovery)
    ensures var w := Scheduled(c, v, now);
            && w.recovery.restartAt == Some(now + Delay(v.recovery.attempts + 1)) && w.health.phase == Reconnecting
            && w.engine == v.engine && (c.windows ==> w.recovery.singleWorker)
  {
    hide Delay;
  }

  lemma ExitIsScheduled(c: Config, v: View, exit: Exit, now: nat)
    requires Recoverable(v.recovery) && !(c.windows && exit.escalation.Terminal?)
    ensures var w := ExitFinished(c, v, exit, now);
            && w.recovery.restartAt == Some(now + Delay(v.recovery.attempts + 1)) && w.health.phase == Reconnecting
            && w.engine.child == v.engine.child
  {
    var w := Closed(v.(engine := v.engine.(pendingExit := None), health := v.health.(canRestore := false)));
    RecoverableIsScheduled(c, w.(recovery := Escalated(c, w.recovery, exit.escalation)), now);
    hide Delay, Scheduled;
  }

  lemma LossIsScheduled(c: Config, v: View, now: nat)
    requires Recoverable(v.recovery)
    ensures var w := LossFinished(c, v, now);
            && w.recovery.restartAt == Some(now + Delay(v.recovery.attempts + 1)) && w.health.phase == Reconnecting
            && w.engine.child == v.engine.child && w.engine.pendingExit == v.engine.pendingExit
            && (c.windows ==> w.recovery.singleWorker)
  {
    RecoverableIsScheduled(c, Closed(v.(engine := v.engine.(pendingLoss := None))), now);
    hide Delay, Scheduled;
  }

  /** A restart announced by a frame waits for a later one. */
  lemma RestOfFrame(c: Config, f: View, hadReceiver: bool, ended: bool, launch: Launch, now: nat)
    requires f.engine.child == None && (f.recovery.restartAt.Some? ==> f.recovery.restartAt.value > now)
    ensures var w := Rested(Restarted(c, ReadersChecked(f, hadReceiver, ended, now), launch, now), now, StaleAfter(c));
            w.recovery == f.recovery && w.health.phase == f.health.phase && w.engine == f.engine.(disconnectedAt := w.engine.disconnectedAt)
  {
    hide Attempted;
  }

  /** A frame in which the output of an exited engine ends finishes the exit, and nothing more. */
  lemma ExitFrame(c: Config, v: View, frame: Frame)
    requires Good(v) && v.engine.pendingExit.Some? && frame.disconnected
    ensures var d, w := Drained(c, v, frame.messages, frame.now), AfterFrame(c, v, frame);
            var q := QuarantineEnded(d, frame.quarantineGone);
            var f := ExitFinished(c, q, v.engine.pendingExit.value, frame.now);
            && d.recovery.restartAt == None && q.recovery == d.recovery && q.health == d.health
            && w.recovery == f.recovery && w.health.phase == f.health.phase
  {
    var d, now := Drained(c, v, frame.messages, frame.now), frame.now;
    DrainedOk(c, v, frame.messages, now);
    DrainingFacts(d);
    var q := QuarantineEnded(d, frame.quarantineGone);
    ExitFinishedTrace(c, q, d.engine.pendingExit.value, now);
    hide Good, Drained, ExitFinished, LossFinished, ReadersChecked, Restarted, Rested;
    var f := Finished(c, d, true, frame.quarantineGone, now);
    assert Observed(d, frame.child, frame.reaped, now) == d;
    assert f == ExitFinished(c, q, d.engine.pendingExit.value, now);
    RestOfFrame(c, f, v.engine.receiver, true, frame.launch, now);
  }

  /** A frame in which the output of an exited engine ends schedules the next start, a doubling delay away,
      whenever recovery is wanted and not spent, and the exit is not beyond repair. */
  lemma RecoverableExitsAreScheduled(c: Config, v: View, frame: Frame)
    requires Good(v) && v.engine.pendingExit.Some? && frame.disconnected
    requires var exit := v.engine.pendingExit.value; !(c.windows && exit.escalation.Terminal?)
    requires Recoverable(Drained(c, v, frame.messages, frame.now).recovery)
    ensures var d, w := Drained(c, v, frame.messages, frame.now), AfterFrame(c, v, frame);
            w.recovery.restartAt == Some(frame.now + Delay(d.recovery.attempts + 1)) && w.health.phase == Reconnecting
  {
    hide *;
    var q := QuarantineEnded(Drained(c, v, frame.messages, frame.now), frame.quarantineGone);
    ExitFrame(c, v, frame);
    ExitIsScheduled(c, q, v.engine.pendingExit.value, frame.now);
  }

  /** So does a frame in which a lost engine's output ends or its grace is over. */
  lemma RecoverableLossesAreScheduled(c: Config, v: View, frame: Frame)
    requires Good(v) && v.engine.pendingLoss.Some? && (frame.disconnected || frame.now >= v.engine.pendingLoss.value)
    requires Recoverable(v.recovery)
    ensures var w := AfterFrame(c, v, frame);
            && w.recovery.restartAt == Some(frame.now + Delay(v.recovery.attempts + 1)) && w.health.phase == Reconnecting
            && (c.windows ==> Effective(w.recovery, c.workers) == 1)
  {
    var now, disconnected := frame.now, !v.engine.receiver || frame.disconnected;
    DrainingFacts(v);
    DeafDrained(c, v, frame.messages, now);
    LossIsScheduled(c, v, now);
    var l := LossFinished(c, v, now);
    var f := Finished(c, v, disconnected, frame.quarantineGone, now);
    hide Good, Drained, ExitFinished, LossFinished, ReadersChecked, Restarted, Rested, Recoverable, Delay;
    assert Observed(v, frame.child, frame.reaped, now) == v;
    assert f == QuarantineEnded(l, frame.quarantineGone);
    assert Delay(v.recovery.attempts + 1) > 0;
    RestOfFrame(c, f, v.engine.receiver, disconnected || frame.readerFinished, frame.launch, now);
  }

  /** What an exit that was not asked for leaves of recovery: where it cannot go on, an error and nothing announced;
      and on Windows the tier of the next start, one worker from then on, in light memory if the exit calls
      for it. */
  lemma ExitDecides(c: Config, q: View, exit: Exit, now: nat)
    requires q.recovery.restartAt == None && !(q.recovery.requestedStop && !q.health.fatal && exit.asRequested)
    ensures var w, final := ExitFinished(c, q, exit, now), c.windows && exit.escalation.Terminal?;
            && w.recovery.light == (q.recovery.light || (c.windows && exit.escalation.Light?))
            && w.recovery.singleWorker == (q.recovery.singleWorker || (c.windows && !final))
            && (final || !Recoverable(q.recovery) ==> w.health.phase == Error && w.recovery.restartAt == None)
            && (final || (!Recoverable(q.recovery) && !q.recovery.requestedStop) ==> !w.recovery.enabled)
  {
    hide Delay;
  }

  /** An exit that was not asked for, in every reachable state: it announces no restart where recovery cannot go on,
      and sets the tier of what follows. */
  lemma UnrecoverableExitsEndInError(c: Config, v: View, frame: Frame)
    requires Good(v) && v.engine.pendingExit.Some? && frame.disconnected
    requires var d := Drained(c, v, frame.messages, frame.now);
             !(d.recovery.requestedStop && !d.health.fatal && v.engine.pendingExit.value.asRequested)
    ensures var r, w := Drained(c, v, frame.messages, frame.now).recovery, AfterFrame(c, v, frame);
            var escalation := v.engine.pendingExit.value.escalation;
            var final := c.windows && escalation.Terminal?;
            && w.recovery.light == (r.light || (c.windows && escalation.Light?))
            && w.recovery.singleWorker == (r.singleWorker || (c.windows && !final))
            && (final || !Recoverable(r) ==> w.health.phase == Error && w.recovery.restartAt == None)
            && (final || (!Recoverable(r) && !r.requestedStop) ==> !w.recovery.enabled)
  {
    ExitFrame(c, v, frame);
    hide Good, Drained, AfterFrame, ExitFinished, QuarantineEnded, Recoverable;
    var d := Drained(c, v, frame.messages, frame.now);
    ExitDecides(c, QuarantineEnded(d, frame.quarantineGone), v.engine.pendingExit.value, frame.now);
  }

  /** An engine seen to have exited is let go, its link is down, and its exit waits for the end of its output. */
  lemma ExitsWaitForTheOutput(c: Config, v: View, frame: Frame)
    requires Good(v) && v.engine.child.Some? && frame.child.Exited? && !frame.disconnected
    ensures var w := AfterFrame(c, v, frame);
            && w.engine.pendingExit == Some(frame.child.exit) && w.engine.child == None && w.engine.quarantined == None
            && w.engine.receiver && !w.health.nodeLinkLive && w.recovery.restartAt == None
            && (w.health.fatal <==> v.health.fatal || EngineFatal in frame.messages)
  {
    var d, now := Drained(c, v, frame.messages, frame.now), frame.now;
    DrainedOk(c, v, frame.messages, now);
    RunningFacts(d);
    RunningHears(c, v, frame);
    hide Good, Drained, Attempted, ReadersChecked, Restarted, Rested, LossFinished, ExitFinished;
    var o := Observed(d, frame.child, frame.reaped, now);
    assert Finished(c, o, false, frame.quarantineGone, now) == o;
    RestOfFrame(c, o, v.engine.receiver, frame.readerFinished, frame.launch, now);
    RestKeepsHealth(c, o, v.engine.receiver, frame.readerFinished, frame.launch, now);
  }

  /** An engine that can no longer be observed counts as failed, is held unless it was reaped, and has two seconds
      for the rest of its output. */
  lemma LossesDrainTwoSeconds(c: Config, v: View, frame: Frame)
    requires Good(v) && v.engine.child.Some? && frame.child.Unobservable? && !frame.disconnected
    ensures var w := AfterFrame(c, v, frame);
            && w.engine.pendingLoss == Some(frame.now + 2_000) && w.engine.child == None && w.engine.receiver
            && w.engine.quarantined == (if frame.reaped || frame.quarantineGone then None else v.engine.child)
            && w.health.fatal && w.health.phase == Error && w.recovery.restartAt == None && !w.recovery.requestedStop
  {
    var d, now := Drained(c, v, frame.messages, frame.now), frame.now;
    DrainedOk(c, v, frame.messages, now);
    RunningFacts(d);
    hide Good, Drained, Attempted, ReadersChecked, Restarted, Rested, LossFinished, ExitFinished;
    var o := Observed(d, frame.child, frame.reaped, now);
    var f := Finished(c, o, false, frame.quarantineGone, now);
    assert o == Lost(d, frame.reaped, now);
    assert f == QuarantineEnded(o, frame.quarantineGone);
    RestOfFrame(c, f, v.engine.receiver, frame.readerFinished, frame.launch, now);
    RestKeepsHealth(c, f, v.engine.receiver, frame.readerFinished, frame.launch, now);
  }

  lemma RestKeepsHealth(c: Config, f: View, hadReceiver: bool, ended: bool, launch: Launch, now: nat)
    requires f.engine.child == None && f.recovery.restartAt == None
    ensures var w := Rested(Restarted(c, ReadersChecked(f, hadReceiver, ended, now), launch, now), now, StaleAfter(c));
            w.health.fatal == f.health.fatal && w.health.nodeLinkLive == f.health.nodeLinkLive
  {
    hide Attempted;
  }

  /** A fatally failed engine is not heard. */
  lemma {:induction false} DeafDrained(c: Config, v: View, messages: seq<Event>, now: nat)
    requires v.health.fatal
    ensures Drained(c, v, messages, now) == v
  {
    if messages != [] { DeafDrained(c, v, messages[..|messages| - 1], now); }
    hide AfterEvent;
  }

  /** The engine was asked to stop, and is on its way out as asked. */
  ghost predicate Leaving(v: View) {
    && Good(v) && v.recovery.requestedStop && !v.health.fatal && v.engine.quarantined == None && v.recovery.restartAt == None
    && (v.engine.child.Some? || (v.engine.pendingExit.Some? && v.engine.pendingExit.value.asRequested))
  }

  /** Nothing is running, and nothing is going to. */
  ghost predicate AtRest(v: View) {
    Good(v) && v.health.phase == Idle && !v.engine.Live() && v.recovery.restartAt == None
  }

  /** A frame in which an engine that was asked to stop does as it was asked. */
  predicate GoesQuietly(frame: Frame) {
    EngineFatal !in frame.messages && (frame.child.Running? || (frame.child.Exited? && frame.child.exit.asRequested))
  }

  lemma LeavingHears(c: Config, v: View, frame: Frame)
    requires Leaving(v) && GoesQuietly(frame)
    ensures Leaving(Drained(c, v, frame.messages, frame.now)) && Drained(c, v, frame.messages, frame.now).engine == v.engine
  {
    var _ := EventsAdd(Told(v.health, v.recovery, v.trace), c.workers, frame.messages, frame.now);
    DrainedOk(c, v, frame.messages, frame.now);
    hide AfterEvents, AllCameFrom, SampledEvents, MetricsEvents, Good;
  }

  lemma LeavingObserved(v: View, frame: Frame)
    requires Leaving(v) && GoesQuietly(frame)
    ensures var o := Observed(v, frame.child, frame.reaped, frame.now);
            && Leaving(o) && o.engine.pendingLoss == None && o.engine.receiver
            && (o.engine.pendingExit.Some? <==> v.engine.pendingExit.Some? || frame.child.Exited?)
            && (o.engine.child.Some? <==> o.engine.pendingExit == None)
  {
    ObservedOk(v, frame.child, frame.reaped, frame.now);
    DrainingFacts(v);
    DrainingFacts(Observed(v, frame.child, frame.reaped, frame.now));
    hide Good;
  }

  lemma LeavingFinished(c: Config, o: View, disconnected: bool, gone: bool, now: nat)
    requires Leaving(o) && o.engine.pendingLoss == None
    ensures var f := Finished(c, o, disconnected, gone, now);
            if disconnected && o.engine.pendingExit.Some? then f == ExitFinished(c, o, o.engine.pendingExit.value, now) else f == o
  {
    hide Good, ExitFinished, LossFinished;
  }

  lemma LeavingReaders(c: Config, o: View, hadReceiver: bool, ended: bool, launch: Launch, now: nat)
    requires Leaving(o)
    ensures Leaving(Rested(Restarted(c, ReadersChecked(o, hadReceiver, ended, now), launch, now), now, StaleAfter(c)))
  {
    var k := ReadersChecked(o, hadReceiver, ended, now);
    ReadersCheckedOk(o, hadReceiver, ended, now);
    RestedOk(k, now, StaleAfter(c));
    assert Restarted(c, k, launch, now) == k;
    hide Good, Restarted;
  }

  lemma ExitLeavesIdle(c: Config, o: View, exit: Exit, now: nat)
    requires Leaving(o) && o.engine.pendingExit == Some(exit) && o.engine.pendingLoss == None && o.engine.child == None
    ensures exit.asRequested && AtRest(ExitFinished(c, o, exit, now))
  {
    ExitFinishedOk(c, o, exit, now);
    hide Good, Scheduled;
  }

  lemma RestGoesOn(c: Config, f: View, hadReceiver: bool, ended: bool, launch: Launch, now: nat)
    requires AtRest(f)
    ensures AtRest(Rested(Restarted(c, ReadersChecked(f, hadReceiver, ended, now), launch, now), now, StaleAfter(c)))
  {
    ReadersCheckedOk(f, hadReceiver, ended, now);
    RestedOk(ReadersChecked(f, hadReceiver, ended, now), now, StaleAfter(c));
    hide Good, Attempted;
  }

  lemma LeavingFrame(c: Config, v: View, frame: Frame)
    requires Leaving(v) && GoesQuietly(frame)
    ensures var w := AfterFrame(c, v, frame);
            if frame.disconnected && (v.engine.pendingExit.Some? || frame.child.Exited?) then AtRest(w) else Leaving(w)
  {
    var now := frame.now;
    LeavingHears(c, v, frame);
    var d := Drained(c, v, frame.messages, now);
    LeavingObserved(d, frame);
    var o := Observed(d, frame.child, frame.reaped, now);
    assert v.engine.receiver;
    hide Leaving, AtRest, GoesQuietly, Drained, Observed, Finished, ReadersChecked, Restarted, Rested, ExitFinished;
    LeavingFinished(c, o, frame.disconnected, frame.quarantineGone, now);
    var ended := frame.disconnected || frame.readerFinished;
    if frame.disconnected && o.engine.pendingExit.Some? {
      ExitLeavesIdle(c, o, o.engine.pendingExit.value, now);
      RestGoesOn(c, ExitFinished(c, o, o.engine.pendingExit.value, now), v.engine.receiver, ended, frame.launch, now);
    } else {
      LeavingReaders(c, o, v.engine.receiver, ended, frame.launch, now);
    }
  }

  lemma RestingFrame(c: Config, v: View, frame: Frame)
    requires AtRest(v)
    ensures AtRest(AfterFrame(c, v, frame))
  {
    RestingFacts(v);
    assert Drained(c, v, frame.messages, frame.now) == v;
    hide Drained, Good, Rested, Restarted, ReadersChecked;
    RestGoesOn(c, v, false, true, frame.launch, frame.now);
  }

  lemma RestingFacts(v: View)
    requires AtRest(v)
    ensures !v.engine.receiver
  {
    hide Safe, Recall;
  }

  lemma AskedToLeave(v: View, reaped: bool, now: nat)
    requires Good(v) && v.engine.child.Some? && !v.health.fatal
    ensures Leaving(AfterStop(v, Running, reaped, true, now))
  {
    AfterStopOk(v, Running, reaped, true, now);
    RunningFacts(v);
    hide Good;
  }

  /** The operator's stop of a running engine is the end of it: as long as the engine does as asked, it is on
      its way out, and from the frame on that sees its exit and the end of its output, the miner is idle,
      and nothing runs or is scheduled until the operator asks again. */
  lemma {:induction false} StopsEndInIdle(c: Config, views: seq<View>, inputs: seq<Input>, i: nat, j: nat)
    requires Run(c, views, inputs) && |views| == |inputs| + 1 && i < j < |views|
    requires inputs[i].OperatorStop? && inputs[i].look.Running? && inputs[i].killed
    requires views[i].engine.child.Some? && !views[i].health.fatal
    requires forall k | i < k < j :: inputs[k].NextFrame? && GoesQuietly(inputs[k].frame)
    ensures if exists k :: i < k < j && inputs[k].frame.disconnected && (views[k].engine.pendingExit.Some? || inputs[k].frame.child.Exited?)
            then AtRest(views[j]) else Leaving(views[j])
  {
    hide *;
    RunStep(c, views, inputs, j - 1);
    if i == j - 1 {
      RunOk(c, views, inputs, i);
      AskedToLeave(views[i], inputs[i].reaped, inputs[i].now);
      StopIs(c, views[i], inputs[i]);
    } else {
      StopsEndInIdle(c, views, inputs, i, j - 1);
      FrameIs(c, views[j - 1], inputs[j - 1]);
      if exists k :: i < k < j - 1 && inputs[k].frame.disconnected && (views[k].engine.pendingExit.Some? || inputs[k].frame.child.Exited?) {
        RestingFrame(c, views[j - 1], inputs[j - 1].frame);
      } else {
        LeavingFrame(c, views[j - 1], inputs[j - 1].frame);
      }
    }
  }

  lemma StopIs(c: Config, v: View, input: Input)
    requires input.OperatorStop?
    ensures After(c, v, input) == AfterStop(v, input.look, input.reaped, input.killed, input.now)
  {
    hide AfterStop;
  }

  lemma FrameIs(c: Config, v: View, input: Input)
    requires input.NextFrame?
    ensures After(c, v, input) == AfterFrame(c, v, input.frame)
  {
    hide AfterFrame;
  }

  lemma RunningParts(c: Config, v: View, frame: Frame)
    requires Good(v) && v.engine.child.Some? && frame.child.Running?
    ensures var d, ended := Drained(c, v, frame.messages, frame.now), frame.disconnected || frame.readerFinished;
            && AfterFrame(c, v, frame) == Rested(ReadersChecked(d, true, ended, frame.now), frame.now, StaleAfter(c))
            && d.engine == v.engine && d.engine.pendingExit == None
  {
    var d, ended := Drained(c, v, frame.messages, frame.now), frame.disconnected || frame.readerFinished;
    DrainedOk(c, v, frame.messages, frame.now);
    RunningFacts(d);
    hide Good, Drained, Attempted, ExitFinished, LossFinished, Rested;
    assert Finished(c, d, frame.disconnected, frame.quarantineGone, frame.now) == d;
    var k := ReadersChecked(d, true, ended, frame.now);
    assert k.recovery == d.recovery;
    hide ReadersChecked;
    assert Restarted(c, k, frame.launch, frame.now) == k;
  }

  lemma RunningHears(c: Config, v: View, frame: Frame)
    requires Good(v) && v.engine.child.Some?
    ensures var d := Drained(c, v, frame.messages, frame.now);
            && d.recovery == v.recovery.(attempts := d.recovery.attempts)
            && (d.health.fatal <==> v.health.fatal || EngineFatal in frame.messages)
  {
    RunningFacts(v);
    var _ := EventsAdd(Told(v.health, v.recovery, v.trace), c.workers, frame.messages, frame.now);
    hide AfterEvents, AllCameFrom, SampledEvents, MetricsEvents, Good;
  }

  /** An engine that runs on stays in hand, and counts as failed exactly if it did, or says so, or its output ended
      half a second ago or more without its being asked to stop; when the output ended is remembered until it
      is there again. */
  lemma UnreadEnginesFail(c: Config, v: View, frame: Frame)
    requires Good(v) && v.engine.child.Some? && frame.child.Running?
    ensures var w, ended := AfterFrame(c, v, frame), frame.disconnected || frame.readerFinished;
            var since := if v.engine.disconnectedAt == None then frame.now else v.engine.disconnectedAt.value;
            && w.engine == v.engine.(disconnectedAt := if ended then Some(since) else None)
            && (w.health.fatal <==> || v.health.fatal || EngineFatal in frame.messages
                                    || (ended && frame.now >= since + 500 && !v.recovery.requestedStop))
  {
    RunningParts(c, v, frame);
    RunningHears(c, v, frame);
    hide Good, Drained, AfterFrame;
  }

  /** The operator's start, unless something is running or announced, fills the budget, lifts every restriction of
      an earlier recovery, and leaves in hand what the launch left. A launch that did not succeed is final. */
  lemma OperatorStarts(c: Config, v: View, launch: Launch, now: nat)
    requires Good(v)
    ensures var w := AfterStart(c, v, launch, now);
            if InUse(v) then w == v
            else && w.recovery.enabled && w.recovery.attempts == 0 && w.recovery.restartAt == None
                 && Effective(w.recovery, c.workers) == c.workers && !w.recovery.light
                 && w.engine.child == (if launch.Launched? then Some(launch.pid) else None)
                 && w.engine.quarantined == (if launch.Abandoned? && !launch.reaped then Some(launch.pid) else None)
                 && w.engine.disconnectedAt == None && w.health.phase == (if launch.Launched? then Starting else Error)
                 && (launch.Launched? ==> !w.recovery.requestedStop && !w.health.fatal && w.health.ready == {} == w.health.failed)
  {
    if !InUse(v) {
      BeginOk(v);
      ClearFacts(Begin(v));
    }
    hide Good, StartsNow;
  }

  /** The operator's stop, whatever the system answers: recovery is off and nothing is announced, and what was in
      hand is let go only as far as it is proven gone. */
  lemma OperatorStops(c: Config, v: View, input: Input)
    requires Good(v) && input.OperatorStop?
    ensures var w := After(c, v, input);
            && !w.recovery.enabled && w.recovery.restartAt == None
            && (v.recovery.restartAt.Some? ==> w.recovery.attempts == 0)
            && w.engine.Held() == set pid | pid in v.engine.Held() && !ProvenGone(v, input, pid)
            && (v.engine.child.Some? && input.look.Running? ==>
                  && !w.health.nodeLinkLive && !w.health.canRestore
                  && if input.killed then w.recovery.requestedStop && w.health.phase == Stopping else w.health.fatal && w.health.phase == Error)
            && (v.engine.child == None && v.engine.Draining() ==> w.health.phase == Stopping && w.engine.Draining())
            && (v.engine.child == None && !v.engine.Draining() && w.engine.quarantined == None ==> AtRest(w))
  {
    AfterOk(c, v, input);
    StopHolds(c, v, input);
    StopTurnsOff(c, v, input);
    hide Good, After, ProvenGone;
  }

  lemma StopTurnsOff(c: Config, v: View, input: Input)
    requires Good(v) && input.OperatorStop?
    ensures var w := After(c, v, input);
            && !w.recovery.enabled && w.recovery.restartAt == None && (v.recovery.restartAt.Some? ==> w.recovery.attempts == 0)
            && (v.engine.child.Some? && input.look.Running? ==>
                  && !w.health.nodeLinkLive && !w.health.canRestore
                  && if input.killed then w.recovery.requestedStop && w.health.phase == Stopping else w.health.fatal && w.health.phase == Error)
            && (v.engine.child == None && v.engine.Draining() ==> w.health.phase == Stopping && w.engine.Draining())
            && (v.engine.child == None && !v.engine.Draining() && w.engine.quarantined == None ==>
                  w.health.phase == Idle && !w.engine.Live())
  {
    ShapeFacts(v);
    hide Good;
  }

  lemma StopHandles(c: Config, v: View, input: Input)
    requires Good(v) && input.OperatorStop?
    ensures var e, w := v.engine, After(c, v, input).engine;
            && Shaped(e)
            && w.child == (if input.look.Running? then e.child else None)
            && w.quarantined == if e.child == None then (if input.reaped then None else e.quarantined)
                                else if input.look.Unobservable? && !input.reaped then e.child else None
  {
    ShapeFacts(v);
    hide Good;
  }

  lemma StopHolds(c: Config, v: View, input: Input)
    requires Good(v) && input.OperatorStop?
    ensures After(c, v, input).engine.Held() == set pid | pid in v.engine.Held() && !ProvenGone(v, input, pid)
  {
    StopHandles(c, v, input);
    hide Good, After;
  }

  lemma ShapeFacts(v: View)
    requires Good(v)
    ensures Shaped(v.engine)
  {
    hide Safe, Recall;
  }

  /** How recovery may change without the operator's start: what is off stays off, restrictions are only added,
      and only on Windows. */
  predicate GoesOn(c: Config, r: Recovery, q: Recovery) {
    && (!r.enabled && r.restartAt == None ==> !q.enabled && q.restartAt == None)
    && (r.light ==> q.light) && (r.singleWorker ==> q.singleWorker)
    && (!c.windows ==> q.light == r.light && q.singleWorker == r.singleWorker)
  }

  lemma GoesOnAndOn(c: Config, r: Recovery, q: Recovery, p: Recovery)
    requires GoesOn(c, r, q) && GoesOn(c, q, p)
    ensures GoesOn(c, r, p)
  {
  }

  lemma ScheduledGoesOn(c: Config, v: View, now: nat)
    ensures GoesOn(c, v.recovery, Scheduled(c, v, now).recovery)
  {
    hide Delay;
  }

  lemma FinishedGoesOn(c: Config, o: View, disconnected: bool, gone: bool, now: nat)
    ensures GoesOn(c, o.recovery, Finished(c, o, disconnected, gone, now).recovery)
  {
    var l := if LossOver(o.engine, disconnected, now) then LossFinished(c, o, now) else o;
    var q := QuarantineEnded(l, gone);
    ScheduledGoesOn(c, Closed(o.(engine := o.engine.(pendingLoss := None))), now);
    if q.engine.pendingExit.Some? {
      var exit := q.engine.pendingExit.value;
      var w := Closed(q.(engine := q.engine.(pendingExit := None), health := q.health.(canRestore := false)));
      ScheduledGoesOn(c, w.(recovery := Escalated(c, w.recovery, exit.escalation)), now);
    }
    hide Scheduled;
  }

  lemma RestartedGoesOn(c: Config, k: View, launch: Launch, now: nat)
    ensures GoesOn(c, k.recovery, Restarted(c, k, launch, now).recovery)
  {
    var s := Restarting(k);
    ScheduledGoesOn(c, Showing(s, Error), now);
    ScheduledGoesOn(c, Showing(Reset(s), Error), now);
    if launch.Abandoned? { ScheduledGoesOn(c, Showing(GivenUp(Reset(s), launch.pid, launch.reaped), Error), now); }
    hide Scheduled;
  }

  lemma EarlyGoesOn(c: Config, v: View, frame: Frame)
    ensures var d := Drained(c, v, frame.messages, frame.now);
            GoesOn(c, v.recovery, Observed(d, frame.child, frame.reaped, frame.now).recovery)
  {
    DrainedAdds(c, v, frame);
    hide Drained, Causes;
  }

  lemma LateKeepsRecovery(v: View, hadReceiver: bool, ended: bool, now: nat, limit: nat)
    ensures ReadersChecked(v, hadReceiver, ended, now).recovery == v.recovery
    ensures Rested(v, now, limit).recovery == v.recovery
  {
  }

  /** The parts of a frame, one after the other. */
  lemma FrameParts(c: Config, v: View, frame: Frame) returns (o: View, f: View, k: View, w: View)
    ensures o == Observed(Drained(c, v, frame.messages, frame.now), frame.child, frame.reaped, frame.now)
    ensures f == Finished(c, o, !v.engine.receiver || frame.disconnected, frame.quarantineGone, frame.now)
    ensures k == ReadersChecked(f, v.engine.receiver, !v.engine.receiver || frame.disconnected || frame.readerFinished, frame.now)
    ensures w == Restarted(c, k, frame.launch, frame.now) && AfterFrame(c, v, frame) == Rested(w, frame.now, StaleAfter(c))
  {
    o := Observed(Drained(c, v, frame.messages, frame.now), frame.child, frame.reaped, frame.now);
    f := Finished(c, o, !v.engine.receiver || frame.disconnected, frame.quarantineGone, frame.now);
    k := ReadersChecked(f, v.engine.receiver, !v.engine.receiver || frame.disconnected || frame.readerFinished, frame.now);
    w := Restarted(c, k, frame.launch, frame.now);
    hide Drained, Observed, Finished, ReadersChecked, Restarted, Rested;
  }

  lemma FrameGoesOn(c: Config, v: View, frame: Frame)
    ensures GoesOn(c, v.recovery, AfterFrame(c, v, frame).recovery)
  {
    hide *;
    var o, f, k, w := FrameParts(c, v, frame);
    EarlyGoesOn(c, v, frame);
    FinishedGoesOn(c, o, !v.engine.receiver || frame.disconnected, frame.quarantineGone, frame.now);
    LateKeepsRecovery(f, v.engine.receiver, !v.engine.receiver || frame.disconnected || frame.readerFinished, frame.now, 0);
    RestartedGoesOn(c, k, frame.launch, frame.now);
    LateKeepsRecovery(w, true, true, frame.now, StaleAfter(c));
    GoesOnAndOn(c, v.recovery, o.recovery, f.recovery);
    GoesOnAndOn(c, v.recovery, f.recovery, w.recovery);
  }

  lemma InputGoesOn(c: Config, v: View, input: Input)
    requires !input.OperatorStart?
    ensures GoesOn(c, v.recovery, After(c, v, input).recovery)
  {
    if input.NextFrame? { FrameGoesOn(c, v, input.frame); }
    hide AfterFrame;
  }

  /** Until the operator starts the miner again, recovery that was stopped stays off, nothing is announced, and the
      one-worker and light-memory restrictions of a recovery only grow, and on Windows only. */
  lemma {:induction false} RecoveryOnlyTightens(c: Config, views: seq<View>, inputs: seq<Input>, i: nat, j: nat)
    requires Run(c, views, inputs) && |views| == |inputs| + 1 && i <= j < |views|
    requires forall k | i <= k < j :: !inputs[k].OperatorStart?
    ensures GoesOn(c, views[i].recovery, views[j].recovery)
    ensures i < j && inputs[i].OperatorStop? ==> !views[j].recovery.enabled && views[j].recovery.restartAt == None
  {
    hide *;
    if i == j {
      GoesNowhere(c, views[i].recovery);
    } else {
      RecoveryOnlyTightens(c, views, inputs, i, j - 1);
      RunStep(c, views, inputs, j - 1);
      InputGoesOn(c, views[j - 1], inputs[j - 1]);
      GoesOnAndOn(c, views[i].recovery, views[j - 1].recovery, views[j].recovery);
      OffGoesOn(c, views[j - 1].recovery, views[j].recovery);
      if i == j - 1 && inputs[i].OperatorStop? {
        RunOk(c, views, inputs, i);
        OperatorStops(c, views[i], inputs[i]);
      }
    }
  }

  lemma GoesNowhere(c: Config, r: Recovery)
    ensures GoesOn(c, r, r)
  {
  }

  lemma OffGoesOn(c: Config, r: Recovery, q: Recovery)
    requires GoesOn(c, r, q)
    ensures !r.enabled && r.restartAt == None ==> !q.enabled && q.restartAt == None
  {
  }

  /** A restart that is due happens in the next frame that finds nothing outstanding. */
  lemma DueRestartsHappen(c: Config, v: View, frame: Frame)
    requires Good(v) && RestartDue(v, frame.now)
    ensures var w := AfterFrame(c, v, frame);
            && w.engine.child == (if frame.launch.Launched? then Some(frame.launch.pid) else None)
            && w.engine.quarantined == (if frame.launch.Abandoned? && !frame.launch.reaped then Some(frame.launch.pid) else None)
  {
    DueFacts(v, frame.now);
    assert Drained(c, v, frame.messages, frame.now) == v;
    hide Drained, Delay, Safe, Recall, Good;
  }

  lemma FailedAttempt(c: Config, s: View, launch: Launch, now: nat)
    requires s.recovery.enabled && !s.recovery.requestedStop && s.recovery.restartAt == None && !launch.Launched?
    ensures var w, n := Attempted(c, s, true, launch, now), s.recovery.attempts;
            && (c.windows && n < MAX_AUTOMATIC_ENGINE_RESTARTS ==> w.recovery.singleWorker)
            && if n < MAX_AUTOMATIC_ENGINE_RESTARTS
               then w.recovery.restartAt == Some(now + Delay(n + 1)) && w.recovery.attempts == n + 1 && w.health.phase == Reconnecting
               else w.recovery.restartAt == None && !w.recovery.enabled && w.health.phase == Error
  {
    hide Delay;
  }

  /** An automatic start that fails is one more reason to recover: it announces the next one, twice as far away,
      until the budget of five is spent. */
  lemma FailedRestartsAreRescheduled(c: Config, v: View, frame: Frame)
    requires Good(v) && RestartDue(v, frame.now) && !frame.launch.Launched?
    ensures var w, n := AfterFrame(c, v, frame), v.recovery.attempts;
            && (c.windows && n < MAX_AUTOMATIC_ENGINE_RESTARTS ==> Effective(w.recovery, c.workers) == 1)
            && if n < MAX_AUTOMATIC_ENGINE_RESTARTS
               then && w.recovery.restartAt == Some(frame.now + Delay(n + 1)) && w.recovery.attempts == n + 1
                    && w.health.phase == Reconnecting
               else w.recovery.restartAt == None && !w.recovery.enabled && w.health.phase == Error
  {
    DueFacts(v, frame.now);
    assert Drained(c, v, frame.messages, frame.now) == v;
    FailedAttempt(c, Restarting(v), frame.launch, frame.now);
    hide Good, Drained, Delay, Attempted;
    assert Restarted(c, v, frame.launch, frame.now) == Attempted(c, Restarting(v), true, frame.launch, frame.now);
  }

  lemma DueFacts(v: View, now: nat)
    requires Good(v) && RestartDue(v, now)
    ensures !v.engine.receiver && v.engine.child == None && v.engine.quarantined == None && !v.engine.Draining()
    ensures v.recovery.enabled && !v.recovery.requestedStop
  {
    hide Safe, Recall;
  }

  // ---------------------------------------------------------------- main results: what the engine said

  /** The act at `n` is the sample that metrics event `e` was. */
  predicate SampleIs(t: Trace, n: nat, e: Event) {
    n < |t| && t[n].Sampled? && e == Metrics(t[n].sample.hashing, t[n].sample.clearsWork)
  }

  lemma {:induction false} SampledEventsOnly(acts: seq<Act>, e: Event)
    requires e in SampledEvents(acts)
    ensures exists n: nat :: SampleIs(acts, n, e)
  {
    var front, last := acts[..|acts| - 1], |acts| - 1;
    if e in SampledEvents(front) {
      SampledEventsOnly(front, e);
      var n: nat :| SampleIs(front, n, e);
      assert SampleIs(acts, n, e);
    } else {
      assert SampleIs(acts, last, e);
    }
  }

  lemma {:induction false} MetricsEventsHave(events: seq<Event>, e: Event)
    requires e in events && e.Metrics?
    ensures e in MetricsEvents(events)
  {
    if e != events[|events| - 1] {
      assert events == events[..|events| - 1] + [events[|events| - 1]];
      MetricsEventsHave(events[..|events| - 1], e);
    }
  }

  /** The engine is being read, has not failed, and is not being stopped, throughout this frame. */
  predicate Listening(v: View, frame: Frame) {
    v.engine.receiver && HeardThroughout(Told(v.health, v.recovery, v.trace), frame.messages)
  }

  lemma DrainedSamples(c: Config, v: View, frame: Frame, e: Event)
    requires Listening(v, frame) && e in frame.messages && e.Metrics?
    ensures exists n: nat :: |v.trace| <= n && SampleIs(Drained(c, v, frame.messages, frame.now).trace, n, e)
  {
    var acts := EventsAdd(Told(v.health, v.recovery, v.trace), c.workers, frame.messages, frame.now);
    var t := Drained(c, v, frame.messages, frame.now).trace;
    assert t == v.trace + acts;
    hide AfterEvents, SampledEvents, MetricsEvents, Drained, AllCameFrom;
    MetricsEventsHave(frame.messages, e);
    SampledEventsOnly(acts, e);
    var n: nat :| SampleIs(acts, n, e);
    assert SampleIs(t, |v.trace| + n, e);
  }

  lemma SampleIsAlike(t: Trace, u: Trace, n: nat, e: Event)
    requires SampleIs(t, n, e) && n < |u| && t[n] == u[n]
    ensures SampleIs(u, n, e)
  {
  }

  lemma SampleInRange(t: Trace, n: nat, e: Event)
    requires SampleIs(t, n, e)
    ensures n < |t|
  {
  }

  /** Every metrics event of a frame that listens goes on record. */
  lemma MetricsAreSampled(c: Config, v: View, frame: Frame, e: Event) returns (n: nat)
    requires Listening(v, frame) && e in frame.messages && e.Metrics?
    ensures |v.trace| <= n && SampleIs(AfterFrame(c, v, frame).trace, n, e)
  {
    hide *;
    DrainedSamples(c, v, frame, e);
    var d := Drained(c, v, frame.messages, frame.now);
    n :| |v.trace| <= n && SampleIs(d.trace, n, e);
    SampleInRange(d.trace, n, e);
    FrameKeepsDrained(c, v, frame);
    PrefixAct(d.trace, AfterFrame(c, v, frame).trace, n);
    SampleIsAlike(d.trace, AfterFrame(c, v, frame).trace, n, e);
  }

  /** No frame leaves hashing stable on metrics as old as three report intervals and eight seconds; fresher ones leave
      it as the frame found it. */
  lemma StaleMetricsEndTheStretch(c: Config, v: View, frame: Frame)
    ensures var w, p := AfterFrame(c, v, frame).health, Polled(c, v, frame).health;
            && w == p.(stableSince := w.stableSince)
            && w.stableSince == if p.lastMetricsAt.Some? && (frame.now < p.lastMetricsAt.value + 3_000 * c.reportSecs
                                                             || frame.now < p.lastMetricsAt.value + 8_000)
                                then p.stableSince else None
  {
    hide Polled;
  }

  /** A sample on record was a metrics event of some frame. */
  lemma SamplesWereMetricsEvents(c: Config, views: seq<View>, inputs: seq<Input>, j: nat, a: nat) returns (k: nat)
    requires Run(c, views, inputs) && j < |views| && a < |views[j].trace| && views[j].trace[a].Sampled?
    ensures |views| == |inputs| + 1 && k < j && During(views, k, a)
    ensures var s := views[j].trace[a].sample;
            && inputs[k].NextFrame? && inputs[k].frame.now == s.at
            && Metrics(s.hashing, s.clearsWork) in inputs[k].frame.messages
  {
    hide Run, During;
    RunStarts(c, views, inputs);
    assert views[0].trace == [];
    k := EveryActHasItsInput(c, views, inputs, 0, j, a);
  }

  /** The event does not say that hashing stopped, or may have. */
  predicate Steady(e: Event, effective: nat) { (e.Metrics? ==> e == Metrics(true, false)) && !Interrupts(e, effective) }

  /** If frame `k` listens, all it brings speaks of undisturbed hashing. */
  ghost predicate HashesOn(c: Config, views: seq<View>, inputs: seq<Input>, k: nat)
    requires k < |inputs| == |views| - 1
  {
    inputs[k].NextFrame? && Listening(views[k], inputs[k].frame) ==>
      forall e | e in inputs[k].frame.messages :: Steady(e, Effective(views[k].recovery, c.workers))
  }

  lemma BreakAlike(t: Trace, u: Trace, n: nat)
    requires Breaks(t, n) && n < |u| && t[n] == u[n]
    ensures Breaks(u, n)
  {
  }

  lemma BreakInRange(t: Trace, n: nat)
    requires Breaks(t, n)
    ensures n < |t|
  {
  }

  lemma NoBreakInStretch(t: Trace, i: nat, n: nat)
    requires Stretch(t, i) && i < n
    ensures !Breaks(t, n)
  {
    if n < |t| { assert Undisturbed(t, n); }
  }

  lemma DrainedBreaks(c: Config, v: View, frame: Frame, e: Event) returns (n: nat)
    requires Listening(v, frame) && e in frame.messages && Interrupts(e, Effective(v.recovery, c.workers))
    ensures |v.trace| <= n && Breaks(Drained(c, v, frame.messages, frame.now).trace, n)
  {
    hide AfterEvents, Interrupts, Breaks;
    n := InterruptionsAreRecorded(Told(v.health, v.recovery, v.trace), c.workers, frame.messages, frame.now, e);
  }

  lemma InterruptionOnRecord(c: Config, views: seq<View>, inputs: seq<Input>, k: nat, e: Event) returns (n: nat)
    requires Run(c, views, inputs) && |views| == |inputs| + 1 && k < |inputs|
    requires inputs[k].NextFrame? && Listening(views[k], inputs[k].frame) && e in inputs[k].frame.messages
    requires Interrupts(e, Effective(views[k].recovery, c.workers))
    ensures |views[k].trace| <= n < |views[k + 1].trace| && Breaks(views[k + 1].trace, n)
  {
    hide *;
    RunStep(c, views, inputs, k);
    FrameIs(c, views[k], inputs[k]);
    var v, frame := views[k], inputs[k].frame;
    n := DrainedBreaks(c, v, frame, e);
    var d := Drained(c, v, frame.messages, frame.now);
    BreakInRange(d.trace, n);
    FrameKeepsDrained(c, v, frame);
    PrefixAct(d.trace, AfterFrame(c, v, frame).trace, n);
    BreakAlike(d.trace, AfterFrame(c, v, frame).trace, n);
  }

  /** Between the inputs of a stretch's first and last samples, no listening frame brings an interruption. */
  lemma NothingInterrupts(
    c: Config, views: seq<View>, inputs: seq<Input>, j: nat, t: Trace, i: nat, first: nat, k: nat, last: nat, e: Event)
    requires Run(c, views, inputs) && |views| == |inputs| + 1 && j < |views|
    requires t <= views[j].trace && Stretch(t, i)
    requires first < k < last < j && During(views, first, i) && t != [] && During(views, last, |t| - 1)
    requires inputs[k].NextFrame? && Listening(views[k], inputs[k].frame) && e in inputs[k].frame.messages
    ensures !Interrupts(e, Effective(views[k].recovery, c.workers))
  {
    hide *;
    if Interrupts(e, Effective(views[k].recovery, c.workers)) {
      var n := InterruptionOnRecord(c, views, inputs, k, e);
      Between(c, views, inputs, first, i, k, n, last, |t| - 1);
      ActStays(c, views, inputs, k + 1, j, n);
      BreakAlike(views[k + 1].trace, views[j].trace, n);
      PrefixAct(t, views[j].trace, n);
      BreakAlike(views[j].trace, t, n);
      NoBreakInStretch(t, i, n);
    }
  }

  lemma SampleInStretch(t: Trace, i: nat, n: nat, e: Event)
    requires Stretch(t, i) && i < n && SampleIs(t, n, e)
    ensures e == Metrics(true, false)
  {
    assert Undisturbed(t, n);
  }

  /** An act of an input strictly between two others lies strictly between their acts. */
  lemma Between(c: Config, views: seq<View>, inputs: seq<Input>, first: nat, i: nat, k: nat, n: nat, last: nat, z: nat)
    requires Run(c, views, inputs) && |views| == |inputs| + 1 && first < k < last < |inputs|
    requires During(views, first, i) && During(views, last, z) && |views[k].trace| <= n < |views[k + 1].trace|
    ensures i < n < z
  {
    hide Run;
    LengthGrows(c, views, inputs, first + 1, k);
    LengthGrows(c, views, inputs, k + 1, last);
  }

  /** Acts in order come from inputs in order. */
  lemma InOrder(c: Config, views: seq<View>, inputs: seq<Input>, j: nat, first: nat, i: nat, last: nat, n: nat)
    requires Run(c, views, inputs) && |views| == |inputs| + 1 && first < j && last < j && j < |views|
    requires i <= n && During(views, first, i) && During(views, last, n)
    ensures first <= last
  {
    hide Run;
    if last < first { LengthGrows(c, views, inputs, last + 1, first); }
  }

  lemma SampleStays(c: Config, views: seq<View>, inputs: seq<Input>, k: nat, j: nat, n: nat, e: Event)
    requires Run(c, views, inputs) && k <= j < |views| && SampleIs(views[k].trace, n, e)
    ensures SampleIs(views[j].trace, n, e)
  {
    hide *;
    SampleInRange(views[k].trace, n, e);
    ActStays(c, views, inputs, k, j, n);
    SampleIsAlike(views[k].trace, views[j].trace, n, e);
  }

  lemma MetricsOnRecord(c: Config, views: seq<View>, inputs: seq<Input>, k: nat, e: Event) returns (n: nat)
    requires Run(c, views, inputs) && |views| == |inputs| + 1 && k < |inputs|
    requires inputs[k].NextFrame? && Listening(views[k], inputs[k].frame) && e in inputs[k].frame.messages && e.Metrics?
    ensures |views[k].trace| <= n < |views[k + 1].trace| && SampleIs(views[k + 1].trace, n, e)
  {
    RunStep(c, views, inputs, k);
    assert views[k + 1] == AfterFrame(c, views[k], inputs[k].frame);
    hide *;
    n := MetricsAreSampled(c, views[k], inputs[k].frame, e);
    SampleInRange(views[k + 1].trace, n, e);
  }

  lemma OneMetricsHashesOn(
    c: Config, views: seq<View>, inputs: seq<Input>, j: nat, t: Trace, i: nat, first: nat, k: nat, last: nat, e: Event)
    requires Run(c, views, inputs) && |views| == |inputs| + 1 && j < |views|
    requires t <= views[j].trace && Stretch(t, i)
    requires first < k < last < j && During(views, first, i) && t != [] && During(views, last, |t| - 1)
    requires inputs[k].NextFrame? && Listening(views[k], inputs[k].frame) && e in inputs[k].frame.messages && e.Metrics?
    ensures e == Metrics(true, false)
  {
    hide *;
    var n := MetricsOnRecord(c, views, inputs, k, e);
    Between(c, views, inputs, first, i, k, n, last, |t| - 1);
    SampleStays(c, views, inputs, k + 1, j, n, e);
    PrefixAct(t, views[j].trace, n);
    SampleIsAlike(views[j].trace, t, n, e);
    SampleInStretch(t, i, n, e);
  }

  lemma StretchHashesOn(
    c: Config, views: seq<View>, inputs: seq<Input>, j: nat, t: Trace, i: nat, first: nat, k: nat, last: nat)
    requires Run(c, views, inputs) && |views| == |inputs| + 1 && j < |views|
    requires t <= views[j].trace && Stretch(t, i)
    requires first < k < last < j && During(views, first, i) && t != [] && During(views, last, |t| - 1)
    ensures HashesOn(c, views, inputs, k)
  {
    hide Run, Stretch, During, Listening, Interrupts;
    if inputs[k].NextFrame? && Listening(views[k], inputs[k].frame) {
      forall e | e in inputs[k].frame.messages ensures Steady(e, Effective(views[k].recovery, c.workers)) {
        if e.Metrics? { OneMetricsHashesOn(c, views, inputs, j, t, i, first, k, last, e); }
        NothingInterrupts(c, views, inputs, j, t, i, first, k, last, e);
      }
    }
  }

  /** The recovery budget is renewed only on the engine's word: metrics events of two frames at least five
      minutes apart reported hashing, and no listening frame between brought any other metrics, or word of a
      cleared job, a worker starting over or failing, or the end of the session. */
  lemma RenewalIsEarned(c: Config, views: seq<View>, inputs: seq<Input>, j: nat, a: nat) returns (first: nat, last: nat)
    requires Run(c, views, inputs) && j < |views| && a < |views[j].trace| && views[j].trace[a].Renewed?
    ensures |views| == |inputs| + 1 && first <= last < j
    ensures inputs[first].NextFrame? && inputs[last].NextFrame?
    ensures inputs[last].frame.now >= inputs[first].frame.now + ENGINE_STABILITY_RESET
    ensures exists clears :: Metrics(true, clears) in inputs[first].frame.messages
    ensures exists clears :: Metrics(true, clears) in inputs[last].frame.messages
    ensures forall k | first < k < last :: HashesOn(c, views, inputs, k)
  {
    hide *;
    EveryStateIsSound(c, views, inputs, j);
    SoundTrace(views[j]);
    var t := views[j].trace[..a];
    var i := RenewedStretch(views[j].trace, a);
    first := HealthySampleWasHashing(c, views, inputs, j, i);
    last := HealthySampleWasHashing(c, views, inputs, j, a - 1);
    InOrder(c, views, inputs, j, first, i, last, a - 1);
    StretchOf(t, i);
    forall k | first < k < last ensures HashesOn(c, views, inputs, k) {
      StretchHashesOn(c, views, inputs, j, t, i, first, k, last);
    }
  }

  lemma HealthySampleWasHashing(c: Config, views: seq<View>, inputs: seq<Input>, j: nat, a: nat) returns (k: nat)
    requires Run(c, views, inputs) && j < |views| && a < |views[j].trace|
    requires views[j].trace[a].Sampled? && Healthy(views[j].trace[a].sample)
    ensures |views| == |inputs| + 1 && k < j && During(views, k, a)
    ensures inputs[k].NextFrame? && inputs[k].frame.now == views[j].trace[a].sample.at
    ensures exists clears :: Metrics(true, clears) in inputs[k].frame.messages
  {
    hide Run, During;
    k := SamplesWereMetricsEvents(c, views, inputs, j, a);
  }

  lemma RenewedStretch(u: Trace, a: nat) returns (i: nat)
    requires Safe(u) && a < |u| && u[a].Renewed?
    ensures i < a && FirstOfStretch(u[..a], i)
    ensures u[i].Sampled? && Healthy(u[i].sample) && u[a - 1].Sampled? && Healthy(u[a - 1].sample)
    ensures u[a - 1].sample.at >= u[i].sample.at + ENGINE_STABILITY_RESET
  {
    var t := u[..a];
    RenewedOnlyWhenStable(u, a);
    i :| FirstOfStretch(t, i) && t[a - 1].sample.at >= t[i].sample.at + ENGINE_STABILITY_RESET;
    hide Safe, Stretch;
    StretchIsInside(t, i);
    LastOfStretch(t, i);
    FirstIsHealthy(t, i);
    assert t[i] == u[i] && t[a - 1] == u[a - 1];
  }

  lemma StretchOf(t: Trace, i: nat)
    requires FirstOfStretch(t, i)
    ensures Stretch(t, i)
  {
  }

  lemma FirstIsHealthy(t: Trace, i: nat)
    requires Stretch(t, i)
    ensures i < |t| && t[i].Sampled? && Healthy(t[i].sample)
  {
  }

  /** `Mining` is shown after a part of a frame only if it was before, with the same failed workers. */
  predicate MinesOn(v: View, w: View) {
    w.health.phase.Mining? ==> v.health.phase.Mining? && w.health.failed == v.health.failed
  }

  lemma ScheduledMines(c: Config, v: View, now: nat)
    ensures MinesOn(v, Scheduled(c, v, now))
  {
  }

  lemma FinishedMines(c: Config, o: View, disconnected: bool, gone: bool, now: nat)
    ensures MinesOn(o, Finished(c, o, disconnected, gone, now))
  {
    var l := if LossOver(o.engine, disconnected, now) then LossFinished(c, o, now) else o;
    var q := QuarantineEnded(l, gone);
    ScheduledMines(c, Closed(o.(engine := o.engine.(pendingLoss := None))), now);
    if q.engine.pendingExit.Some? {
      var exit := q.engine.pendingExit.value;
      var w := Closed(q.(engine := q.engine.(pendingExit := None), health := q.health.(canRestore := false)));
      ScheduledMines(c, w.(recovery := Escalated(c, w.recovery, exit.escalation)), now);
    }
    hide Scheduled;
  }

  lemma AttemptedMines(c: Config, k: View, launch: Launch, now: nat)
    ensures !Attempted(c, k, true, launch, now).health.phase.Mining?
  {
    ScheduledMines(c, Showing(k, Error), now);
    ScheduledMines(c, Showing(Reset(k), Error), now);
    if launch.Abandoned? { ScheduledMines(c, Showing(GivenUp(Reset(k), launch.pid, launch.reaped), Error), now); }
    hide Scheduled;
  }

  lemma FrameMines(c: Config, v: View, frame: Frame)
    ensures MinesOn(Drained(c, v, frame.messages, frame.now), AfterFrame(c, v, frame))
  {
    var now, disconnected := frame.now, !v.engine.receiver || frame.disconnected;
    var d := Drained(c, v, frame.messages, now);
    var o := Observed(d, frame.child, frame.reaped, now);
    var f := Finished(c, o, disconnected, frame.quarantineGone, now);
    var k := ReadersChecked(f, v.engine.receiver, disconnected || frame.readerFinished, now);
    FinishedMines(c, o, disconnected, frame.quarantineGone, now);
    AttemptedMines(c, Restarting(k), frame.launch, now);
    hide Drained, Finished, Attempted;
  }

  /** What the screen says of the workers is what the engine said: after a frame that reads the engine's
      output and leaves `Mining` on the screen, no fatal failure was reported, and no worker's last report
      that counts was a failure. */
  lemma MiningIsWhatTheEngineSaid(c: Config, views: seq<View>, inputs: seq<Input>, j: nat)
    requires Run(c, views, inputs) && j < |inputs| && |views| == |inputs| + 1
    requires inputs[j].NextFrame? && views[j].engine.receiver && views[j + 1].health.phase.Mining?
    ensures EngineFatal !in inputs[j].frame.messages
    ensures !views[j].recovery.requestedStop ==>
              forall w: nat :: !LastSaidFailed(views[j].health.failed, Reports(inputs[j].frame.messages, Effective(views[j].recovery, c.workers)), w)
  {
    RunStep(c, views, inputs, j);
    assert views[j + 1] == AfterFrame(c, views[j], inputs[j].frame);
    hide *;
    EveryStateIsSound(c, views, inputs, j);
    EveryStateIsSound(c, views, inputs, j + 1);
    MiningAfterFrame(c, views[j], inputs[j].frame);
  }

  lemma MiningAfterFrame(c: Config, v: View, frame: Frame)
    requires Sound(v) && Sound(AfterFrame(c, v, frame)) && v.engine.receiver && AfterFrame(c, v, frame).health.phase.Mining?
    ensures EngineFatal !in frame.messages
    ensures !v.recovery.requestedStop ==>
              forall n: nat :: !LastSaidFailed(v.health.failed, Reports(frame.messages, Effective(v.recovery, c.workers)), n)
  {
    var x := Told(v.health, v.recovery, v.trace);
    var told := AfterEvents(x, c.workers, frame.messages, frame.now);
    FrameMines(c, v, frame);
    assert told.health.phase.Mining? && told.health.failed == {};
    var acts := EventsAdd(x, c.workers, frame.messages, frame.now);
    hide AfterEvents, AfterFrame, LastSaidFailed, Reports, AllCameFrom, SampledEvents, MetricsEvents;
    if !v.recovery.requestedStop {
      forall n: nat ensures !LastSaidFailed(v.health.failed, Reports(frame.messages, Effective(v.recovery, c.workers)), n) {
        FailedAreLastReports(x, c.workers, frame.messages, frame.now, n);
      }
    }
  }

  // ---------------------------------------------------------------- a silence that counts as hashing

  lemma EventsSnoc(x: Told, workers: nat, events: seq<Event>, event: Event, now: nat)
    ensures AfterEvents(x, workers, events + [event], now) == AfterEvent(AfterEvents(x, workers, events, now), workers, event, now)
  {
    assert (events + [event])[..|events|] == events;
    hide AfterEvent;
  }

  /** A frame of an engine that runs on does nothing but hear it. */
  lemma RunningFrame(c: Config, v: View, frame: Frame)
    requires Good(v) && v.engine.child.Some? && frame.child.Running? && !frame.disconnected && !frame.readerFinished
    ensures var d := Drained(c, v, frame.messages, frame.now);
            AfterFrame(c, v, frame) == Rested(d.(engine := v.engine.(disconnectedAt := None)), frame.now, StaleAfter(c))
  {
    var d := Drained(c, v, frame.messages, frame.now);
    DrainedOk(c, v, frame.messages, frame.now);
    RunningFacts(d);
    hide Drained, Good, Attempted, Finished;
    assert Finished(c, d, false, frame.quarantineGone, frame.now) == d by { NothingFinished(c, d, frame.quarantineGone, frame.now); }
  }

  lemma RunningFacts(v: View)
    requires Good(v) && v.engine.child.Some?
    ensures v.engine.receiver && v.engine.quarantined == None && !v.engine.Draining() && v.recovery.restartAt == None
  {
    hide Safe, Recall;
  }

  lemma NothingFinished(c: Config, d: View, gone: bool, now: nat)
    requires !d.engine.Draining() && d.engine.quarantined == None
    ensures Finished(c, d, false, gone, now) == d
  {
  }

  function Hearsay(now: nat, messages: seq<Event>): Frame { Frame(now, messages, false, Running, false, false, false, Refused) }

  const WITNESS: Config := Config(false, 1, 2)

  /** An engine that exited at once, and is due to be started again after two seconds. */
  const EXITED: Frame := Frame(0, [], true, Exited(Exit(false, Keep)), false, false, true, Refused)
  const RELAUNCHED: Frame := Frame(2_000, [], true, Running, false, false, true, Launched(8))

  lemma WitnessStarts(v: View)
    requires v == After(WITNESS, INITIAL, OperatorStart(Launched(7), 0))
    ensures v == View(Engine(Some(7), None, None, None, true, None), Recovery(false, true, None, 0, false, false), FRESH_HEALTH,
                      [Begun, Prepared, Spawned(7)])
  {
    assert [] + [Begun] + [Prepared] + [Spawned(7)] == [Begun, Prepared, Spawned(7)];
  }

  lemma WitnessExits(v: View, w: View)
    requires v == After(WITNESS, INITIAL, OperatorStart(Launched(7), 0)) && w == AfterFrame(WITNESS, v, EXITED)
    ensures w.engine == Engine(None, None, None, None, false, None) && w.recovery == Recovery(false, true, Some(2_000), 1, false, false)
    ensures Renewed !in w.trace
  {
    WitnessStarts(v);
    assert Delay(1) == 2_000;
    assert Drained(WITNESS, v, [], 0) == v;
    hide Delay, Drained, After;
  }

  lemma WitnessRelaunches(w: View, x: View)
    requires w.engine == Engine(None, None, None, None, false, None) && w.recovery == Recovery(false, true, Some(2_000), 1, false, false)
    requires Renewed !in w.trace && x == AfterFrame(WITNESS, w, RELAUNCHED)
    ensures x.engine == Engine(Some(8), None, None, None, true, None) && x.recovery == Recovery(false, true, None, 1, false, false)
    ensures x.health == FRESH_HEALTH && Renewed !in x.trace
  {
    assert Drained(WITNESS, w, [], 2_000) == w;
    hide Delay, Drained, After;
  }

  /** It connects, reports ready, and hashes; the first sample at two seconds starts the clock. */
  lemma WitnessHashes(x: View, y: View)
    requires Good(x) && x.engine == Engine(Some(8), None, None, None, true, None) && x.recovery == Recovery(false, true, None, 1, false, false)
    requires x.health == FRESH_HEALTH && Renewed !in x.trace
    requires y == AfterFrame(WITNESS, x, Hearsay(2_000, [NodeConnected, WorkerReady(0), Metrics(true, false)]))
    ensures y.engine == x.engine && y.recovery == x.recovery && Renewed !in y.trace
    ensures y.health == Health(Mining, true, {0}, 1, {}, false, false, Some(2_000), Some(2_000))
  {
    var mining := FRESH_HEALTH.(phase := Mining, nodeLinkLive := true);
    var ready := mining.(ready := {0}, readyWorkers := 1);
    var a, b := x.(health := mining), x.(health := ready);
    RunningFrame(WITNESS, x, Hearsay(2_000, [NodeConnected, WorkerReady(0), Metrics(true, false)]));
    ConnectedAndReady(x);
    EventOk(x, 1, NodeConnected, 2_000);
    EventOk(a, 1, WorkerReady(0), 2_000);
    SampleExactly(b, 1, true, false, 2_000);
    EventsSnoc(Hearing(x), 1, [], NodeConnected, 2_000);
    EventsSnoc(Hearing(x), 1, [NodeConnected], WorkerReady(0), 2_000);
    EventsSnoc(Hearing(x), 1, [NodeConnected, WorkerReady(0)], Metrics(true, false), 2_000);
    assert [] + [NodeConnected] == [NodeConnected];
    assert [NodeConnected] + [WorkerReady(0)] == [NodeConnected, WorkerReady(0)];
    assert [NodeConnected, WorkerReady(0)] + [Metrics(true, false)] == [NodeConnected, WorkerReady(0), Metrics(true, false)];
    assert AfterEvents(Hearing(x), 1, [], 2_000) == Hearing(x);
    hide Good, AfterEvent, AfterEvents, AfterFrame, StableSince;
  }

  lemma ConnectedAndReady(x: View)
    requires x.health == FRESH_HEALTH && !x.recovery.requestedStop
    ensures var mining := FRESH_HEALTH.(phase := Mining, nodeLinkLive := true);
            var ready := mining.(ready := {0}, readyWorkers := 1);
            && AfterEvent(Hearing(x), 1, NodeConnected, 2_000) == Hearing(x.(health := mining))
            && AfterEvent(Hearing(x.(health := mining)), 1, WorkerReady(0), 2_000) == Hearing(x.(health := ready))
  {
    assert {} + {0} == {0} && |{0}| == 1;
    assert x.trace + [] == x.trace;
    hide FiveStableMinutes, StableSince;
  }

  lemma WitnessIsRenewed(y: View, z: View)
    requires Good(y) && y.engine == Engine(Some(8), None, None, None, true, None) && y.recovery == Recovery(false, true, None, 1, false, false)
    requires y.health == Health(Mining, true, {0}, 1, {}, false, false, Some(2_000), Some(2_000))
    requires z == AfterFrame(WITNESS, y, Hearsay(302_000, [Metrics(true, false)]))
    ensures Renewed in z.trace && z.recovery.attempts == 0
  {
    RunningFrame(WITNESS, y, Hearsay(302_000, [Metrics(true, false)]));
    SampleExactly(y, 1, true, false, 302_000);
    EventsSnoc(Hearing(y), 1, [], Metrics(true, false), 302_000);
    assert [] + [Metrics(true, false)] == [Metrics(true, false)];
    assert AfterEvents(Hearing(y), 1, [], 302_000) == Hearing(y);
    var e := Drained(WITNESS, y, [Metrics(true, false)], 302_000);
    assert e.trace[|e.trace| - 1] == Renewed;
    hide Good, AfterEvent, AfterEvents, AfterFrame, StableSince;
  }

  /** A run in which the budget is renewed although the engine said nothing for five minutes: no frame ended in
      the silence (the computer slept), and the first sample after it counts as five minutes of hashing. */
  lemma SilenceCanRenew() returns (views: seq<View>, inputs: seq<Input>)
    ensures Run(WITNESS, views, inputs) && |inputs| == 5
    ensures inputs[3] == NextFrame(Hearsay(2_000, [NodeConnected, WorkerReady(0), Metrics(true, false)]))
    ensures inputs[4] == NextFrame(Hearsay(302_000, [Metrics(true, false)]))
    ensures Renewed !in views[4].trace && views[4].recovery.attempts == 1
    ensures Renewed in views[5].trace && views[5].recovery.attempts == 0
  {
    hide *;
    var start := OperatorStart(Launched(7), 0);
    var hashes := Hearsay(2_000, [NodeConnected, WorkerReady(0), Metrics(true, false)]);
    var wakes := Hearsay(302_000, [Metrics(true, false)]);
    inputs := [start, NextFrame(EXITED), NextFrame(RELAUNCHED), NextFrame(hashes), NextFrame(wakes)];
    var v1 := After(WITNESS, INITIAL, start);
    var v2, v3, v4, v5 := WitnessViews(v1, hashes, wakes);
    views := [INITIAL, v1, v2, v3, v4, v5];
    WitnessIsRun(views, inputs);
    RunOk(WITNESS, views, inputs, 3);
    RunOk(WITNESS, views, inputs, 4);
    WitnessExits(v1, v2);
    WitnessRelaunches(v2, v3);
    WitnessHashes(v3, v4);
    WitnessIsRenewed(v4, v5);
  }

  lemma WitnessViews(v1: View, hashes: Frame, wakes: Frame) returns (v2: View, v3: View, v4: View, v5: View)
    ensures v2 == AfterFrame(WITNESS, v1, EXITED) && v3 == AfterFrame(WITNESS, v2, RELAUNCHED)
    ensures v4 == AfterFrame(WITNESS, v3, hashes) && v5 == AfterFrame(WITNESS, v4, wakes)
  {
    hide *;
    v2 := AfterFrame(WITNESS, v1, EXITED);
    v3 := AfterFrame(WITNESS, v2, RELAUNCHED);
    v4 := AfterFrame(WITNESS, v3, hashes);
    v5 := AfterFrame(WITNESS, v4, wakes);
  }

  lemma WitnessIsRun(views: seq<View>, inputs: seq<Input>)
    requires |inputs| == 5 && |views| == 6 && views[0] == INITIAL
    requires views[1] == After(WITNESS, views[0], inputs[0])
    requires forall i | 1 <= i < 5 :: inputs[i].NextFrame? && views[i + 1] == AfterFrame(WITNESS, views[i], inputs[i].frame)
    ensures Run(WITNESS, views, inputs)
  {
    hide AfterFrame;
    forall i | 0 <= i < 5 ensures views[i + 1] == After(WITNESS, views[i], inputs[i]) { }
  }
}
