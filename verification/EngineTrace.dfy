/** What the engine supervisor of src/gui.rs may do over time, told as the sequence of its acts: which
    sequences are safe, and what safety says about every window of a run. */
module EngineTrace {
  import opened Basics

  const MAX_AUTOMATIC_ENGINE_RESTARTS: nat := 5
  const ENGINE_STABILITY_RESET: nat := 300_000

  type Pid = nat

  /** What one metrics event said, and what the supervisor knew when it arrived. */
  datatype Sample = Sample(
    at: nat,
    hashing: bool,
    linkLive: bool,
    failed: set<nat>,
    ready: nat,
    workers: nat,
    clearsWork: bool)

  predicate Healthy(s: Sample) { s.hashing && s.linkLive && s.failed == {} && s.ready == s.workers }

  datatype Act =
    | Begun                  // the operator's start; the restart budget is full again
    | Ended                  // the operator's stop
    | Retried                // an automatic start, whether or not it gets as far as a process
    | Renewed                // the budget is full again after proven stability
    | Prepared               // a start passed its checks and reset the telemetry
    | Failed                 // the engine was declared fatally failed
    | Spawned(pid: Pid)
    | Reaped(pid: Pid)       // the process was observed to be gone
    | Sampled(sample: Sample)
    | Disturbed              // a worker stopped hashing, or the current job was cleared
    | Silenced               // the session, the engine or its output ended: metrics so far are void
    | FrameEnded(at: nat, limit: nat) // the freshness check; metrics are stale from `limit` on

  type Trace = seq<Act>

  /** Processes spawned and not yet proven gone. */
  ghost function Unreaped(t: Trace): set<Pid> {
    if t == [] then {} else UnreapedAfter(Unreaped(t[..|t| - 1]), t[|t| - 1])
  }

  ghost function UnreapedAfter(before: set<Pid>, act: Act): set<Pid> {
    match act
    case Spawned(pid) => before + {pid}
    case Reaped(pid) => before - {pid}
    case _ => before
  }

  /** The operator has stopped the miner and not started it since; so too before the first start. */
  predicate Stopped(t: Trace) {
    t == [] || (!t[|t| - 1].Begun? && (t[|t| - 1].Ended? || Stopped(t[..|t| - 1])))
  }

  /** Automatic starts since the budget was last full. */
  function Used(t: Trace): nat {
    if t == [] then 0 else UsedAfter(Used(t[..|t| - 1]), t[|t| - 1])
  }

  function UsedAfter(before: nat, act: Act): nat {
    match act
    case Begun => 0
    case Renewed => 0
    case Retried => before + 1
    case _ => before
  }

  /** The engine failed fatally since the last prepared start. */
  predicate Fatal(t: Trace) {
    t != [] && !t[|t| - 1].Prepared? && (t[|t| - 1].Failed? || Fatal(t[..|t| - 1]))
  }

  /** When the latest metrics that still count arrived. */
  function LastSample(t: Trace): Option<nat> {
    if t == [] then None else LastSampleAfter(LastSample(t[..|t| - 1]), t[|t| - 1])
  }

  function LastSampleAfter(before: Option<nat>, act: Act): Option<nat> {
    match act
    case Sampled(s) => Some(s.at)
    case Silenced => None
    case Prepared => None
    case _ => before
  }

  /** Since when the engine has been hashing stably. */
  function StableSince(t: Trace): Option<nat> {
    if t == [] then None
    else StableSinceAfter(StableSince(t[..|t| - 1]), LastSample(t[..|t| - 1]), t[|t| - 1])
  }

  function StableSinceAfter(before: Option<nat>, last: Option<nat>, act: Act): Option<nat> {
    match act
    case Sampled(s) =>
      if !Healthy(s) then None else if before == None || s.clearsWork then Some(s.at) else before
    case Disturbed => None
    case Silenced => None
    case Prepared => None
    case FrameEnded(at, limit) => if last.Some? && Monus(at, last.value) < limit then before else None
    case _ => before
  }

  /** The act a start begins with. */
  predicate StartsNow(t: Trace) { t != [] && (t[|t| - 1].Begun? || t[|t| - 1].Retried?) }

  /** A start has just passed its checks. */
  predicate PreparedNow(t: Trace) { t != [] && t[|t| - 1].Prepared? }

  /** The latest act is a healthy sample, at least five minutes after hashing became stable. */
  predicate StableNow(t: Trace, since: Option<nat>) {
    && t != [] && t[|t| - 1].Sampled? && Healthy(t[|t| - 1].sample)
    && since.Some? && t[|t| - 1].sample.at >= since.value + ENGINE_STABILITY_RESET
  }

  /** What may follow `t`. */
  ghost predicate Allowed(t: Trace, act: Act) {
    match act
    case Prepared => StartsNow(t)
    case Renewed => StableNow(t, StableSince(t))
    case Retried => !Stopped(t) && Used(t) < MAX_AUTOMATIC_ENGINE_RESTARTS && Unreaped(t) == {}
    case Spawned(_) => !Stopped(t) && Unreaped(t) == {} && PreparedNow(t)
    case Reaped(pid) => pid in Unreaped(t)
    case _ => true
  }

  ghost predicate Safe(t: Trace) {
    forall i | 0 <= i < |t| :: Allowed(t[..i], t[i])
  }

  lemma SafeExtended(t: Trace, act: Act)
    requires Safe(t) && Allowed(t, act)
    ensures Safe(t + [act])
  {
    hide Allowed;
    var e := t + [act];
    assert e[..|t|] == t;
    forall i | 0 <= i < |e| ensures Allowed(e[..i], e[i]) {
      if i < |t| { assert e[..i] == t[..i] && Allowed(t[..i], t[i]); }
    }
  }

  lemma BudgetExtended(t: Trace, act: Act)
    ensures Unreaped(t + [act]) == UnreapedAfter(Unreaped(t), act)
    ensures Stopped(t + [act]) == (!act.Begun? && (act.Ended? || Stopped(t)))
    ensures Used(t + [act]) == UsedAfter(Used(t), act)
    ensures Fatal(t + [act]) == (!act.Prepared? && (act.Failed? || Fatal(t)))
  {
    assert (t + [act])[..|t|] == t;
    hide UnreapedAfter, UsedAfter;
  }

  lemma StabilityExtended(t: Trace, act: Act)
    ensures LastSample(t + [act]) == LastSampleAfter(LastSample(t), act)
    ensures StableSince(t + [act]) == StableSinceAfter(StableSince(t), LastSample(t), act)
  {
    assert (t + [act])[..|t|] == t;
    hide LastSampleAfter, StableSinceAfter;
  }

  // ---------------------------------------------------------------- what safety means

  function Retries(t: Trace): nat {
    if t == [] then 0 else Retries(t[..|t| - 1]) + (if t[|t| - 1].Retried? then 1 else 0)
  }

  function Spawns(t: Trace): nat {
    if t == [] then 0 else Spawns(t[..|t| - 1]) + (if t[|t| - 1].Spawned? then 1 else 0)
  }

  lemma CountsExtended(t: Trace, act: Act)
    ensures Retries(t + [act]) == Retries(t) + (if act.Retried? then 1 else 0)
    ensures Spawns(t + [act]) == Spawns(t) + (if act.Spawned? then 1 else 0)
  {
    assert (t + [act])[..|t|] == t;
  }

  lemma {:induction false} CountsJoin(t: Trace, u: Trace)
    ensures Retries(t + u) == Retries(t) + Retries(u)
    ensures Spawns(t + u) == Spawns(t) + Spawns(u)
  {
    if u == [] {
      assert t + u == t;
    } else {
      var front, last := u[..|u| - 1], u[|u| - 1];
      assert t + u == t + front + [last];
      CountsExtended(t + front, last);
      CountsJoin(t, front);
    }
  }

  lemma {:induction false} UsedCountsRetries(t: Trace, i: nat, j: nat)
    requires i <= j <= |t|
    requires forall k | i <= k < j :: !t[k].Begun? && !t[k].Renewed?
    ensures Used(t[..j]) == Used(t[..i]) + Retries(t[i..j])
  {
    if i < j {
      UsedCountsRetries(t, i, j - 1);
      assert t[..j][..j - 1] == t[..j - 1] && t[i..j][..j - 1 - i] == t[i..j - 1];
    }
  }

  lemma {:induction false} UsedIsBounded(t: Trace)
    requires Safe(t)
    ensures Used(t) <= MAX_AUTOMATIC_ENGINE_RESTARTS
  {
    if t != [] {
      var s := t[..|t| - 1];
      assert forall i | 0 <= i < |s| :: s[..i] == t[..i] && s[i] == t[i];
      assert Allowed(t[..|t| - 1], t[|t| - 1]);
      UsedIsBounded(s);
    }
  }

  // ---------------------------------------------------------------- five stable minutes

  /** `m` is the latest sample before act `k` that still counts there. */
  ghost predicate LatestSample(t: Trace, m: int, k: int) {
    && 0 <= m < k <= |t| && t[m].Sampled?
    && forall n | m < n < k :: !t[n].Sampled? && !t[n].Silenced? && !t[n].Prepared?
  }

  /** The freshness check at the end of a frame found metrics that were not stale. */
  ghost predicate Fresh(t: Trace, k: nat)
    requires k < |t| && t[k].FrameEnded?
  {
    exists m: nat :: LatestSample(t, m, k) && Monus(t[k].at, t[m].sample.at) < t[k].limit
  }

  /** Act `k` does not break stable hashing. */
  ghost predicate Undisturbed(t: Trace, k: nat)
    requires k < |t|
  {
    match t[k]
    case Sampled(s) => Healthy(s) && !s.clearsWork
    case Disturbed => false
    case Silenced => false
    case Prepared => false
    case FrameEnded(_, _) => Fresh(t, k)
    case _ => true
  }

  /** Hashing has been stable from the sample at `i` to the end of `t`. */
  ghost predicate Stretch(t: Trace, i: nat) {
    && i < |t| && t[i].Sampled? && Healthy(t[i].sample)
    && forall k: nat | i < k < |t| :: Undisturbed(t, k)
  }

  ghost predicate FirstOfStretch(t: Trace, i: nat) { Stretch(t, i) && forall j: nat | j < i :: !Stretch(t, j) }

  /** The latest act is a healthy sample at least five minutes after the first sample of the stretch of
      stable hashing it belongs to. */
  ghost predicate FiveStableMinutes(t: Trace) {
    && t != [] && t[|t| - 1].Sampled?
    && exists i: nat :: FirstOfStretch(t, i) && t[|t| - 1].sample.at >= t[i].sample.at + ENGINE_STABILITY_RESET
  }

  lemma LatestSampleIsUnique(t: Trace, m: int, n: int, k: int)
    requires LatestSample(t, m, k) && LatestSample(t, n, k)
    ensures m == n
  {
  }

  lemma LatestInPrefix(t: Trace, m: int, k: int)
    requires 0 <= k < |t|
    ensures LatestSample(t, m, k) == LatestSample(t[..|t| - 1], m, k)
  {
  }

  lemma {:induction false} LastSampleIsLatest(t: Trace)
    ensures LastSample(t) == None ==> forall m: nat :: !LatestSample(t, m, |t|)
    ensures LastSample(t).Some? ==> exists m: nat :: LatestSample(t, m, |t|) && t[m].sample.at == LastSample(t).value
  {
    if t != [] {
      var s, act, n := t[..|t| - 1], t[|t| - 1], |t| - 1;
      LastSampleIsLatest(s);
      if act.Sampled? {
        assert LatestSample(t, n, |t|);
      } else if !act.Silenced? && !act.Prepared? {
        forall m: nat ensures LatestSample(t, m, |t|) == LatestSample(s, m, n) { LatestStays(t, m); }
        if LastSample(t).Some? {
          var m: nat :| LatestSample(s, m, n) && s[m].sample.at == LastSample(t).value;
          assert LatestSample(t, m, |t|);
        }
      }
    }
  }

  lemma LatestStays(t: Trace, m: int)
    requires t != [] && var act := t[|t| - 1]; !act.Sampled? && !act.Silenced? && !act.Prepared?
    ensures LatestSample(t, m, |t|) == LatestSample(t[..|t| - 1], m, |t| - 1)
  {
    var s := t[..|t| - 1];
    if LatestSample(s, m, |s|) {
      forall n | m < n < |t| ensures !t[n].Sampled? && !t[n].Silenced? && !t[n].Prepared? {
        if n < |s| { assert s[n] == t[n]; }
      }
    }
  }

  /** The freshness check reads the latest sample. */
  lemma FreshExactly(t: Trace)
    requires t != [] && t[|t| - 1].FrameEnded?
    ensures var last := LastSample(t[..|t| - 1]);
            Fresh(t, |t| - 1) <==> last.Some? && Monus(t[|t| - 1].at, last.value) < t[|t| - 1].limit
  {
    var s, n := t[..|t| - 1], |t| - 1;
    LastSampleIsLatest(s);
    forall m: nat ensures LatestSample(t, m, n) == LatestSample(s, m, n) { LatestInPrefix(t, m, n); }
    if LastSample(s).Some? {
      var m: nat :| LatestSample(s, m, n) && s[m].sample.at == LastSample(s).value;
      assert LatestSample(t, m, n);
      forall p: nat | LatestSample(t, p, n) ensures p == m { LatestSampleIsUnique(t, p, m, n); }
    }
  }

  lemma UndisturbedInPrefix(t: Trace, k: nat)
    requires k + 1 < |t|
    ensures Undisturbed(t, k) == Undisturbed(t[..|t| - 1], k)
  {
    var s := t[..|t| - 1];
    assert s[k] == t[k];
    if t[k].FrameEnded? {
      forall m: nat ensures LatestSample(t, m, k) == LatestSample(s, m, k) { LatestInPrefix(t, m, k); }
    }
  }

  lemma StretchStep(t: Trace, i: nat)
    requires t != []
    ensures i < |t| - 1 ==> (Stretch(t, i) <==> Stretch(t[..|t| - 1], i) && Undisturbed(t, |t| - 1))
    ensures Stretch(t, |t| - 1) <==> t[|t| - 1].Sampled? && Healthy(t[|t| - 1].sample)
  {
    var s := t[..|t| - 1];
    forall k: nat | k < |s| ensures Undisturbed(t, k) == Undisturbed(s, k) { UndisturbedInPrefix(t, k); }
    hide Undisturbed;
    if i < |s| {
      if Stretch(s, i) && Undisturbed(t, |s|) {
        forall k: nat | i < k < |t| ensures Undisturbed(t, k) { assert k < |s| || k == |s|; }
      }
      if Stretch(t, i) {
        forall k: nat | i < k < |s| ensures Undisturbed(s, k) { assert Undisturbed(t, k); }
      }
    }
  }

  lemma StableSinceExtends(t: Trace)
    requires t != []
    ensures var before := StableSince(t[..|t| - 1]);
            var act := t[|t| - 1];
            StableSince(t) == if before.Some? && Undisturbed(t, |t| - 1) then before
                              else if act.Sampled? && Healthy(act.sample) then Some(act.sample.at) else None
  {
    if t[|t| - 1].FrameEnded? { FreshExactly(t); }
  }

  /** `StableSince` is the time of the first sample of the present stretch of stable hashing. */
  lemma {:induction false} StableSinceIsFirstOfStretch(t: Trace)
    ensures StableSince(t) == None ==> forall i: nat :: !Stretch(t, i)
    ensures StableSince(t).Some? ==> exists i: nat :: FirstOfStretch(t, i) && t[i].sample.at == StableSince(t).value
  {
    if t != [] {
      var s, n := t[..|t| - 1], |t| - 1;
      StableSinceIsFirstOfStretch(s);
      StableSinceExtends(t);
      hide StableSince, Undisturbed;
      forall i: nat ensures Stretch(t, i) <==> if i < n then Stretch(s, i) && Undisturbed(t, n) else
                              i == n && t[n].Sampled? && Healthy(t[n].sample)
      {
        StretchStep(t, i);
        if i > n { hide *; assert !Stretch(t, i) by { BeyondIsNoStretch(t, i); } }
      }
      hide Stretch;
      if StableSince(s).Some? && Undisturbed(t, n) {
        var i: nat :| FirstOfStretch(s, i) && s[i].sample.at == StableSince(s).value;
        StretchIsInside(s, i);
        assert FirstOfStretch(t, i);
      } else if t[n].Sampled? && Healthy(t[n].sample) {
        assert FirstOfStretch(t, n);
      }
    }
  }

  lemma BeyondIsNoStretch(t: Trace, i: nat)
    requires i >= |t|
    ensures !Stretch(t, i)
  {
  }

  lemma StretchIsInside(t: Trace, i: nat)
    requires Stretch(t, i)
    ensures i < |t| && t[i].Sampled?
  {
  }

  lemma StableNowExactly(t: Trace)
    ensures StableNow(t, StableSince(t)) <==> FiveStableMinutes(t)
  {
    StableSinceIsFirstOfStretch(t);
    if StableSince(t).Some? {
      var i: nat :| FirstOfStretch(t, i) && t[i].sample.at == StableSince(t).value;
      forall j: nat | FirstOfStretch(t, j) ensures j == i { }
      if t != [] && t[|t| - 1].Sampled? { LastOfStretch(t, i); }
    } else {
      hide Stretch;
    }
  }

  lemma LastOfStretch(t: Trace, i: nat)
    requires t != [] && Stretch(t, i) && t[|t| - 1].Sampled?
    ensures Healthy(t[|t| - 1].sample)
  {
    if i < |t| - 1 { assert Undisturbed(t, |t| - 1); }
  }

  function Frames(ends: seq<nat>, limit: nat): Trace {
    if ends == [] then [] else Frames(ends[..|ends| - 1], limit) + [FrameEnded(ends[|ends| - 1], limit)]
  }

  lemma {:induction false} AfterFrames(p: Trace, a: Sample, ends: seq<nat>, limit: nat)
    requires StableSince(p + [Sampled(a)]) == Some(a.at)
    ensures var t := p + [Sampled(a)] + Frames(ends, limit);
            && LastSample(t) == Some(a.at)
            && StableSince(t) == if forall i | 0 <= i < |ends| :: Monus(ends[i], a.at) < limit then Some(a.at) else None
  {
    if ends == [] {
      assert p + [Sampled(a)] + Frames(ends, limit) == p + [Sampled(a)];
      StabilityExtended(p, Sampled(a));
    } else {
      var before, end := ends[..|ends| - 1], FrameEnded(ends[|ends| - 1], limit);
      AfterFrames(p, a, before, limit);
      assert p + [Sampled(a)] + Frames(ends, limit) == p + [Sampled(a)] + Frames(before, limit) + [end];
      StabilityExtended(p + [Sampled(a)] + Frames(before, limit), end);
    }
  }

  /** What stable hashing cannot see, at any point of any run: between the sample with which hashing became
      stable and a healthy one five minutes or more later, the silence is found out exactly when some frame
      ends in it with stale metrics; a silence that no such frame falls into (a sleeping computer) counts
      as stable hashing. */
  lemma SilenceCountsUnlessAFrameSeesIt(p: Trace, a: Sample, ends: seq<nat>, limit: nat, b: Sample)
    requires StableSince(p + [Sampled(a)]) == Some(a.at)
    requires Healthy(b) && !b.clearsWork && b.at >= a.at + ENGINE_STABILITY_RESET
    ensures FiveStableMinutes(p + [Sampled(a)] + Frames(ends, limit) + [Sampled(b)]) <==>
            forall i | 0 <= i < |ends| :: Monus(ends[i], a.at) < limit
  {
    var t := p + [Sampled(a)] + Frames(ends, limit);
    AfterFrames(p, a, ends, limit);
    StabilityExtended(t, Sampled(b));
    StableNowExactly(t + [Sampled(b)]);
    hide FiveStableMinutes, StableSince, Frames;
  }

  /** The budget is renewed only after five minutes of stable hashing: every sample since the first
      healthy, no worker, session or job interruption, and fresh metrics at the end of every frame. */
  lemma RenewedOnlyWhenStable(t: Trace, j: nat)
    requires Safe(t) && j < |t| && t[j].Renewed?
    ensures FiveStableMinutes(t[..j])
  {
    assert Allowed(t[..j], t[j]);
    StableNowExactly(t[..j]);
  }

  /** At most five automatic starts in any stretch of a run in which the operator does not start the
      miner and hashing is never stable for five minutes. */
  lemma AtMostFiveRetries(t: Trace, i: nat, j: nat)
    requires Safe(t) && i <= j <= |t|
    requires forall k | i <= k < j :: !t[k].Begun? && !FiveStableMinutes(t[..k])
    ensures Retries(t[i..j]) <= MAX_AUTOMATIC_ENGINE_RESTARTS
  {
    forall k | i <= k < j ensures !t[k].Renewed? { if t[k].Renewed? { RenewedOnlyWhenStable(t, k); } }
    var s := t[..j];
    assert forall k | 0 <= k < |s| :: s[..k] == t[..k] && s[k] == t[k];
    hide FiveStableMinutes;
    UsedIsBounded(s);
    UsedCountsRetries(t, i, j);
  }

  lemma {:induction false} StaysStopped(t: Trace, i: nat, j: nat)
    requires i < j <= |t| && t[i].Ended?
    requires forall k | i < k < j :: !t[k].Begun?
    ensures Stopped(t[..j])
  {
    assert t[..j][..j - 1] == t[..j - 1];
    if i < j - 1 {
      StaysStopped(t, i, j - 1);
    }
  }

  /** After a stop nothing is started, automatically or otherwise, before the operator's next start. */
  lemma NothingStartsAfterAStop(t: Trace, i: nat, j: nat)
    requires Safe(t) && i < j < |t| && t[i].Ended? && (t[j].Retried? || t[j].Spawned?)
    ensures exists k :: i < k < j && t[k].Begun?
  {
    assert Allowed(t[..j], t[j]);
    if forall k | i < k < j :: !t[k].Begun? {
      StaysStopped(t, i, j);
    }
  }

  lemma {:induction false} StaysUnreaped(t: Trace, i: nat, j: nat, pid: Pid)
    requires i < j <= |t| && t[i] == Spawned(pid)
    requires forall k | i < k < j :: t[k] != Reaped(pid)
    ensures pid in Unreaped(t[..j])
  {
    assert t[..j][..j - 1] == t[..j - 1];
    if i < j - 1 {
      StaysUnreaped(t, i, j - 1, pid);
    }
  }

  /** An engine process is spawned only once every earlier one was observed to be gone. */
  lemma SpawnsWaitForTheReap(t: Trace, i: nat, j: nat)
    requires Safe(t) && i < j < |t| && t[i].Spawned? && t[j].Spawned?
    ensures exists k :: i < k < j && t[k] == Reaped(t[i].pid)
  {
    assert Allowed(t[..j], t[j]);
    if forall k | i < k < j :: t[k] != Reaped(t[i].pid) {
      StaysUnreaped(t, i, j, t[i].pid);
    }
  }

  /** So at most one engine process exists at any time. */
  lemma {:induction false} AtMostOneEngine(t: Trace)
    requires Safe(t)
    ensures |Unreaped(t)| <= 1
  {
    if t != [] {
      var s := t[..|t| - 1];
      assert forall i | 0 <= i < |s| :: s[..i] == t[..i] && s[i] == t[i];
      assert Allowed(s, t[|t| - 1]);
      AtMostOneEngine(s);
    }
  }

  lemma {:induction false} FatalUntilPrepared(t: Trace, i: nat, j: nat)
    requires i < j <= |t| && t[i].Failed?
    requires forall k | i < k < j :: !t[k].Prepared?
    ensures Fatal(t[..j])
  {
    assert t[..j][..j - 1] == t[..j - 1];
    if i < j - 1 {
      FatalUntilPrepared(t, i, j - 1);
    }
  }

  /** A fatal failure is final until the next engine start: if the engine no longer counts as failed,
      an operator's or an automatic start came in between and passed its checks. */
  lemma FatalIsAbsorbing(t: Trace, i: nat, j: nat)
    requires Safe(t) && i < j <= |t| && t[i].Failed? && !Fatal(t[..j])
    ensures exists k :: i < k && k + 1 < j && (t[k].Begun? || t[k].Retried?) && t[k + 1].Prepared?
  {
    if forall k | i < k < j :: !t[k].Prepared? {
      FatalUntilPrepared(t, i, j);
    }
    var p :| i < p < j && t[p].Prepared?;
    assert Allowed(t[..p], t[p]);
    assert t[p - 1] == t[..p][p - 1];
  }
}
