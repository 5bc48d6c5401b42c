/** The job slot and generation counter of src/main.rs as an interleaving of atomic steps of any
    number of threads. Installers and teardowns write the slot and bump the counter afterwards;
    the accepted-block clear does both while it holds the slot's lock; workers load the counter,
    then read the slot, and compare the counter again before they hash or submit.

    Steps interleave one at a time over a single memory: the Acquire and Release orderings of the
    counter, next to a slot that is only touched under its lock, are taken as sequentially consistent.

    Jobs are identified by allocation, as `Arc::ptr_eq` does. The log of slot writes and the counter
    value of each publication are history, read by no step. */
module JobProtocol {
  import opened Basics

  type JobId = nat
  type ThreadId = nat

  datatype Phase =
    | Idle
    | Loaded                   // the counter was loaded anew, the slot not yet read
    | Wrote(write: nat)        // slot written and unlocked, counter not yet bumped
    | ClearHolding(write: nat) // accepted-block clear: slot emptied under the lock, not yet bumped
    | ClearBumped              // bumped, lock still held

  /** A thread's copy of the counter (`None` before its first load), the job it works on, and the
      number of the slot write it read that job at. */
  datatype Thread = Thread(seen: Option<nat>, job: Option<JobId>, readAt: nat, phase: Phase)

  /** One slot write: what it put there, which thread made it, and whether it was an accepted-block clear. */
  datatype Entry = Entry(content: Option<JobId>, writer: ThreadId, cleared: Option<JobId>)

  datatype State = State(
    slot: Option<JobId>,
    generation: nat,
    lock: Option<ThreadId>,
    nextJob: JobId,
    threads: map<ThreadId, Thread>,
    log: seq<Entry>,
    published: map<nat, nat>)

  datatype Step =
    | Install(thread: ThreadId)
    | Empty(thread: ThreadId)
    | Bump(thread: ThreadId)
    | ClearIfCurrent(thread: ThreadId)
    | ClearBump(thread: ThreadId)
    | ClearRelease(thread: ThreadId)
    | Load(thread: ThreadId)
    | Read(thread: ThreadId)

  /** Number of the latest slot write; write 0 is the initial empty slot. */
  function Writes(s: State): int { |s.log| - 1 }

  predicate Enabled(s: State, step: Step) {
    && step.thread in s.threads
    && var t := s.threads[step.thread];
       match step
       case Install(_) => t.phase.Idle? && s.lock.None?
       case Empty(_) => t.phase.Idle? && s.lock.None?
       case Bump(_) => t.phase.Wrote?
       case ClearIfCurrent(_) => t.phase.Idle? && t.job.Some? && s.lock.None?
       case ClearBump(_) => t.phase.ClearHolding?
       case ClearRelease(_) => t.phase.ClearBumped?
       case Load(_) => t.phase.Idle?
       case Read(_) => t.phase.Loaded? && s.lock.None?
  }

  function SetPhase(s: State, id: ThreadId, phase: Phase): State
    requires id in s.threads
  {
    s.(threads := s.threads[id := s.threads[id].(phase := phase)])
  }

  function Write(s: State, id: ThreadId, content: Option<JobId>, cleared: Option<JobId>): State {
    s.(slot := content, log := s.log + [Entry(content, id, cleared)])
  }

  function Publish(s: State, write: nat): State {
    s.(generation := s.generation + 1, published := s.published[write := s.generation + 1])
  }

  function Apply(s: State, step: Step): State
    requires Enabled(s, step)
  {
    var id := step.thread;
    var t := s.threads[id];
    match step
    case Install(_) => SetPhase(Write(s, id, Some(s.nextJob), None).(nextJob := s.nextJob + 1), id, Wrote(|s.log|))
    case Empty(_) => SetPhase(Write(s, id, None, None), id, Wrote(|s.log|))
    case Bump(_) => SetPhase(Publish(s, t.phase.write), id, Idle)
    case ClearIfCurrent(_) =>
      if s.slot == t.job
      then SetPhase(Write(s, id, None, t.job).(lock := Some(id)), id, ClearHolding(|s.log|))
      else s
    case ClearBump(_) => SetPhase(Publish(s, t.phase.write), id, ClearBumped)
    case ClearRelease(_) => SetPhase(s.(lock := None), id, Idle)
    case Load(_) =>
      if t.seen == Some(s.generation) then s
      else s.(threads := s.threads[id := t.(seen := Some(s.generation), phase := Loaded)])
    case Read(_) =>
      s.(threads := s.threads[id := t.(job := s.slot, readAt := Monus(|s.log|, 1), phase := Idle)])
  }

  /** The comparison a worker makes before each hash and again before it submits. */
  predicate CheckPasses(s: State, id: ThreadId) {
    id in s.threads && s.threads[id].phase.Idle? && s.threads[id].seen == Some(s.generation)
  }

  ghost predicate Init(s: State) {
    && s.slot == None && s.generation == 0 && s.lock == None && s.nextJob == 0
    && |s.log| == 1 && s.log[0].content == None && s.log[0].cleared == None && s.published == map[]
    && forall id | id in s.threads :: s.threads[id] == Thread(None, None, 0, Idle)
  }

  ghost predicate Run(states: seq<State>, steps: seq<Step>) {
    && |states| == |steps| + 1
    && forall i | 0 <= i < |steps| :: Enabled(states[i], steps[i]) && states[i + 1] == Apply(states[i], steps[i])
  }

  // ---------------------------------------------------------------- the invariant

  predicate Publishing(phase: Phase) { phase.Wrote? || phase.ClearHolding? }

  /** Every write is published, or its thread is between making it and publishing it. */
  ghost predicate PublicationOk(s: State) {
    && |s.published| == s.generation
    && (forall n | n in s.published :: 1 <= n <= Writes(s) && 1 <= s.published[n] <= s.generation)
    && (forall n | 1 <= n <= Writes(s) && n !in s.published :: InFlight(s, s.log[n].writer, n))
    && (forall id | id in s.threads && Publishing(s.threads[id].phase) ::
          var n := s.threads[id].phase.write;
          1 <= n <= Writes(s) && n !in s.published && s.log[n].writer == id)
  }

  ghost predicate InFlight(s: State, id: ThreadId, write: nat) {
    id in s.threads && Publishing(s.threads[id].phase) && s.threads[id].phase.write == write
  }

  /** What a thread holds is what the slot contained when it read it, and it read no earlier than
      any write published up to the counter value it works under. */
  ghost predicate ThreadOk(s: State, t: Thread) {
    && 0 <= t.readAt <= Writes(s) && t.job == s.log[t.readAt].content
    && (t.seen.Some? ==> t.seen.value <= s.generation)
    && (t.seen.Some? && !t.phase.Loaded? ==>
          t.seen.value <= t.readAt
          && forall n | n in s.published && s.published[n] <= t.seen.value :: n <= t.readAt)
  }

  ghost predicate ThreadsOk(s: State) {
    forall id | id in s.threads :: ThreadOk(s, s.threads[id])
  }

  ghost predicate LogOk(s: State) {
    && s.log != [] && s.log[|s.log| - 1].content == s.slot
    && (forall i | 0 <= i < |s.log| && s.log[i].content.Some? :: s.log[i].content.value < s.nextJob)
    && (forall i, j | 0 <= i < j < |s.log| && s.log[i].content.Some? :: s.log[i].content != s.log[j].content)
    && (forall n | 0 <= n < |s.log| && s.log[n].cleared.Some? ::
          n > 0 && s.log[n].content == None && s.log[n - 1].content == s.log[n].cleared)
  }

  predicate HoldsLock(phase: Phase) { phase.ClearHolding? || phase.ClearBumped? }

  /** The lock is held exactly by the one thread that is in the middle of an accepted-block clear. */
  ghost predicate LockOk(s: State) {
    forall id | id in s.threads :: s.lock == Some(id) <==> HoldsLock(s.threads[id].phase)
  }

  ghost predicate LockHeldByThread(s: State) { s.lock.Some? ==> s.lock.value in s.threads }

  ghost predicate Inv(s: State) {
    LogOk(s) && PublicationOk(s) && ThreadsOk(s) && LockOk(s) && LockHeldByThread(s)
  }

  lemma LockStep(s: State, step: Step)
    requires LockOk(s) && LockHeldByThread(s) && Enabled(s, step)
    ensures LockOk(Apply(s, step)) && LockHeldByThread(Apply(s, step))
  {
  }

  lemma InitInv(s: State)
    requires Init(s)
    ensures Inv(s)
  {
  }

  lemma {:induction false} IntervalSize(s: set<nat>, count: nat)
    requires forall n | n in s :: 1 <= n <= count
    ensures |s| <= count
    ensures (forall n: nat | 1 <= n <= count :: n in s) ==> |s| == count
  {
    if count > 0 {
      IntervalSize(s - {count}, count - 1);
      if count in s {
        assert |s - {count}| == |s| - 1;
      } else {
        assert s - {count} == s;
      }
    } else {
      assert s == {};
    }
  }

  lemma PublishedCount(s: State)
    requires LogOk(s) && PublicationOk(s)
    ensures s.generation <= Writes(s)
    ensures (forall id | id in s.threads :: !Publishing(s.threads[id].phase)) ==> s.generation == Writes(s)
  {
    assert |s.published.Keys| == |s.published|;
    IntervalSize(s.published.Keys, Writes(s));
  }

  // ---------------------------------------------------------------- one step

  lemma WriteKeepsLog(s: State, e: State, id: ThreadId)
    requires LogOk(s) && |e.log| == |s.log| + 1 && e.log[..|s.log|] == s.log
    requires e.slot == e.log[|s.log|].content
    requires (e.slot == None && e.nextJob == s.nextJob) || (e.slot == Some(s.nextJob) && e.nextJob == s.nextJob + 1)
    requires e.log[|s.log|].cleared.Some? ==> e.slot == None && e.log[|s.log|].cleared == s.slot
    ensures LogOk(e)
  {
    forall i | 0 <= i < |s.log| ensures e.log[i] == s.log[i] { assert e.log[..|s.log|][i] == s.log[i]; }
  }

  /** `id` alone moves, and history is only added to. */
  ghost predicate Extends(s: State, e: State, id: ThreadId) {
    && id in s.threads && e.threads.Keys == s.threads.Keys
    && (forall jd | jd in s.threads && jd != id :: e.threads[jd] == s.threads[jd])
    && |s.log| <= |e.log| && e.log[..|s.log|] == s.log && e.generation >= s.generation
    && forall n | n in e.published ::
         (n in s.published && e.published[n] == s.published[n]) || e.published[n] > s.generation
  }

  lemma ThreadStaysOk(s: State, e: State, id: ThreadId, t: Thread)
    requires Extends(s, e, id) && ThreadOk(s, t)
    ensures ThreadOk(e, t)
  {
    assert e.log[..|s.log|][t.readAt] == s.log[t.readAt];
  }

  lemma OthersStayOk(s: State, e: State, id: ThreadId)
    requires Extends(s, e, id) && ThreadsOk(s) && ThreadOk(e, e.threads[id])
    ensures ThreadsOk(e)
  {
    forall jd | jd in e.threads ensures ThreadOk(e, e.threads[jd]) {
      if jd != id {
        ThreadStaysOk(s, e, id, s.threads[jd]);
      }
    }
  }

  lemma StepExtends(s: State, step: Step)
    requires s.log != [] && Enabled(s, step)
    requires Publishing(s.threads[step.thread].phase) ==> s.threads[step.thread].phase.write !in s.published
    ensures Extends(s, Apply(s, step), step.thread)
  {
    var e := Apply(s, step);
    assert e.log[..|s.log|] == s.log;
  }

  /** A thread that does not re-read the slot stays in order because history only grows. */
  lemma SameReadingOk(s: State, e: State, id: ThreadId, t: Thread)
    requires Extends(s, e, id) && ThreadOk(s, t) && !t.phase.Loaded?
    requires e.threads[id] == t.(phase := e.threads[id].phase)
    ensures ThreadOk(e, e.threads[id])
  {
    ThreadStaysOk(s, e, id, t);
  }

  /** What a slot write changes: it appends one entry and its thread is then between write and bump. */
  ghost predicate WriteEffect(s: State, e: State, id: ThreadId) {
    && id in s.threads && !Publishing(s.threads[id].phase)
    && |e.log| == |s.log| + 1 && e.log[..|s.log|] == s.log && e.log[|s.log|].writer == id
    && e.generation == s.generation && e.published == s.published
    && e.threads.Keys == s.threads.Keys
    && (forall jd | jd in s.threads && jd != id :: e.threads[jd] == s.threads[jd])
    && InFlight(e, id, |s.log|)
    && e.threads[id] == s.threads[id].(phase := e.threads[id].phase)
    && !s.threads[id].phase.Loaded?
  }

  lemma EntryKept(s: State, e: State, n: nat)
    requires n < |s.log| <= |e.log| && e.log[..|s.log|] == s.log
    ensures e.log[n] == s.log[n]
  {
    assert e.log[..|s.log|][n] == s.log[n];
  }

  lemma WriteKeepsPublication(s: State, e: State, id: ThreadId)
    requires s.log != [] && PublicationOk(s) && WriteEffect(s, e, id)
    ensures PublicationOk(e)
  {
    forall n | 1 <= n <= Writes(e) && n !in e.published ensures InFlight(e, e.log[n].writer, n) {
      if n < |s.log| {
        EntryKept(s, e, n);
        assert InFlight(s, s.log[n].writer, n);
      }
    }
    forall jd | jd in e.threads && Publishing(e.threads[jd].phase)
      ensures var n := e.threads[jd].phase.write; 1 <= n <= Writes(e) && n !in e.published && e.log[n].writer == jd
    {
      if jd != id { EntryKept(s, e, s.threads[jd].phase.write); }
    }
  }

  lemma WriteHasEffect(s: State, step: Step)
    requires Enabled(s, step)
    requires step.Install? || step.Empty? || (step.ClearIfCurrent? && s.slot == s.threads[step.thread].job)
    ensures WriteEffect(s, Apply(s, step), step.thread)
  {
    var e := Apply(s, step);
    assert e.log[..|s.log|] == s.log;
  }

  lemma WriteInv(s: State, step: Step)
    requires LogOk(s) && PublicationOk(s) && ThreadsOk(s) && Enabled(s, step)
    requires step.Install? || step.Empty? || (step.ClearIfCurrent? && s.slot == s.threads[step.thread].job)
    ensures LogOk(Apply(s, step)) && PublicationOk(Apply(s, step)) && ThreadsOk(Apply(s, step))
  {
    var id, e := step.thread, Apply(s, step);
    WriteHasEffect(s, step);
    StepExtends(s, step);
    assert LogOk(e) by { hide PublicationOk, ThreadsOk; WriteKeepsLog(s, e, id); }
    assert PublicationOk(e) by { hide LogOk, ThreadsOk, WriteEffect; WriteKeepsPublication(s, e, id); }
    assert ThreadsOk(e) by {
      assert ThreadOk(s, s.threads[id]);
      hide LogOk, PublicationOk, ThreadOk, ThreadsOk, Extends;
      SameReadingOk(s, e, id, s.threads[id]);
      OthersStayOk(s, e, id);
    }
  }

  lemma PublishKeepsPublication(s: State, step: Step)
    requires s.log != [] && PublicationOk(s) && Enabled(s, step) && (step.Bump? || step.ClearBump?)
    ensures PublicationOk(Apply(s, step))
  {
    var id, e := step.thread, Apply(s, step);
    var write := s.threads[id].phase.write;
    assert write !in s.published && s.log[write].writer == id;
    assert e.published == s.published[write := s.generation + 1];
    forall n | 1 <= n <= Writes(e) && n !in e.published ensures InFlight(e, e.log[n].writer, n) {
      assert InFlight(s, s.log[n].writer, n);
    }
    forall jd | jd in e.threads && Publishing(e.threads[jd].phase)
      ensures var n := e.threads[jd].phase.write; 1 <= n <= Writes(e) && n !in e.published && e.log[n].writer == jd
    {
      assert jd != id;
    }
  }

  /** All but the writes leave the log alone. */
  lemma LogUntouched(s: State, step: Step)
    requires LogOk(s) && Enabled(s, step) && (step.Bump? || step.ClearBump? || step.ClearRelease? || step.Load? || step.Read?)
    ensures LogOk(Apply(s, step))
  {
  }

  lemma PublisherOk(s: State, step: Step)
    requires s.log != [] && PublicationOk(s) && ThreadsOk(s) && Enabled(s, step) && (step.Bump? || step.ClearBump?)
    ensures Extends(s, Apply(s, step), step.thread)
    ensures ThreadOk(Apply(s, step), Apply(s, step).threads[step.thread])
  {
    var id := step.thread;
    assert s.threads[id].phase.write !in s.published;
    assert ThreadOk(s, s.threads[id]);
    hide PublicationOk, ThreadOk, ThreadsOk, Extends;
    StepExtends(s, step);
    SameReadingOk(s, Apply(s, step), id, s.threads[id]);
  }

  lemma PublishInv(s: State, step: Step)
    requires LogOk(s) && PublicationOk(s) && ThreadsOk(s) && Enabled(s, step) && (step.Bump? || step.ClearBump?)
    ensures LogOk(Apply(s, step)) && PublicationOk(Apply(s, step)) && ThreadsOk(Apply(s, step))
  {
    assert LogOk(s) && PublicationOk(s) && ThreadsOk(s) && s.log != [];
    hide LogOk, PublicationOk, ThreadOk, ThreadsOk, Extends, Apply, Enabled;
    LogUntouched(s, step);
    PublishKeepsPublication(s, step);
    PublisherOk(s, step);
    OthersStayOk(s, Apply(s, step), step.thread);
  }

  lemma QuietKeepsPublication(s: State, step: Step)
    requires s.log != [] && PublicationOk(s) && Enabled(s, step)
    requires step.ClearRelease? || step.Load? || step.Read?
    ensures PublicationOk(Apply(s, step))
  {
    var id, e := step.thread, Apply(s, step);
    forall n | 1 <= n <= Writes(e) && n !in e.published ensures InFlight(e, e.log[n].writer, n) {
      assert InFlight(s, s.log[n].writer, n);
    }
  }

  lemma LoadIsOk(s: State, step: Step)
    requires LogOk(s) && PublicationOk(s) && ThreadsOk(s) && Enabled(s, step) && step.Load?
    ensures ThreadOk(Apply(s, step), Apply(s, step).threads[step.thread])
  {
    assert ThreadOk(s, s.threads[step.thread]);
    hide LogOk, PublicationOk, ThreadsOk;
  }

  lemma ReadIsOk(s: State, step: Step)
    requires LogOk(s) && PublicationOk(s) && ThreadsOk(s) && Enabled(s, step) && step.Read?
    ensures ThreadOk(Apply(s, step), Apply(s, step).threads[step.thread])
  {
    PublishedCount(s);
    assert ThreadOk(s, s.threads[step.thread]);
    assert forall n | n in s.published :: n <= Writes(s);
    assert s.log != [] && s.log[|s.log| - 1].content == s.slot;
    hide LogOk, PublicationOk, ThreadsOk;
  }

  lemma ReleaseIsOk(s: State, step: Step)
    requires s.log != [] && ThreadsOk(s) && Enabled(s, step) && step.ClearRelease?
    ensures ThreadOk(Apply(s, step), Apply(s, step).threads[step.thread])
  {
    assert ThreadOk(s, s.threads[step.thread]);
    hide ThreadOk, ThreadsOk;
    StepExtends(s, step);
    hide Extends;
    SameReadingOk(s, Apply(s, step), step.thread, s.threads[step.thread]);
  }

  lemma ReadingIsOk(s: State, step: Step)
    requires LogOk(s) && PublicationOk(s) && ThreadsOk(s) && Enabled(s, step)
    requires step.ClearRelease? || step.Load? || step.Read?
    ensures step.thread in Apply(s, step).threads
    ensures ThreadOk(Apply(s, step), Apply(s, step).threads[step.thread])
  {
    assert s.log != [] && step.thread in s.threads && step.thread in Apply(s, step).threads;
    hide *;
    match step {
      case Load(_) => LoadIsOk(s, step);
      case Read(_) => ReadIsOk(s, step);
      case ClearRelease(_) => ReleaseIsOk(s, step);
    }
  }

  lemma QuietExtends(s: State, step: Step)
    requires s.log != [] && Enabled(s, step) && (step.ClearRelease? || step.Load? || step.Read?)
    ensures Extends(s, Apply(s, step), step.thread)
  {
    StepExtends(s, step);
  }

  lemma QuietInv(s: State, step: Step)
    requires LogOk(s) && PublicationOk(s) && ThreadsOk(s) && Enabled(s, step)
    requires step.ClearRelease? || step.Load? || step.Read?
    ensures LogOk(Apply(s, step)) && PublicationOk(Apply(s, step)) && ThreadsOk(Apply(s, step))
  {
    ReadingIsOk(s, step);
    assert LogOk(s) && PublicationOk(s) && ThreadsOk(s) && s.log != [];
    hide LogOk, PublicationOk, ThreadOk, ThreadsOk, Extends, Apply, Enabled;
    LogUntouched(s, step);
    QuietKeepsPublication(s, step);
    QuietExtends(s, step);
    OthersStayOk(s, Apply(s, step), step.thread);
  }

  lemma StepInv(s: State, step: Step)
    requires Inv(s) && Enabled(s, step)
    ensures Inv(Apply(s, step))
  {
    LockStep(s, step);
    assert LogOk(s) && PublicationOk(s) && ThreadsOk(s);
    hide LogOk, PublicationOk, ThreadsOk, LockOk, LockHeldByThread, Enabled, Apply;
    match step {
      case Install(_) => WriteInv(s, step);
      case Empty(_) => WriteInv(s, step);
      case ClearIfCurrent(_) => if s.slot == s.threads[step.thread].job { WriteInv(s, step); }
      case Bump(_) => PublishInv(s, step);
      case ClearBump(_) => PublishInv(s, step);
      case _ => QuietInv(s, step);
    }
  }

  // ---------------------------------------------------------------- whole runs

  lemma {:induction false} RunInv(states: seq<State>, steps: seq<Step>, k: nat)
    requires Run(states, steps) && Init(states[0]) && k < |states|
    ensures Inv(states[k])
  {
    if k == 0 {
      InitInv(states[0]);
    } else {
      RunInv(states, steps, k - 1);
      StepInv(states[k - 1], steps[k - 1]);
    }
  }

  /** Writes and publications are never forgotten. */
  ghost predicate Grown(s: State, e: State) {
    && |s.log| <= |e.log| && e.log[..|s.log|] == s.log
    && s.published.Keys <= e.published.Keys
  }

  lemma StepGrows(s: State, step: Step)
    requires Enabled(s, step)
    ensures Grown(s, Apply(s, step))
  {
    assert s.log[..|s.log|] == s.log;
  }

  lemma GrownIsTransitive(a: State, b: State, c: State)
    ensures Grown(a, a)
    ensures Grown(a, b) && Grown(b, c) ==> Grown(a, c)
  {
    assert a.log[..|a.log|] == a.log;
    if Grown(a, b) && Grown(b, c) {
      assert c.log[..|a.log|] == c.log[..|b.log|][..|a.log|];
    }
  }

  lemma RunStep(states: seq<State>, steps: seq<Step>, k: nat)
    requires Run(states, steps) && k < |steps|
    ensures |states| == |steps| + 1 && Enabled(states[k], steps[k]) && states[k + 1] == Apply(states[k], steps[k])
  {
    hide Enabled, Apply;
  }

  lemma NextGrows(states: seq<State>, steps: seq<Step>, k: nat)
    requires Run(states, steps) && k + 1 < |states|
    ensures Grown(states[k], states[k + 1])
  {
    assert |states| == |steps| + 1;
    hide *;
    RunStep(states, steps, k);
    StepGrows(states[k], steps[k]);
  }

  lemma {:induction false} HistoryGrows(states: seq<State>, steps: seq<Step>, i: nat, k: nat)
    requires Run(states, steps) && i <= k < |states|
    ensures Grown(states[i], states[k])
  {
    hide *;
    if i == k {
      GrownIsTransitive(states[i], states[i], states[i]);
    } else {
      HistoryGrows(states, steps, i, k - 1);
      NextGrows(states, steps, k - 1);
      GrownIsTransitive(states[i], states[k - 1], states[k]);
    }
  }

  /** The central property: when a worker's generation check passes and no writer is between its slot
      write and its bump, the job the worker is hashing is exactly the installed one. */
  lemma PassingCheckHasTheInstalledJob(states: seq<State>, steps: seq<Step>, k: nat, id: ThreadId)
    requires Run(states, steps) && Init(states[0]) && k < |states|
    requires CheckPasses(states[k], id)
    requires forall w | w in states[k].threads :: !Publishing(states[k].threads[w].phase)
    ensures states[k].threads[id].job == states[k].slot
  {
    RunInv(states, steps, k);
    PublishedCount(states[k]);
    assert ThreadOk(states[k], states[k].threads[id]);
  }

  /** Without the second condition: a passing check is stale exactly when some thread is between the
      latest slot write and its bump, and the worker read the slot before that write. */
  lemma PassingCheckIsStaleExactly(states: seq<State>, steps: seq<Step>, k: nat, id: ThreadId)
    requires Run(states, steps) && Init(states[0]) && k < |states|
    requires CheckPasses(states[k], id) && states[k].threads[id].job.Some?
    ensures var s := states[k];
            s.threads[id].job != s.slot <==>
              Writes(s) > 0 && s.threads[id].readAt < Writes(s) && exists w :: InFlight(s, w, Writes(s))
  {
    RunInv(states, steps, k);
    StaleExactly(states[k], id);
  }

  lemma StaleExactly(s: State, id: ThreadId)
    requires Inv(s) && CheckPasses(s, id) && s.threads[id].job.Some?
    ensures s.threads[id].job != s.slot <==>
              Writes(s) > 0 && s.threads[id].readAt < Writes(s) && exists w :: InFlight(s, w, Writes(s))
  {
    assert ThreadOk(s, s.threads[id]);
    var n := Writes(s);
    if s.threads[id].readAt < n {
      assert n !in s.published;
      assert InFlight(s, s.log[n].writer, n);
    }
  }

  /** Once any write that came after a job's installation has been published, no check ever passes
      again for that job, on any thread. */
  lemma NoCheckPassesAfterTheReplacementsBump(
    states: seq<State>, steps: seq<Step>, i: nat, installed: nat, later: nat, k: nat, id: ThreadId)
    requires Run(states, steps) && Init(states[0]) && i <= k < |states|
    requires installed < later < |states[i].log| && states[i].log[installed].content.Some?
    requires later in states[i].published
    requires CheckPasses(states[k], id)
    ensures states[k].threads[id].job != states[i].log[installed].content
  {
    RunInv(states, steps, k);
    HistoryGrows(states, steps, i, k);
    EntryKept(states[i], states[k], installed);
    assert ThreadOk(states[k], states[k].threads[id]);
    assert later in states[k].published;
  }

  /** An accepted-block clear erases the job it was accepted for and no other: if anything was written
      since that job was installed, the clear changes nothing, at any later time and on any thread. */
  lemma AcceptedClearSparesOtherJobs(
    states: seq<State>, steps: seq<Step>, i: nat, installed: nat, k: nat)
    requires Run(states, steps) && Init(states[0]) && i <= k < |steps|
    requires installed < |states[i].log| && states[i].log[installed].content.Some?
    requires steps[k].ClearIfCurrent? && states[k].threads[steps[k].thread].job == states[i].log[installed].content
    ensures |states[k].log| > installed + 1 ==> states[k + 1] == states[k]
    ensures |states[k].log| == installed + 1 ==> states[k + 1].slot == None
  {
    RunInv(states, steps, k);
    HistoryGrows(states, steps, i, k);
    EntryKept(states[i], states[k], installed);
    RunStep(states, steps, k);
    hide Run, Init;
    ClearExactly(states[k], steps[k], installed);
  }

  lemma ClearExactly(s: State, step: Step, installed: nat)
    requires Inv(s) && Enabled(s, step) && step.ClearIfCurrent?
    requires installed < |s.log| && s.log[installed].content.Some? && s.threads[step.thread].job == s.log[installed].content
    ensures |s.log| > installed + 1 ==> Apply(s, step) == s
    ensures |s.log| == installed + 1 ==> Apply(s, step).slot == None
  {
    hide PublicationOk, ThreadsOk;
  }

  /** A worker that loads the counter either still works under its value, and nothing changes, or goes back to the
      slot: once it has read it, its check passes for the job installed there. */
  lemma ReloadCatchesUp(s: State, id: ThreadId)
    requires Inv(s) && Enabled(s, Load(id))
    ensures var t := Apply(s, Load(id));
            if CheckPasses(s, id) then t == s
            else !CheckPasses(t, id) && (s.lock == None ==>
                   && Enabled(t, Read(id))
                   && var u := Apply(t, Read(id)); CheckPasses(u, id) && u.threads[id].job == u.slot == s.slot)
  {
    hide Inv;
  }

  /** Every publication is noticed: right after it no check passes, on any thread and for any job. */
  lemma EveryBumpIsNoticed(s: State, step: Step, id: ThreadId)
    requires Inv(s) && Enabled(s, step) && (step.Bump? || step.ClearBump?)
    ensures !CheckPasses(Apply(s, step), id)
  {
    if id in s.threads { assert ThreadOk(s, s.threads[id]); }
    hide LogOk, PublicationOk, LockOk;
  }

  /** What each writer leaves in the slot: an installer a job that never was there before, a teardown nothing. */
  lemma WritesAreWhatTheySay(s: State, step: Step)
    requires Inv(s) && Enabled(s, step) && (step.Install? || step.Empty?)
    ensures var t := Apply(s, step);
            if step.Empty? then t.slot == None
            else t.slot.Some? && forall n | 0 <= n < |s.log| :: s.log[n].content != t.slot
  {
    hide PublicationOk, ThreadsOk, LockOk;
  }

  /** Over every run the slot's lock is held exactly by the thread in the middle of an accepted-block clear. */
  lemma LockBelongsToTheClear(states: seq<State>, steps: seq<Step>, k: nat, id: ThreadId)
    requires Run(states, steps) && Init(states[0]) && k < |states|
    ensures states[k].lock == Some(id) <==> id in states[k].threads && HoldsLock(states[k].threads[id].phase)
  {
    RunInv(states, steps, k);
    hide Run, LogOk, PublicationOk, ThreadsOk;
  }

  /** In the whole history, the content an accepted-block clear erased was the job it was for. */
  lemma EveryClearErasedItsOwnJob(states: seq<State>, steps: seq<Step>, k: nat, n: nat)
    requires Run(states, steps) && Init(states[0]) && k < |states|
    requires 0 < n < |states[k].log| && states[k].log[n].cleared.Some?
    ensures states[k].log[n - 1].content == states[k].log[n].cleared && states[k].log[n].content == None
  {
    RunInv(states, steps, k);
  }

  lemma RunExtended(states: seq<State>, steps: seq<Step>, step: Step) returns (longer: seq<State>, taken: seq<Step>)
    requires Run(states, steps) && Enabled(states[|steps|], step)
    ensures Run(longer, taken) && |longer| == |taken| + 1 && longer[0] == states[0]
    ensures longer[|taken|] == Apply(states[|steps|], step)
  {
    longer, taken := states + [Apply(states[|steps|], step)], steps + [step];
    hide Enabled, Apply;
  }

  lemma OneJobPublished() returns (states: seq<State>, steps: seq<Step>)
    ensures Run(states, steps) && |states| == |steps| + 1 && Init(states[0])
    ensures var idle := Thread(None, None, 0, Idle);
            states[|steps|] == State(Some(0), 1, None, 1, map[0 := idle, 1 := idle],
                                     [Entry(None, 0, None), Entry(Some(0), 0, None)], map[1 := 1])
  {
    var idle := Thread(None, None, 0, Idle);
    states, steps := [State(None, 0, None, 0, map[0 := idle, 1 := idle], [Entry(None, 0, None)], map[])], [];
    assert Run(states, steps) && Init(states[0]);
    hide Run, Init;
    states, steps := RunExtended(states, steps, Install(0));
    states, steps := RunExtended(states, steps, Bump(0));
  }

  /** The window the check leaves open: a worker passes it on job 0 after job 1 is in the slot, while the
      installer has not bumped the counter yet. So the condition of the central property is needed. */
  lemma CheckCanPassBeforeTheBump() returns (states: seq<State>, steps: seq<Step>)
    ensures Run(states, steps) && |states| == |steps| + 1 && Init(states[0])
    ensures var s := states[|steps|]; CheckPasses(s, 1) && s.threads[1].job == Some(0) && s.slot == Some(1)
  {
    states, steps := OneJobPublished();
    hide Run, Init;
    states, steps := RunExtended(states, steps, Load(1));
    states, steps := RunExtended(states, steps, Read(1));
    states, steps := RunExtended(states, steps, Install(0));
  }
}
