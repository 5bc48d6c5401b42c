/** The shared full-dataset manager of src/pow.rs.

    The mutex-guarded slot is the class `DatasetManager`; its two methods are proved against the
    pure functions `Decide`, `AfterBuild` and `ReleaseUnused`. Those functions are then the atomic
    lock sections of a transition system with any number of workers, each with its own VM slot and
    at most one dataset handle in flight. Native allocation succeeds or fails at the choice of the
    step; a dataset is freed exactly when its last reference disappears, as `Arc` does it. */
module RandomXManager {
  import opened Basics

  type Key = Bytes

  /** Fifteen seconds, in milliseconds. */
  const FAST_RETRY_DELAY: nat := 15_000

  datatype Dataset = Dataset(id: nat, key: Key)

  datatype Outcome =
    | Ready(dataset: Dataset)
    | Releasing(previousKey: Key, previous: Dataset, retryAt: nat)
    | Unavailable(retryAt: nat)

  datatype Managed = Managed(key: Key, outcome: Outcome)

  // ---------------------------------------------------------------- decisions

  datatype ReleasingAction = PromotePrevious | WaitForRelease | DropPreviousAndBuild | Retarget

  function ChooseReleasingAction(managedKey: Key, previousKey: Key, requestedKey: Key,
                                 retryPending: bool, workersStillOwnPrevious: bool): ReleasingAction
  {
    if previousKey == requestedKey then PromotePrevious
    else if managedKey != requestedKey then Retarget
    else if retryPending || workersStillOwnPrevious then WaitForRelease
    else DropPreviousAndBuild
  }

  /** What one lock section does before any native allocation: settle the slot and answer, or
      leave the slot taken (`None`) and build. */
  datatype Decision = Settled(slot: Managed, answer: Option<Dataset>) | MustBuild

  function Decide(slot: Option<Managed>, key: Key, now: nat, strongCount: nat): Decision {
    match slot
    case None => MustBuild
    case Some(Managed(managedKey, outcome)) =>
      match outcome
      case Ready(dataset) =>
        if managedKey == key then Settled(Managed(key, Ready(dataset)), Some(dataset))
        else Settled(Managed(key, Releasing(managedKey, dataset, now + FAST_RETRY_DELAY)), None)
      case Unavailable(retryAt) =>
        if managedKey == key && now < retryAt
        then Settled(Managed(managedKey, Unavailable(retryAt)), None)
        else MustBuild
      case Releasing(previousKey, previous, retryAt) =>
        match ChooseReleasingAction(managedKey, previousKey, key, now < retryAt, strongCount > 1)
        case PromotePrevious =>
          Settled(Managed(previousKey, Ready(previous)), Some(previous))
        case WaitForRelease =>
          var later := if now < retryAt then retryAt else now + FAST_RETRY_DELAY;
          Settled(Managed(managedKey, Releasing(previousKey, previous, later)), None)
        case DropPreviousAndBuild => MustBuild
        case Retarget =>
          Settled(Managed(key, Releasing(previousKey, previous, now + FAST_RETRY_DELAY)), None)
  }

  function AfterBuild(key: Key, now: nat, built: Option<Dataset>): Managed {
    match built
    case Some(dataset) => Managed(key, Ready(dataset))
    case None => Managed(key, Unavailable(now + FAST_RETRY_DELAY))
  }

  function ReleaseUnused(slot: Option<Managed>, key: Key, now: nat, strongCount: nat): Option<Managed> {
    if slot.Some? && slot.value.key == key && slot.value.outcome.Ready? && strongCount == 1
    then Some(Managed(key, Unavailable(now + FAST_RETRY_DELAY)))
    else slot
  }

  /** The mutex-guarded slot. `strongCount` is the reference count read off the slot's dataset, and
      `built` is what the native builder would return. */
  class DatasetManager {
    var slot: Option<Managed>

    constructor ()
      ensures slot == None
    {
      slot := None;
    }

    method SharedFastDataset(key: Key, now: nat, strongCount: nat, built: Option<Dataset>)
      returns (answer: Option<Dataset>)
      modifies this
      ensures match Decide(old(slot), key, now, strongCount)
              case Settled(settled, result) => slot == Some(settled) && answer == result
              case MustBuild => slot == Some(AfterBuild(key, now, built)) && answer == built
      ensures answer.Some? ==> slot == Some(Managed(key, Ready(answer.value)))
      ensures answer.None? ==> slot.Some? && slot.value.key == key && !slot.value.outcome.Ready?
    {
      var taken := slot;
      slot := None;
      if taken.Some? {
        var managedKey := taken.value.key;
        match taken.value.outcome {
          case Ready(dataset) =>
            if managedKey == key {
              slot := taken;
              return Some(dataset);
            }
            slot := Some(Managed(key, Releasing(managedKey, dataset, now + FAST_RETRY_DELAY)));
            return None;
          case Unavailable(retryAt) =>
            if managedKey == key && now < retryAt {
              slot := taken;
              return None;
            }
          case Releasing(previousKey, previous, retryAt) =>
            match ChooseReleasingAction(managedKey, previousKey, key, now < retryAt, strongCount > 1) {
              case PromotePrevious =>
                slot := Some(Managed(previousKey, Ready(previous)));
                return Some(previous);
              case WaitForRelease =>
                var later := if now < retryAt then retryAt else now + FAST_RETRY_DELAY;
                slot := Some(Managed(managedKey, Releasing(previousKey, previous, later)));
                return None;
              case DropPreviousAndBuild =>
              case Retarget =>
                slot := Some(Managed(key, Releasing(previousKey, previous, now + FAST_RETRY_DELAY)));
                return None;
            }
        }
      }
      match built {
        case Some(dataset) => slot := Some(Managed(key, Ready(dataset)));
        case None => slot := Some(Managed(key, Unavailable(now + FAST_RETRY_DELAY)));
      }
      answer := built;
    }

    method ReleaseFastDatasetIfUnused(key: Key, now: nat, strongCount: nat)
      modifies this
      ensures slot == ReleaseUnused(old(slot), key, now, strongCount)
    {
      var canRelease := slot.Some? && slot.value.key == key && slot.value.outcome.Ready? && strongCount == 1;
      if canRelease {
        slot := Some(Managed(key, Unavailable(now + FAST_RETRY_DELAY)));
      }
    }
  }

  // ---------------------------------------------------------------- the multi-worker system

  type WorkerId = nat

  /** What a worker's thread-local VM runs on. */
  datatype Engine =
    | FastShared(dataset: Dataset)
    | LightFallback(cacheKey: Key, retryFastAt: nat)
    | LightRecovery(cacheKey: Key)

  datatype Phase =
    | Idle
    | Wanting(key: Key)                                        // slot emptied, manager not yet locked
    | BuildingUnderLock(key: Key, lockedAt: nat)               // slot taken, nothing allocated yet
    | Initializing(key: Key, lockedAt: nat, dataset: Dataset)  // native allocation live, still locked
    | Attaching(key: Key, dataset: Dataset)                    // handle in flight, no VM yet
    | FastFailed(key: Key)                                     // about to release an unused dataset
    | NeedsLight(key: Key)                                     // about to build a light VM
    | Sealing(key: Key)                                        // VM present, about to hash

  datatype Worker = Worker(slot: Option<(Key, Engine)>, phase: Phase)

  /** One computed hash: the job's key and the key its VM's memory was initialized from. */
  datatype HashRecord = HashRecord(jobKey: Key, memoryKey: Key)

  datatype State = State(
    forceLight: bool,
    manager: Option<Managed>,
    lock: Option<WorkerId>,
    lightCache: Option<Key>,
    workers: map<WorkerId, Worker>,
    live: set<Dataset>,
    nextId: nat,
    now: nat,
    hashes: seq<HashRecord>)

  datatype Step =
    | Tick(to: nat)
    | Begin(worker: WorkerId, key: Key)
    | Lock(worker: WorkerId)
    | Allocate(worker: WorkerId)
    | FinishBuild(worker: WorkerId, ok: bool)
    | Attach(worker: WorkerId, ok: bool)
    | Release(worker: WorkerId)
    | BuildLight(worker: WorkerId, cacheOk: bool, vmOk: bool)
    | Hash(worker: WorkerId)
    | Panic(worker: WorkerId)

  function ManagedDataset(slot: Option<Managed>): Option<Dataset> {
    match slot
    case Some(Managed(_, Ready(dataset))) => Some(dataset)
    case Some(Managed(_, Releasing(_, previous, _))) => Some(previous)
    case _ => None
  }

  predicate Holds(worker: Worker, dataset: Dataset) {
    || (worker.slot.Some? && worker.slot.value.1 == FastShared(dataset))
    || (worker.phase.Attaching? && worker.phase.dataset == dataset)
    || (worker.phase.Initializing? && worker.phase.dataset == dataset)
  }

  function Holders(s: State, dataset: Dataset): set<WorkerId> {
    set w | w in s.workers && Holds(s.workers[w], dataset)
  }

  /** `Arc::strong_count` of the manager's dataset, read under the lock. */
  function StrongCount(s: State): nat {
    match ManagedDataset(s.manager)
    case Some(dataset) => 1 + |Holders(s, dataset)|
    case None => 0
  }

  predicate Referenced(s: State, dataset: Dataset) {
    ManagedDataset(s.manager) == Some(dataset) || Holders(s, dataset) != {}
  }

  /** `Arc` semantics: a dataset stays allocated exactly while something refers to it. */
  function Collect(s: State): State {
    s.(live := set d | d in s.live && Referenced(s, d))
  }

  function MemoryKey(engine: Engine): Key {
    match engine
    case FastShared(dataset) => dataset.key
    case LightFallback(cacheKey, _) => cacheKey
    case LightRecovery(cacheKey) => cacheKey
  }

  predicate EngineNeedsBuild(slot: Option<(Key, Engine)>, key: Key, now: nat) {
    match slot
    case None => true
    case Some((existing, engine)) =>
      existing != key || (engine.LightFallback? && now >= engine.retryFastAt)
  }

  predicate Unlocked(s: State) { s.lock.None? }

  predicate Enabled(s: State, step: Step) {
    if step.Tick? then step.to >= s.now
    else
      && step.worker in s.workers
      && var phase := s.workers[step.worker].phase;
         match step
         case Tick(_) => false
         case Begin(_, _) => phase.Idle?
         case Lock(_) => phase.Wanting? && Unlocked(s)
         case Allocate(_) => phase.BuildingUnderLock?
         case FinishBuild(_, ok) => phase.Initializing? || (phase.BuildingUnderLock? && !ok)
         case Attach(_, _) => phase.Attaching?
         case Release(_) => phase.FastFailed? && Unlocked(s)
         case BuildLight(_, _, _) => phase.NeedsLight?
         case Hash(_) => phase.Sealing? && s.workers[step.worker].slot.Some?
         case Panic(_) => !phase.Idle?
  }

  function SetPhase(s: State, w: WorkerId, phase: Phase): State
    requires w in s.workers
  {
    s.(workers := s.workers[w := s.workers[w].(phase := phase)])
  }

  function SetWorker(s: State, w: WorkerId, worker: Worker): State {
    s.(workers := s.workers[w := worker])
  }

  function LockSection(s: State, w: WorkerId): State
    requires Enabled(s, Lock(w))
  {
    var key := s.workers[w].phase.key;
    match Decide(s.manager, key, s.now, StrongCount(s))
    case Settled(slot, Some(dataset)) => SetPhase(s.(manager := Some(slot)), w, Attaching(key, dataset))
    case Settled(slot, None) => SetPhase(s.(manager := Some(slot)), w, FastFailed(key))
    case MustBuild => SetPhase(s.(manager := None, lock := Some(w)), w, BuildingUnderLock(key, s.now))
  }

  function LightSection(s: State, w: WorkerId, cacheOk: bool, vmOk: bool): State
    requires Enabled(s, BuildLight(w, cacheOk, vmOk))
  {
    var key := s.workers[w].phase.key;
    var cache := if s.lightCache == Some(key) || cacheOk then Some(key) else None;
    var engine := if s.forceLight then LightRecovery(key) else LightFallback(key, s.now + FAST_RETRY_DELAY);
    var worker := if cache.Some? && vmOk then Worker(Some((key, engine)), Sealing(key)) else Worker(None, Idle);
    SetWorker(s.(lightCache := cache), w, worker)
  }

  function Effect(s: State, step: Step): State
    requires Enabled(s, step)
  {
    match step
    case Tick(to) => s.(now := to)
    case Begin(w, key) =>
      if EngineNeedsBuild(s.workers[w].slot, key, s.now)
      then SetWorker(s, w, Worker(None, if s.forceLight then NeedsLight(key) else Wanting(key)))
      else SetPhase(s, w, Sealing(key))
    case Lock(w) => LockSection(s, w)
    case Allocate(w) =>
      var phase := s.workers[w].phase;
      var dataset := Dataset(s.nextId, phase.key);
      SetPhase(s.(live := s.live + {dataset}, nextId := s.nextId + 1), w,
               Initializing(phase.key, phase.lockedAt, dataset))
    case FinishBuild(w, ok) =>
      var phase := s.workers[w].phase;
      var built := if ok then Some(phase.dataset) else None;
      SetPhase(s.(manager := Some(AfterBuild(phase.key, phase.lockedAt, built)), lock := None), w,
               if ok then Attaching(phase.key, phase.dataset) else FastFailed(phase.key))
    case Attach(w, ok) =>
      var phase := s.workers[w].phase;
      if ok then SetWorker(s, w, Worker(Some((phase.key, FastShared(phase.dataset))), Sealing(phase.key)))
      else SetPhase(s, w, FastFailed(phase.key))
    case Release(w) =>
      var key := s.workers[w].phase.key;
      SetPhase(s.(manager := ReleaseUnused(s.manager, key, s.now, StrongCount(s))), w, NeedsLight(key))
    case BuildLight(w, cacheOk, vmOk) => LightSection(s, w, cacheOk, vmOk)
    case Hash(w) =>
      var record := HashRecord(s.workers[w].phase.key, MemoryKey(s.workers[w].slot.value.1));
      SetPhase(s.(hashes := s.hashes + [record]), w, Idle)
    case Panic(w) =>
      SetPhase(s.(lock := if s.lock == Some(w) then None else s.lock), w, Idle)
  }

  /** One atomic step, after which unreferenced datasets are gone. */
  function Apply(s: State, step: Step): State
    requires Enabled(s, step)
  {
    Collect(Effect(s, step))
  }

  ghost predicate Init(s: State) {
    && s.manager == None && s.lock == None && s.lightCache == None && s.live == {} && s.hashes == []
    && forall w | w in s.workers :: s.workers[w] == Worker(None, Idle)
  }

  /** A run: consecutive states related by enabled steps. */
  ghost predicate Run(states: seq<State>, steps: seq<Step>) {
    && |states| == |steps| + 1
    && forall i | 0 <= i < |steps| :: Enabled(states[i], steps[i]) && states[i + 1] == Apply(states[i], steps[i])
  }

  // ---------------------------------------------------------------- the invariant

  predicate UnderLock(phase: Phase) { phase.BuildingUnderLock? || phase.Initializing? }

  ghost predicate WorkerOk(s: State, w: WorkerId)
    requires w in s.workers
  {
    var worker := s.workers[w];
    var phase := worker.phase;
    && (UnderLock(phase) ==> s.lock == Some(w))
    && (!phase.Idle? && !phase.Sealing? ==> worker.slot == None)
    && (phase.Sealing? ==> worker.slot.Some? && worker.slot.value.0 == phase.key)
    && (worker.slot.Some? ==> MemoryKey(worker.slot.value.1) == worker.slot.value.0)
    && (worker.slot.Some? && worker.slot.value.1.FastShared? ==>
          ManagedDataset(s.manager) == Some(worker.slot.value.1.dataset))
    && (phase.Attaching? ==> phase.dataset.key == phase.key && ManagedDataset(s.manager) == Some(phase.dataset))
    && (phase.Initializing? ==> phase.dataset.key == phase.key)
  }

  ghost predicate OutcomeOk(m: Managed) {
    match m.outcome
    case Ready(dataset) => dataset.key == m.key
    case Releasing(previousKey, previous, _) => previous.key == previousKey && previousKey != m.key
    case Unavailable(_) => true
  }

  ghost predicate ManagerOk(s: State) {
    && (s.lock.Some? ==> s.manager == None && s.lock.value in s.workers && UnderLock(s.workers[s.lock.value].phase))
    && (s.manager.Some? ==> OutcomeOk(s.manager.value))
  }

  ghost predicate LiveOk(s: State) {
    forall d :: d in s.live <==> Referenced(s, d)
  }

  ghost predicate HashesOk(s: State) {
    forall i | 0 <= i < |s.hashes| :: s.hashes[i].jobKey == s.hashes[i].memoryKey
  }

  ghost predicate Inv(s: State) {
    && ManagerOk(s)
    && (forall w | w in s.workers :: WorkerOk(s, w))
    && LiveOk(s)
    && HashesOk(s)
  }

  lemma HoldersAreManaged(s: State, d: Dataset)
    requires Inv(s)
    ensures Holders(s, d) != {} ==>
              || ManagedDataset(s.manager) == Some(d)
              || (s.lock.Some? && s.workers[s.lock.value].phase.Initializing?
                  && s.workers[s.lock.value].phase.dataset == d && Holders(s, d) == {s.lock.value})
  {
    if Holders(s, d) != {} {
      var w :| w in Holders(s, d);
      assert WorkerOk(s, w);
      if ManagedDataset(s.manager) != Some(d) {
        forall v | v in Holders(s, d) ensures s.lock == Some(v) { assert WorkerOk(s, v); }
        assert Holders(s, d) == {w};
      }
    }
  }

  lemma InitInv(s: State)
    requires Init(s)
    ensures Inv(s)
  {
    forall d ensures !Referenced(s, d) {
      assert Holders(s, d) == {};
    }
  }

  /** Everything but the exact live set: what a step's effect keeps before unreferenced datasets go. */
  ghost predicate Core(s: State) {
    && ManagerOk(s)
    && (forall w | w in s.workers :: WorkerOk(s, w))
    && (forall d | Referenced(s, d) :: d in s.live)
    && HashesOk(s)
  }

  lemma CollectEstablishesInv(e: State)
    requires Core(e)
    ensures Inv(Collect(e))
  {
    var c := Collect(e);
    forall d ensures Referenced(c, d) <==> Referenced(e, d) {
      assert Holders(c, d) == Holders(e, d);
    }
    forall w | w in c.workers ensures WorkerOk(c, w) { assert WorkerOk(e, w); }
  }

  /** A step that changes one worker and adds no reference keeps every reference live. */
  lemma NoNewReference(s: State, e: State, w: WorkerId)
    requires forall d | Referenced(s, d) :: d in s.live
    requires w in s.workers && e.workers.Keys == s.workers.Keys && e.live == s.live
    requires forall v | v in s.workers && v != w :: e.workers[v] == s.workers[v]
    requires forall d | Holds(e.workers[w], d) :: Referenced(s, d)
    requires forall d | ManagedDataset(e.manager) == Some(d) :: Referenced(s, d)
    ensures forall d | Referenced(e, d) :: d in e.live
  {
    forall d | Referenced(e, d) ensures d in e.live {
      if ManagedDataset(e.manager) != Some(d) {
        var v :| v in Holders(e, d);
        if v != w { assert v in Holders(s, d); }
      }
    }
  }

  /** With the manager unlocked and holding nothing, nobody holds anything. */
  lemma NoHoldersWithoutManager(s: State, w: WorkerId)
    requires Inv(s) && s.lock == None && w in s.workers
    requires ManagedDataset(s.manager) == None || StrongCount(s) == 1
    ensures !(s.workers[w].slot.Some? && s.workers[w].slot.value.1.FastShared?)
    ensures !s.workers[w].phase.Attaching?
  {
    assert WorkerOk(s, w);
    if ManagedDataset(s.manager).Some? {
      var d := ManagedDataset(s.manager).value;
      assert Holders(s, d) == {};
      assert w !in Holders(s, d);
    }
  }

  /** A lock section that settles the slot keeps the managed dataset, and hands it out or nothing. */
  lemma SettledKeepsDataset(slot: Option<Managed>, key: Key, now: nat, strongCount: nat)
    requires Decide(slot, key, now, strongCount).Settled?
    ensures var d := Decide(slot, key, now, strongCount);
            && ManagedDataset(Some(d.slot)) == ManagedDataset(slot)
            && (d.answer.Some? ==> ManagedDataset(slot) == d.answer)
  {
  }

  lemma SettledOutcomeOk(slot: Option<Managed>, key: Key, now: nat, strongCount: nat)
    requires Decide(slot, key, now, strongCount).Settled? && (slot.Some? ==> OutcomeOk(slot.value))
    ensures var d := Decide(slot, key, now, strongCount);
            OutcomeOk(d.slot) && (d.answer.Some? ==> d.answer.value.key == key)
  {
  }

  lemma LockSettledInv(s: State, w: WorkerId)
    requires Inv(s) && Enabled(s, Lock(w))
    requires Decide(s.manager, s.workers[w].phase.key, s.now, StrongCount(s)).Settled?
    ensures Core(Effect(s, Lock(w)))
  {
    var key, e := s.workers[w].phase.key, Effect(s, Lock(w));
    assert WorkerOk(s, w);
    SettledKeepsDataset(s.manager, key, s.now, StrongCount(s));
    SettledOutcomeOk(s.manager, key, s.now, StrongCount(s));
    hide Decide, StrongCount, Holders, ManagedDataset, Referenced;
    forall v | v in e.workers ensures WorkerOk(e, v) { assert WorkerOk(s, v); }
    assert HashesOk(e);
    forall d | Holds(e.workers[w], d) || ManagedDataset(e.manager) == Some(d) ensures Referenced(s, d) {
      ManagedIsReferenced(s, d);
    }
    NoNewReference(s, e, w);
  }

  lemma ManagedIsReferenced(s: State, d: Dataset)
    ensures ManagedDataset(s.manager) == Some(d) ==> Referenced(s, d)
  {
  }

  /** A lock section that is about to build leaves nothing in anybody's hands. */
  lemma LockBuildInv(s: State, w: WorkerId)
    requires Inv(s) && Enabled(s, Lock(w))
    requires Decide(s.manager, s.workers[w].phase.key, s.now, StrongCount(s)).MustBuild?
    ensures Core(Effect(s, Lock(w)))
  {
    var e := Effect(s, Lock(w));
    assert WorkerOk(s, w);
    assert ManagedDataset(s.manager) == None || StrongCount(s) == 1;
    hide Decide, StrongCount, Holders, Referenced;
    forall v | v in e.workers ensures WorkerOk(e, v) {
      assert WorkerOk(s, v);
      NoHoldersWithoutManager(s, v);
    }
    assert HashesOk(e) && ManagedDataset(e.manager) == None;
    NoNewReference(s, e, w);
  }

  lemma LockInv(s: State, w: WorkerId)
    requires Inv(s) && Enabled(s, Lock(w))
    ensures Core(Effect(s, Lock(w)))
  {
    var decision := Decide(s.manager, s.workers[w].phase.key, s.now, StrongCount(s));
    hide *;
    if decision.Settled? {
      LockSettledInv(s, w);
    } else {
      LockBuildInv(s, w);
    }
  }

  lemma AllocateInv(s: State, w: WorkerId)
    requires Inv(s) && Enabled(s, Allocate(w))
    ensures Core(Effect(s, Allocate(w)))
  {
    var e := Effect(s, Allocate(w));
    assert WorkerOk(s, w);
    forall v | v in e.workers ensures WorkerOk(e, v) { assert WorkerOk(s, v); }
    forall d | Referenced(e, d) ensures d in e.live {
      var v :| v in Holders(e, d);
      if v != w { assert v in Holders(s, d); }
    }
  }

  lemma FinishBuildInv(s: State, w: WorkerId, ok: bool)
    requires Inv(s) && Enabled(s, FinishBuild(w, ok))
    ensures Core(Effect(s, FinishBuild(w, ok)))
  {
    var e := Effect(s, FinishBuild(w, ok));
    assert WorkerOk(s, w);
    if ok { assert w in Holders(s, s.workers[w].phase.dataset); }
    forall v | v in e.workers ensures WorkerOk(e, v) { assert WorkerOk(s, v); }
    NoNewReference(s, e, w);
  }

  lemma AttachInv(s: State, w: WorkerId, ok: bool)
    requires Inv(s) && Enabled(s, Attach(w, ok))
    ensures Core(Effect(s, Attach(w, ok)))
  {
    var e := Effect(s, Attach(w, ok));
    assert WorkerOk(s, w);
    forall v | v in e.workers ensures WorkerOk(e, v) { assert WorkerOk(s, v); }
    NoNewReference(s, e, w);
  }

  lemma ReleaseInv(s: State, w: WorkerId)
    requires Inv(s) && Enabled(s, Release(w))
    ensures Core(Effect(s, Release(w)))
  {
    var e := Effect(s, Release(w));
    assert WorkerOk(s, w);
    forall v | v in e.workers ensures WorkerOk(e, v) {
      assert WorkerOk(s, v);
      if e.manager != s.manager { NoHoldersWithoutManager(s, v); }
    }
    NoNewReference(s, e, w);
  }

  /** A worker outside the lock that changes only itself, keeping no dataset it did not hold. */
  lemma LocalInv(s: State, e: State, w: WorkerId)
    requires Inv(s) && w in s.workers && !UnderLock(s.workers[w].phase)
    requires w in e.workers
    requires e == s.(workers := s.workers[w := e.workers[w]], lightCache := e.lightCache, hashes := e.hashes)
    requires WorkerOk(e, w) && HashesOk(e)
    requires forall d | Holds(e.workers[w], d) :: Holds(s.workers[w], d)
    ensures Core(e)
  {
    assert WorkerOk(s, w);
    forall d | Holds(e.workers[w], d) ensures Referenced(s, d) { assert w in Holders(s, d); }
    forall v | v in e.workers ensures WorkerOk(e, v) { assert WorkerOk(s, v); }
    NoNewReference(s, e, w);
  }

  lemma BeginInv(s: State, w: WorkerId, key: Key)
    requires Inv(s) && Enabled(s, Begin(w, key))
    ensures Core(Effect(s, Begin(w, key)))
  {
    assert WorkerOk(s, w);
    LocalInv(s, Effect(s, Begin(w, key)), w);
  }

  lemma BuildLightInv(s: State, w: WorkerId, cacheOk: bool, vmOk: bool)
    requires Inv(s) && Enabled(s, BuildLight(w, cacheOk, vmOk))
    ensures Core(Effect(s, BuildLight(w, cacheOk, vmOk)))
  {
    assert WorkerOk(s, w);
    LocalInv(s, Effect(s, BuildLight(w, cacheOk, vmOk)), w);
  }

  lemma HashInv(s: State, w: WorkerId)
    requires Inv(s) && Enabled(s, Hash(w))
    ensures Core(Effect(s, Hash(w)))
  {
    assert WorkerOk(s, w);
    LocalInv(s, Effect(s, Hash(w)), w);
  }

  lemma PanicInv(s: State, w: WorkerId)
    requires Inv(s) && Enabled(s, Panic(w))
    ensures Core(Effect(s, Panic(w)))
  {
    var e := Effect(s, Panic(w));
    assert WorkerOk(s, w);
    forall d | Holds(e.workers[w], d) ensures Referenced(s, d) { assert w in Holders(s, d); }
    forall v | v in e.workers ensures WorkerOk(e, v) { assert WorkerOk(s, v); }
    NoNewReference(s, e, w);
  }

  lemma TickInv(s: State, to: nat)
    requires Inv(s) && Enabled(s, Tick(to))
    ensures Core(Effect(s, Tick(to)))
  {
    var e := Effect(s, Tick(to));
    forall v | v in e.workers ensures WorkerOk(e, v) { assert WorkerOk(s, v); }
    forall d | Referenced(e, d) ensures d in e.live { assert Holders(e, d) == Holders(s, d); }
  }

  lemma StepInv(s: State, step: Step)
    requires Inv(s) && Enabled(s, step)
    ensures Inv(Apply(s, step))
  {
    match step {
      case Lock(w) => LockInv(s, w);
      case Allocate(w) => AllocateInv(s, w);
      case FinishBuild(w, ok) => FinishBuildInv(s, w, ok);
      case Attach(w, ok) => AttachInv(s, w, ok);
      case Release(w) => ReleaseInv(s, w);
      case Begin(w, key) => BeginInv(s, w, key);
      case BuildLight(w, cacheOk, vmOk) => BuildLightInv(s, w, cacheOk, vmOk);
      case Hash(w) => HashInv(s, w);
      case Panic(w) => PanicInv(s, w);
      case Tick(to) => TickInv(s, to);
    }
    CollectEstablishesInv(Effect(s, step));
  }

  // ---------------------------------------------------------------- safety over whole runs

  lemma {:induction false} RunInv(states: seq<State>, steps: seq<Step>, i: nat)
    requires Run(states, steps) && Init(states[0]) && i < |states|
    ensures Inv(states[i])
  {
    if i == 0 {
      InitInv(states[0]);
    } else {
      RunInv(states, steps, i - 1);
      StepInv(states[i - 1], steps[i - 1]);
    }
  }

  /** Two full datasets never coexist, and whatever a worker holds is the one that exists: the
      manager's, or the one that worker is itself initializing under the lock. */
  lemma AtMostOneDataset(states: seq<State>, steps: seq<Step>, i: nat)
    requires Run(states, steps) && Init(states[0]) && i < |states|
    ensures |states[i].live| <= 1
    ensures forall w, d | w in states[i].workers && Holds(states[i].workers[w], d) ::
              && states[i].live == {d}
              && (ManagedDataset(states[i].manager) == Some(d) || states[i].lock == Some(w))
    ensures i < |steps| && steps[i].Allocate? ==> states[i].live == {}
  {
    RunInv(states, steps, i);
    var s := states[i];
    forall d, d' | d in s.live && d' in s.live ensures d == d' {
      HoldersAreManaged(s, d);
      HoldersAreManaged(s, d');
    }
    if s.live != {} {
      var d :| d in s.live;
      assert s.live == {d};
    }
    forall w, d | w in s.workers && Holds(s.workers[w], d)
      ensures s.live == {d} && (ManagedDataset(s.manager) == Some(d) || s.lock == Some(w))
    {
      assert w in Holders(s, d);
      HoldersAreManaged(s, d);
      assert d in s.live;
    }
    if i < |steps| && steps[i].Allocate? {
      assert WorkerOk(s, steps[i].worker);
      forall d ensures d !in s.live { HoldersAreManaged(s, d); }
    }
  }

  /** Every hash of every run was computed on memory initialized from the hashed job's own key. */
  lemma EveryHashUsesItsJobsKey(states: seq<State>, steps: seq<Step>, i: nat, h: nat)
    requires Run(states, steps) && Init(states[0]) && i < |states| && h < |states[i].hashes|
    ensures states[i].hashes[h].jobKey == states[i].hashes[h].memoryKey
  {
    RunInv(states, steps, i);
  }

  /** A request is answered with a dataset straight away exactly when the dataset in memory was
      built from the requested key, whether it is published or being released: a reorganization
      back to the old seed reuses it at once, and nothing is allocated or freed. */
  lemma LockServesExactlyTheDatasetInMemory(s: State, w: WorkerId)
    requires Inv(s) && Enabled(s, Lock(w))
    ensures var t := Apply(s, Lock(w));
            var key := s.workers[w].phase.key;
            var inMemory := ManagedDataset(s.manager);
            && (t.workers[w].phase.Attaching? <==> inMemory.Some? && inMemory.value.key == key)
            && (t.workers[w].phase.Attaching? ==>
                  && t.workers[w].phase == Attaching(key, inMemory.value)
                  && t.manager == Some(Managed(key, Ready(inMemory.value)))
                  && t.live == s.live)
  {
    var t := Apply(s, Lock(w));
    if t.workers[w].phase.Attaching? {
      forall d | d in s.live ensures d in t.live {
        HoldersAreManaged(s, d);
        assert Referenced(t, d);
      }
    }
  }

  predicate LateLock(s: State, step: Step, retryAt: nat) { step.Lock? && s.now >= retryAt }

  ghost predicate OnlyRequests(s: State, key: Key) {
    forall w | w in s.workers && s.workers[w].phase.Wanting? :: s.workers[w].phase.key == key
  }

  /** The last build for `key` failed or was given up, and nobody is about to ask for another key. */
  ghost predicate BackedOff(s: State, key: Key, retryAt: nat) {
    s.manager == Some(Managed(key, Unavailable(retryAt))) && OnlyRequests(s, key)
  }

  lemma NothingLiveWithoutDataset(s: State)
    requires Inv(s) && s.manager.Some? && ManagedDataset(s.manager) == None
    ensures s.live == {}
  {
    forall d ensures d !in s.live { HoldersAreManaged(s, d); }
  }

  lemma RequestsStay(s: State, step: Step, key: Key)
    requires Enabled(s, step) && OnlyRequests(s, key) && (step.Begin? ==> step.key == key)
    ensures OnlyRequests(Apply(s, step), key)
  {
  }

  lemma BackedOffStep(s: State, step: Step, key: Key, retryAt: nat)
    requires Inv(s) && Enabled(s, step) && BackedOff(s, key, retryAt)
    ensures !step.Allocate?
    ensures var t := Apply(s, step);
            if LateLock(s, step, retryAt)
            then t.workers[step.worker].phase == BuildingUnderLock(key, s.now) && t.live == {}
            else t.manager == s.manager
  {
    if !step.Tick? { assert WorkerOk(s, step.worker); }
    NothingLiveWithoutDataset(s);
    hide OnlyRequests, HashesOk, LiveOk;
  }

  /** Over any run: after a failed or abandoned build, as long as every request is for the same key,
      nothing is allocated before the retry time, and the first lock section at or after it builds. */
  lemma {:induction false} UnavailableBacksOff(states: seq<State>, steps: seq<Step>, i: nat, key: Key, retryAt: nat)
    requires Run(states, steps) && Inv(states[0]) && i < |states|
    requires BackedOff(states[0], key, retryAt)
    requires forall j | 0 <= j < |steps| && steps[j].Begin? :: steps[j].key == key
    requires forall j | 0 <= j < i :: !LateLock(states[j], steps[j], retryAt)
    ensures Inv(states[i]) && BackedOff(states[i], key, retryAt) && states[i].live == {}
    ensures i < |steps| ==> !steps[i].Allocate?
    ensures i < |steps| && LateLock(states[i], steps[i], retryAt) ==>
              states[i + 1].workers[steps[i].worker].phase == BuildingUnderLock(key, states[i].now) && states[i + 1].live == {}
  {
    hide Inv, Apply, Enabled, LateLock, OnlyRequests;
    if i > 0 {
      UnavailableBacksOff(states, steps, i - 1, key, retryAt);
      StepInv(states[i - 1], steps[i - 1]);
      BackedOffStep(states[i - 1], steps[i - 1], key, retryAt);
      RequestsStay(states[i - 1], steps[i - 1], key);
    }
    NothingLiveWithoutDataset(states[i]);
    if i < |steps| { BackedOffStep(states[i], steps[i], key, retryAt); }
  }

  // ---------------------------------------------------------------- what is freed, and what is kept

  /** A worker whose every fast VM failed gives up the full dataset exactly when it is published for that
      worker's key and no VM or handle of any worker is left on it. Then it is freed on the spot, before any
      light cache is built, and its key backs off for a full delay; otherwise nothing changes. */
  lemma ReleaseFreesTheUnusedDataset(s: State, w: WorkerId)
    requires Inv(s) && Enabled(s, Release(w))
    ensures var t, key := Apply(s, Release(w)), s.workers[w].phase.key;
            if exists d :: s.manager == Some(Managed(key, Ready(d))) && Holders(s, d) == {}
            then t.live == {} && t.manager == Some(Managed(key, Unavailable(s.now + FAST_RETRY_DELAY)))
            else t.live == s.live && t.manager == s.manager
  {
    var t, key := Apply(s, Release(w)), s.workers[w].phase.key;
    StepInv(s, Release(w));
    if d :| s.manager == Some(Managed(key, Ready(d))) && Holders(s, d) == {} {
      NothingLiveWithoutDataset(t);
    } else {
      assert t.manager == s.manager;
      hide Enabled, ReleaseUnused;
      SameReferences(s, t);
    }
  }

  /** What is live depends on the references alone. */
  lemma SameReferences(s: State, t: State)
    requires Inv(s) && Inv(t) && t.manager == s.manager && t.workers.Keys == s.workers.Keys
    requires forall w, d | w in s.workers :: Holds(t.workers[w], d) <==> Holds(s.workers[w], d)
    ensures t.live == s.live
  {
    forall d ensures Referenced(t, d) <==> Referenced(s, d) {
      assert Holders(t, d) == Holders(s, d);
    }
  }

  /** A request for a key other than that of the dataset in memory, and other than the one it is already making
      way for, keeps the dataset, sends the worker to its fallback, and starts the full delay anew. */
  lemma AnotherKeyStartsARelease(s: State, w: WorkerId)
    requires Inv(s) && Enabled(s, Lock(w)) && ManagedDataset(s.manager).Some?
    requires ManagedDataset(s.manager).value.key != s.workers[w].phase.key
    requires s.manager.value.outcome.Ready? || s.manager.value.key != s.workers[w].phase.key
    ensures var t, key, d := Apply(s, Lock(w)), s.workers[w].phase.key, ManagedDataset(s.manager).value;
            && t.manager == Some(Managed(key, Releasing(d.key, d, s.now + FAST_RETRY_DELAY)))
            && t.workers[w].phase == FastFailed(key) && t.live == s.live
  {
    var t := Apply(s, Lock(w));
    var d := ManagedDataset(s.manager).value;
    StepInv(s, Lock(w));
    assert OutcomeOk(s.manager.value);
    hide Inv;
    assert ManagedDataset(t.manager) == Some(d);
    hide Decide, Enabled;
    SameLiveWithDataset(s, t, d);
  }

  /** While the manager has a dataset, it is the only one there is. */
  lemma SameLiveWithDataset(s: State, t: State, d: Dataset)
    requires Inv(s) && Inv(t) && ManagedDataset(s.manager) == Some(d) && ManagedDataset(t.manager) == Some(d)
    ensures t.live == s.live
  {
    forall x ensures x in s.live <==> x == d {
      HoldersAreManaged(s, x);
      assert Referenced(s, d);
    }
    forall x ensures x in t.live <==> x == d {
      HoldersAreManaged(t, x);
      assert Referenced(t, d);
    }
  }

  /** A build that succeeds is published for its key; one that fails leaves nothing allocated, and its key backs
      off for a full delay from when the lock was taken. */
  lemma BuildsPublishOrBackOff(s: State, w: WorkerId, ok: bool)
    requires Inv(s) && Enabled(s, FinishBuild(w, ok))
    ensures var t, phase := Apply(s, FinishBuild(w, ok)), s.workers[w].phase;
            && t.lock == None
            && (ok ==> t.manager == Some(Managed(phase.key, Ready(phase.dataset))) && t.live == {phase.dataset}
                       && t.workers[w].phase == Attaching(phase.key, phase.dataset))
            && (!ok ==> t.manager == Some(Managed(phase.key, Unavailable(phase.lockedAt + FAST_RETRY_DELAY))) && t.live == {}
                        && t.workers[w].phase == FastFailed(phase.key))
  {
    var t := Apply(s, FinishBuild(w, ok));
    StepInv(s, FinishBuild(w, ok));
    assert WorkerOk(s, w);
    hide Inv;
    if ok {
      var d := s.workers[w].phase.dataset;
      forall x ensures x in t.live <==> x == d {
        HoldersAreManaged(t, x);
        assert Inv(t) && Referenced(t, d);
        LiveIsReferenced(t, x);
        LiveIsReferenced(t, d);
      }
    } else {
      NothingLiveWithoutDataset(t);
    }
  }

  lemma LiveIsReferenced(s: State, d: Dataset)
    requires Inv(s)
    ensures d in s.live <==> Referenced(s, d)
  {
  }

  // ---------------------------------------------------------------- when a worker builds anew

  /** The step gives worker `w` a VM, or takes its VM away. */
  predicate ChangesVm(step: Step, w: WorkerId) {
    (step.Begin? || step.Attach? || step.BuildLight?) && step.worker == w
  }

  lemma VmStays(s: State, step: Step, w: WorkerId)
    requires Enabled(s, step) && w in s.workers && !ChangesVm(step, w)
    ensures w in Apply(s, step).workers && Apply(s, step).workers[w].slot == s.workers[w].slot
    ensures Apply(s, step).forceLight == s.forceLight
  {
  }

  lemma {:induction false} VmStaysThrough(states: seq<State>, steps: seq<Step>, w: WorkerId, i: nat, k: nat)
    requires Run(states, steps) && i <= k < |states| && w in states[i].workers
    requires forall j | i <= j < k :: !ChangesVm(steps[j], w)
    ensures |states| == |steps| + 1 && w in states[k].workers && states[k].workers[w].slot == states[i].workers[w].slot
    ensures states[k].forceLight == states[i].forceLight
  {
    hide *;
    RunStarts(states, steps);
    if i < k {
      VmStaysThrough(states, steps, w, i, k - 1);
      RunStep(states, steps, k - 1);
      VmStays(states[k - 1], steps[k - 1], w);
    }
  }

  lemma RunStarts(states: seq<State>, steps: seq<Step>)
    requires Run(states, steps)
    ensures |states| == |steps| + 1
  {
    hide Enabled, Apply;
  }

  lemma RunStep(states: seq<State>, steps: seq<Step>, k: nat)
    requires Run(states, steps) && k < |steps|
    ensures |states| == |steps| + 1 && Enabled(states[k], steps[k]) && states[k + 1] == Apply(states[k], steps[k])
  {
    hide Enabled, Apply;
  }

  /** A step that gives its worker a VM for the key it was asked to hash with. */
  predicate GivesVm(s: State, step: Step) {
    && (step.Attach? || step.BuildLight?) && Enabled(s, step)
    && Apply(s, step).workers[step.worker].phase.Sealing?
  }

  /** Which VM a worker gets: a fast one when it attaches to the dataset, otherwise a light one, which is there to
      stay where recovery forces light mode, and is a fallback elsewhere. A worker that fails goes without. */
  lemma VmAfter(s: State, step: Step)
    requires Inv(s) && Enabled(s, step) && (step.Attach? || step.BuildLight?)
    ensures var t, key := Apply(s, step), s.workers[step.worker].phase.key;
            if step.Attach? && step.ok
            then t.workers[step.worker] == Worker(Some((key, FastShared(s.workers[step.worker].phase.dataset))), Sealing(key))
            else if step.BuildLight? && step.vmOk && (s.lightCache == Some(key) || step.cacheOk)
            then && t.workers[step.worker]
                    == Worker(Some((key, if s.forceLight then LightRecovery(key) else LightFallback(key, s.now + FAST_RETRY_DELAY))), Sealing(key))
                 && t.lightCache == Some(key)
            else t.workers[step.worker] == Worker(None, if step.Attach? then FastFailed(key) else Idle)
  {
    assert WorkerOk(s, step.worker);
    hide Inv;
  }

  /** Over any run: a worker that was given a VM at step `i`, and is next asked to hash at step `k`, hashes on
      that VM if it is for the asked key and is not a fallback that is a full delay old; otherwise it lets go
      of the VM and asks for a new one, a fast one unless recovery forces light mode. */
  lemma VmIsKeptWhileItServes(states: seq<State>, steps: seq<Step>, w: WorkerId, i: nat, k: nat)
    requires Run(states, steps) && Inv(states[0]) && i < k < |steps|
    requires GivesVm(states[i], steps[i]) && steps[i].worker == w
    requires steps[k].Begin? && steps[k].worker == w
    requires forall j | i < j < k :: !ChangesVm(steps[j], w)
    ensures |states| == |steps| + 1 && w in states[i].workers && w in states[k].workers && w in states[k + 1].workers
    ensures !states[i].workers[w].phase.Idle? && !states[i].workers[w].phase.Sealing?
    ensures var key, asked := states[i].workers[w].phase.key, steps[k].key;
            var stale := steps[i].BuildLight? && !states[i].forceLight && states[k].now >= states[i].now + FAST_RETRY_DELAY;
            states[k + 1].workers[w] ==
              if asked == key && !stale then Worker(states[i + 1].workers[w].slot, Sealing(key))
              else Worker(None, if states[i].forceLight then NeedsLight(asked) else Wanting(asked))
  {
    hide *;
    RunStep(states, steps, i);
    RunStep(states, steps, k);
    StepsKeepInv(states, steps, i);
    GivenVm(states[i], steps[i]);
    VmStaysThrough(states, steps, w, i + 1, k);
    AskedAgain(states[k], w, steps[k].key);
  }

  lemma {:induction false} StepsKeepInv(states: seq<State>, steps: seq<Step>, i: nat)
    requires Run(states, steps) && Inv(states[0]) && i < |states|
    ensures Inv(states[i])
  {
    hide *;
    RunStarts(states, steps);
    if i > 0 {
      StepsKeepInv(states, steps, i - 1);
      RunStep(states, steps, i - 1);
      StepInv(states[i - 1], steps[i - 1]);
    }
  }

  lemma GivenVm(s: State, step: Step)
    requires Inv(s) && GivesVm(s, step)
    ensures step.worker in s.workers && !s.workers[step.worker].phase.Idle? && !s.workers[step.worker].phase.Sealing?
    ensures Enabled(s, step) && step.worker in Apply(s, step).workers && Apply(s, step).forceLight == s.forceLight
    ensures var key, worker := s.workers[step.worker].phase.key, Apply(s, step).workers[step.worker];
            && (step.Attach? || step.BuildLight?) && worker.slot.Some? && worker.slot.value.0 == key
            && (step.Attach? ==> worker.slot.value.1.FastShared?)
            && (step.BuildLight? ==> worker.slot.value.1
                                     == if s.forceLight then LightRecovery(key) else LightFallback(key, s.now + FAST_RETRY_DELAY))
  {
    VmAfter(s, step);
    hide Inv;
  }

  lemma AskedAgain(s: State, w: WorkerId, key: Key)
    requires Enabled(s, Begin(w, key)) && s.workers[w].slot.Some?
    ensures w in s.workers && w in Apply(s, Begin(w, key)).workers
    ensures var (had, engine) := s.workers[w].slot.value;
            Apply(s, Begin(w, key)).workers[w] ==
              if key == had && !(engine.LightFallback? && s.now >= engine.retryFastAt) then Worker(s.workers[w].slot, Sealing(key))
              else Worker(None, if s.forceLight then NeedsLight(key) else Wanting(key))
  {
  }

  /** Where recovery forces light mode, nobody ever asks for a dataset. */
  ghost predicate LightOnly(s: State) {
    && s.forceLight && s.manager == None && s.lock == None && s.live == {}
    && forall w | w in s.workers :: var p := s.workers[w].phase; p.Idle? || p.NeedsLight? || p.Sealing?
  }

  lemma LightOnlyStep(s: State, step: Step)
    requires LightOnly(s) && Enabled(s, step)
    ensures LightOnly(Apply(s, step)) && !step.Lock? && !step.Allocate?
  {
  }

  /** So under forced light mode no run ever allocates a full dataset. */
  lemma {:induction false} ForcedLightNeverAllocates(states: seq<State>, steps: seq<Step>, i: nat)
    requires Run(states, steps) && Init(states[0]) && states[0].forceLight && i < |states|
    ensures LightOnly(states[i]) && (i < |steps| ==> !steps[i].Lock? && !steps[i].Allocate?)
  {
    hide Enabled, Apply, LightOnly;
    if i == 0 {
      InitIsLightOnly(states[0]);
    } else {
      ForcedLightNeverAllocates(states, steps, i - 1);
      LightOnlyStep(states[i - 1], steps[i - 1]);
    }
    if i < |steps| { LightOnlyStep(states[i], steps[i]); }
  }

  lemma InitIsLightOnly(s: State)
    requires Init(s) && s.forceLight
    ensures LightOnly(s)
  {
  }

  // ---------------------------------------------------------------- progress of a seed change

  /** The manager is draining `previous` towards `key`, and nobody is about to ask for another key. */
  ghost predicate ReleasingTo(s: State, key: Key, previous: Dataset) {
    && s.manager.Some? && s.manager.value.key == key
    && s.manager.value.outcome.Releasing? && s.manager.value.outcome.previous == previous
    && OnlyRequests(s, key)
  }

  ghost predicate Drained(s: State, key: Key, previous: Dataset) {
    ReleasingTo(s, key, previous) && Holders(s, previous) == {}
  }

  /** A step that changes one worker, which takes no new hold of `d`. */
  lemma HoldersShrink(s: State, e: State, w: WorkerId, d: Dataset)
    requires e.workers.Keys == s.workers.Keys && w in s.workers
    requires forall v | v in s.workers && v != w :: e.workers[v] == s.workers[v]
    requires Holds(e.workers[w], d) ==> Holds(s.workers[w], d)
    ensures Holders(e, d) <= Holders(s, d)
    ensures !Holds(e.workers[w], d) ==> w !in Holders(e, d)
  {
  }

  /** What one lock section does to a manager that is draining `previous` towards the requested key. */
  lemma LockWhileReleasing(s: State, w: WorkerId, key: Key, previous: Dataset)
    requires Inv(s) && ReleasingTo(s, key, previous) && Enabled(s, Lock(w))
    ensures var e, outcome := Effect(s, Lock(w)), s.manager.value.outcome;
            if s.now < outcome.retryAt then e.manager == s.manager && e.workers == s.workers[w := s.workers[w].(phase := FastFailed(key))]
            else if Holders(s, previous) != {}
            then && e.manager == Some(Managed(key, Releasing(outcome.previousKey, previous, s.now + FAST_RETRY_DELAY)))
                 && e.workers == s.workers[w := s.workers[w].(phase := FastFailed(key))]
            else e.manager == None && e.workers == s.workers[w := s.workers[w].(phase := BuildingUnderLock(key, s.now))]
  {
    assert s.workers[w].phase.key == key && OutcomeOk(s.manager.value);
    hide Holders, OnlyRequests, Inv;
    assert StrongCount(s) > 1 <==> Holders(s, previous) != {};
  }

  lemma NothingLiveAfterDrop(s: State, w: WorkerId, key: Key, previous: Dataset)
    requires Inv(s) && ReleasingTo(s, key, previous) && Enabled(s, Lock(w))
    requires LateLock(s, Lock(w), s.manager.value.outcome.retryAt) && Holders(s, previous) == {}
    ensures Apply(s, Lock(w)).live == {}
  {
    var t := Apply(s, Lock(w));
    LockWhileReleasing(s, w, key, previous);
    StepInv(s, Lock(w));
    hide Decide;
    forall d ensures d !in t.live { HoldersAreManaged(t, d); }
  }

  /** Nothing but a lock section touches the manager while it is draining. */
  lemma OthersLeaveTheManager(s: State, step: Step, key: Key, previous: Dataset)
    requires Inv(s) && ReleasingTo(s, key, previous) && Enabled(s, step) && !step.Lock?
    ensures Apply(s, step).manager == s.manager && !step.Allocate?
    ensures Holders(Apply(s, step), previous) <= Holders(s, previous)
    ensures step.Begin? && step.key == key ==> step.worker !in Holders(Apply(s, step), previous)
  {
    var t := Apply(s, step);
    if step.Tick? {
      assert t.workers == s.workers;
    } else {
      assert WorkerOk(s, step.worker);
      assert OutcomeOk(s.manager.value);
      hide Holders, Inv, OnlyRequests, WorkerOk;
      assert t.manager == s.manager && t.workers.Keys == s.workers.Keys;
      HoldersShrink(s, t, step.worker, previous);
    }
  }

  lemma LockKeepsCourse(s: State, w: WorkerId, key: Key, previous: Dataset)
    requires Inv(s) && ReleasingTo(s, key, previous) && Enabled(s, Lock(w))
    requires !(LateLock(s, Lock(w), s.manager.value.outcome.retryAt) && Holders(s, previous) == {})
    ensures ReleasingTo(Apply(s, Lock(w)), key, previous) && Holders(Apply(s, Lock(w)), previous) <= Holders(s, previous)
  {
    var t := Apply(s, Lock(w));
    LockWhileReleasing(s, w, key, previous);
    RequestsStay(s, Lock(w), key);
    hide Inv, Decide, OnlyRequests, Holders;
    HoldersShrink(s, t, w, previous);
  }

  /** While every request is for the new key the set of workers on the old dataset only shrinks, a
      worker that starts on the new key leaves it, and the manager stays on course until it drops
      the old dataset. */
  lemma ReleasingStep(s: State, step: Step, key: Key, previous: Dataset)
    requires Inv(s) && ReleasingTo(s, key, previous) && Enabled(s, step)
    requires step.Begin? ==> step.key == key
    ensures var t := Apply(s, step);
            || t.live == {}
            || (ReleasingTo(t, key, previous) && Holders(t, previous) <= Holders(s, previous)
                && (step.Begin? ==> step.worker !in Holders(t, previous)))
  {
    var dropped := LateLock(s, step, s.manager.value.outcome.retryAt) && Holders(s, previous) == {};
    hide Inv, Apply, Enabled, Holders, OnlyRequests;
    if dropped {
      NothingLiveAfterDrop(s, step.worker, key, previous);
    } else if step.Lock? {
      LockKeepsCourse(s, step.worker, key, previous);
    } else {
      OthersLeaveTheManager(s, step, key, previous);
      RequestsStay(s, step, key);
    }
  }

  lemma PreviousStaysLive(s: State, key: Key, previous: Dataset)
    requires Inv(s) && ReleasingTo(s, key, previous)
    ensures s.live != {}
  {
    assert Referenced(s, previous) && previous in s.live;
  }

  /** When the retry time moves: a step changes the manager, short of dropping the old dataset, exactly when
      it is a request at or after the retry time while some worker still holds that dataset; the retry
      time is then a full delay from now. */
  lemma RetryTimeMovesExactly(s: State, step: Step, key: Key, previous: Dataset)
    requires Inv(s) && ReleasingTo(s, key, previous) && Enabled(s, step)
    requires step.Begin? ==> step.key == key
    ensures var t, outcome := Apply(s, step), s.manager.value.outcome;
            var rearmed := LateLock(s, step, outcome.retryAt) && Holders(s, previous) != {};
            && (t.manager != s.manager && t.live != {} <==> rearmed)
            && (rearmed ==> t.manager == Some(Managed(key, Releasing(outcome.previousKey, previous, s.now + FAST_RETRY_DELAY))))
  {
    var t := Apply(s, step);
    StepInv(s, step);
    if !step.Lock? {
      OthersLeaveTheManager(s, step, key, previous);
    } else {
      LockWhileReleasing(s, step.worker, key, previous);
      if LateLock(s, step, s.manager.value.outcome.retryAt) {
        if Holders(s, previous) == {} {
          NothingLiveAfterDrop(s, step.worker, key, previous);
        } else {
          LockKeepsCourse(s, step.worker, key, previous);
          hide Inv, Decide, Holders, OnlyRequests, Enabled;
          assert Inv(t);
          PreviousStaysLive(t, key, previous);
        }
      }
    }
  }

  lemma RunExtended(states: seq<State>, steps: seq<Step>, step: Step) returns (longer: seq<State>, taken: seq<Step>)
    requires Run(states, steps) && Enabled(states[|steps|], step)
    ensures Run(longer, taken) && |longer| == |taken| + 1 && longer[0] == states[0]
    ensures longer[|taken|] == Apply(states[|steps|], step)
  {
    longer, taken := states + [Apply(states[|steps|], step)], steps + [step];
    hide Enabled, Apply;
  }

  /** Two workers, of which the first has `worker0` and the second is in `phase1`. */
  function TwoWorkers(manager: Option<Managed>, worker0: Worker, worker1: Worker, live: set<Dataset>, nextId: nat, now: nat): State {
    State(false, manager, None, None, map[0 := worker0, 1 := worker1], live, nextId, now, [])
  }

  /** Unreferenced datasets of two workers: the one dataset stays exactly while someone refers to it. */
  lemma CollectOne(s: State, d: Dataset)
    requires s.live == {d} && Referenced(s, d)
    ensures Collect(s) == s
  {
    assert Collect(s).live == {d};
  }

  lemma CollectNone(s: State)
    requires s.live == {}
    ensures Collect(s) == s
  {
    assert Collect(s).live == {};
  }

  /** Worker 0 builds the dataset of key [1] and keeps a VM on it. */
  lemma FirstWorkerBuilds() returns (states: seq<State>, steps: seq<Step>)
    ensures Run(states, steps) && |states| == |steps| + 1 && Init(states[0])
    ensures var d := Dataset(0, [1]);
            states[|steps|] == TwoWorkers(Some(Managed([1], Ready(d))), Worker(Some(([1], FastShared(d))), Idle), Worker(None, Idle), {d}, 1, 0)
  {
    var d, idle := Dataset(0, [1]), Worker(None, Idle);
    states, steps := [TwoWorkers(None, idle, idle, {}, 0, 0)], [];
    assert Run(states, steps) && Init(states[0]);
    hide Run, Init, Apply;
    BeginFirst();
    states, steps := RunExtended(states, steps, Begin(0, [1]));
    LockFirst();
    states, steps := RunExtended(states, steps, Lock(0));
    AllocateFirst();
    states, steps := RunExtended(states, steps, Allocate(0));
    FinishFirst();
    states, steps := RunExtended(states, steps, FinishBuild(0, true));
    AttachFirst();
    states, steps := RunExtended(states, steps, Attach(0, true));
    PanicFirst();
    states, steps := RunExtended(states, steps, Panic(0));
  }

  lemma BeginFirst()
    ensures var idle := Worker(None, Idle);
            var s := TwoWorkers(None, idle, idle, {}, 0, 0);
            Enabled(s, Begin(0, [1])) && Apply(s, Begin(0, [1])) == TwoWorkers(None, Worker(None, Wanting([1])), idle, {}, 0, 0)
  {
    CollectNone(Effect(TwoWorkers(None, Worker(None, Idle), Worker(None, Idle), {}, 0, 0), Begin(0, [1])));
  }

  lemma LockFirst()
    ensures var s := TwoWorkers(None, Worker(None, Wanting([1])), Worker(None, Idle), {}, 0, 0);
            && Enabled(s, Lock(0))
            && Apply(s, Lock(0)) == TwoWorkers(None, Worker(None, BuildingUnderLock([1], 0)), Worker(None, Idle), {}, 0, 0).(lock := Some(0))
  {
    CollectNone(Effect(TwoWorkers(None, Worker(None, Wanting([1])), Worker(None, Idle), {}, 0, 0), Lock(0)));
  }

  lemma AllocateFirst()
    ensures var d := Dataset(0, [1]);
            var s := TwoWorkers(None, Worker(None, BuildingUnderLock([1], 0)), Worker(None, Idle), {}, 0, 0).(lock := Some(0));
            && Enabled(s, Allocate(0))
            && Apply(s, Allocate(0)) == TwoWorkers(None, Worker(None, Initializing([1], 0, d)), Worker(None, Idle), {d}, 1, 0).(lock := Some(0))
  {
    var d := Dataset(0, [1]);
    var e := TwoWorkers(None, Worker(None, Initializing([1], 0, d)), Worker(None, Idle), {d}, 1, 0).(lock := Some(0));
    assert 0 in Holders(e, d);
    CollectOne(e, d);
  }

  lemma FinishFirst()
    ensures var d := Dataset(0, [1]);
            var s := TwoWorkers(None, Worker(None, Initializing([1], 0, d)), Worker(None, Idle), {d}, 1, 0).(lock := Some(0));
            && Enabled(s, FinishBuild(0, true))
            && Apply(s, FinishBuild(0, true))
               == TwoWorkers(Some(Managed([1], Ready(d))), Worker(None, Attaching([1], d)), Worker(None, Idle), {d}, 1, 0)
  {
    var d := Dataset(0, [1]);
    CollectOne(TwoWorkers(Some(Managed([1], Ready(d))), Worker(None, Attaching([1], d)), Worker(None, Idle), {d}, 1, 0), d);
  }

  lemma AttachFirst()
    ensures var d := Dataset(0, [1]);
            var s := TwoWorkers(Some(Managed([1], Ready(d))), Worker(None, Attaching([1], d)), Worker(None, Idle), {d}, 1, 0);
            && Enabled(s, Attach(0, true))
            && Apply(s, Attach(0, true))
               == TwoWorkers(Some(Managed([1], Ready(d))), Worker(Some(([1], FastShared(d))), Sealing([1])), Worker(None, Idle), {d}, 1, 0)
  {
    var d := Dataset(0, [1]);
    CollectOne(TwoWorkers(Some(Managed([1], Ready(d))), Worker(Some(([1], FastShared(d))), Sealing([1])), Worker(None, Idle), {d}, 1, 0), d);
  }

  lemma PanicFirst()
    ensures var d := Dataset(0, [1]);
            var s := TwoWorkers(Some(Managed([1], Ready(d))), Worker(Some(([1], FastShared(d))), Sealing([1])), Worker(None, Idle), {d}, 1, 0);
            && Enabled(s, Panic(0))
            && Apply(s, Panic(0)) == TwoWorkers(Some(Managed([1], Ready(d))), Worker(Some(([1], FastShared(d))), Idle), Worker(None, Idle), {d}, 1, 0)
  {
    var d := Dataset(0, [1]);
    CollectOne(TwoWorkers(Some(Managed([1], Ready(d))), Worker(Some(([1], FastShared(d))), Idle), Worker(None, Idle), {d}, 1, 0), d);
  }

  /** Worker 0 with its VM on the dataset of key [1], worker 1 in `phase`, the manager releasing that dataset towards [2]. */
  function Releasing1to2(phase: Phase, now: nat): State {
    var d := Dataset(0, [1]);
    TwoWorkers(Some(Managed([2], Releasing([1], d, 15_000))), Worker(Some(([1], FastShared(d))), Idle), Worker(None, phase), {d}, 1, now)
  }

  lemma ReleasingCollects(phase: Phase, now: nat)
    ensures Collect(Releasing1to2(phase, now)) == Releasing1to2(phase, now)
  {
    CollectOne(Releasing1to2(phase, now), Dataset(0, [1]));
  }

  /** Worker 1 asks for [2] at time 0, goes without a light VM, and asks again at the retry time. */
  lemma SecondWorkerAsks(s: State)
    requires var d := Dataset(0, [1]);
             s == TwoWorkers(Some(Managed([1], Ready(d))), Worker(Some(([1], FastShared(d))), Idle), Worker(None, Idle), {d}, 1, 0)
    ensures Enabled(s, Begin(1, [2])) && Enabled(Apply(s, Begin(1, [2])), Lock(1))
    ensures Apply(Apply(s, Begin(1, [2])), Lock(1)) == Releasing1to2(FastFailed([2]), 0)
  {
    var d := Dataset(0, [1]);
    var wanting := s.(workers := s.workers[1 := Worker(None, Wanting([2]))]);
    CollectOne(wanting, d);
    assert Apply(s, Begin(1, [2])) == wanting;
    ReleasingCollects(FastFailed([2]), 0);
    assert Effect(wanting, Lock(1)) == Releasing1to2(FastFailed([2]), 0);
  }

  lemma SecondWorkerGoesWithout()
    ensures Enabled(Releasing1to2(FastFailed([2]), 0), Release(1))
    ensures Apply(Releasing1to2(FastFailed([2]), 0), Release(1)) == Releasing1to2(NeedsLight([2]), 0)
    ensures Enabled(Releasing1to2(NeedsLight([2]), 0), BuildLight(1, false, false))
    ensures Apply(Releasing1to2(NeedsLight([2]), 0), BuildLight(1, false, false)) == Releasing1to2(Idle, 0)
  {
    ReleasingCollects(NeedsLight([2]), 0);
    ReleasingCollects(Idle, 0);
    assert Effect(Releasing1to2(FastFailed([2]), 0), Release(1)) == Releasing1to2(NeedsLight([2]), 0);
    assert Effect(Releasing1to2(NeedsLight([2]), 0), BuildLight(1, false, false)) == Releasing1to2(Idle, 0);
    hide Collect;
  }

  lemma SecondWorkerWaits()
    ensures Enabled(Releasing1to2(Idle, 0), Begin(1, [2]))
    ensures Apply(Releasing1to2(Idle, 0), Begin(1, [2])) == Releasing1to2(Wanting([2]), 0)
    ensures Enabled(Releasing1to2(Wanting([2]), 0), Tick(15_000))
    ensures Apply(Releasing1to2(Wanting([2]), 0), Tick(15_000)) == Releasing1to2(Wanting([2]), 15_000)
  {
    ReleasingCollects(Wanting([2]), 0);
    ReleasingCollects(Wanting([2]), 15_000);
    assert Effect(Releasing1to2(Idle, 0), Begin(1, [2])) == Releasing1to2(Wanting([2]), 0);
    assert Effect(Releasing1to2(Wanting([2]), 0), Tick(15_000)) == Releasing1to2(Wanting([2]), 15_000);
    hide Collect;
  }

  /** The move at work, in a run from the start: worker 0 stays on the old dataset, and the request of worker 1
      at the retry time postpones the build by another fifteen seconds. */
  lemma RetryTimeCanMove() returns (states: seq<State>, steps: seq<Step>)
    ensures Run(states, steps) && |states| == |steps| + 1 && Init(states[0])
    ensures var s, d := states[|steps|], Dataset(0, [1]);
            && ReleasingTo(s, [2], d) && s.manager.value.outcome.retryAt == 15_000 && Enabled(s, Lock(1))
            && ReleasingTo(Apply(s, Lock(1)), [2], d) && Apply(s, Lock(1)).manager.value.outcome.retryAt == 30_000
  {
    states, steps := FirstWorkerBuilds();
    SecondWorkerAsks(states[|steps|]);
    hide Run, Init, Apply, Enabled;
    states, steps := RunExtended(states, steps, Begin(1, [2]));
    states, steps := RunExtended(states, steps, Lock(1));
    SecondWorkerGoesWithout();
    states, steps := RunExtended(states, steps, Release(1));
    states, steps := RunExtended(states, steps, BuildLight(1, false, false));
    SecondWorkerWaits();
    states, steps := RunExtended(states, steps, Begin(1, [2]));
    states, steps := RunExtended(states, steps, Tick(15_000));
    RunInv(states, steps, |steps|);
    LateRequestMoves(states[|steps|]);
  }

  lemma LateRequestMoves(s: State)
    requires Inv(s) && s == Releasing1to2(Wanting([2]), 15_000)
    ensures var d := Dataset(0, [1]);
            && ReleasingTo(s, [2], d) && s.manager.value.outcome.retryAt == 15_000 && Enabled(s, Lock(1))
            && ReleasingTo(Apply(s, Lock(1)), [2], d) && Apply(s, Lock(1)).manager.value.outcome.retryAt == 30_000
  {
    var d := Dataset(0, [1]);
    assert Holds(s.workers[0], d) && 0 in Holders(s, d);
    hide Decide, Inv, Holders;
    LockWhileReleasing(s, 1, [2], d);
    LockKeepsCourse(s, 1, [2], d);
  }

  /** Once nobody holds the old dataset, no step moves the manager, and in particular its retry
      time, except the first lock section at or after that time, which drops the old dataset and
      goes on to build the new one. */
  lemma DrainedStep(s: State, step: Step, key: Key, previous: Dataset)
    requires Inv(s) && Drained(s, key, previous) && Enabled(s, step)
    requires step.Begin? ==> step.key == key
    ensures var t := Apply(s, step);
            if LateLock(s, step, s.manager.value.outcome.retryAt)
            then t.live == {} && t.workers[step.worker].phase == BuildingUnderLock(key, s.now)
            else Drained(t, key, previous) && t.manager == s.manager
  {
    if LateLock(s, step, s.manager.value.outcome.retryAt) {
      LockWhileReleasing(s, step.worker, key, previous);
      NothingLiveAfterDrop(s, step.worker, key, previous);
      hide Inv, Decide, Holders, OnlyRequests;
    } else if step.Lock? {
      LockWhileReleasing(s, step.worker, key, previous);
      LockKeepsCourse(s, step.worker, key, previous);
      hide Inv, Decide, Holders, OnlyRequests;
    } else {
      hide Inv, Apply, Enabled, Holders, OnlyRequests;
      OthersLeaveTheManager(s, step, key, previous);
      RequestsStay(s, step, key);
    }
  }

  lemma {:induction false} SeedChangeReachesDrained(states: seq<State>, steps: seq<Step>, i: nat, key: Key, previous: Dataset)
    requires Run(states, steps) && Inv(states[0]) && i < |states|
    requires ReleasingTo(states[0], key, previous)
    requires forall j | 0 <= j < |steps| && steps[j].Begin? :: steps[j].key == key
    ensures forall j | 0 <= j <= i :: Inv(states[j])
    ensures || (exists j :: 0 <= j <= i && states[j].live == {})
            || (ReleasingTo(states[i], key, previous)
                && forall j | 0 <= j < i && steps[j].Begin? :: steps[j].worker !in Holders(states[i], previous))
  {
    if i > 0 {
      SeedChangeReachesDrained(states, steps, i - 1, key, previous);
      StepInv(states[i - 1], steps[i - 1]);
      if ReleasingTo(states[i - 1], key, previous) {
        ReleasingStep(states[i - 1], steps[i - 1], key, previous);
      }
    }
  }

  /** When every worker has turned to the new key, the old dataset is drained or already gone. */
  lemma EveryWorkerTurningDrains(states: seq<State>, steps: seq<Step>, i: nat, key: Key, previous: Dataset)
    requires Run(states, steps) && Inv(states[0]) && i < |states|
    requires ReleasingTo(states[0], key, previous)
    requires forall j | 0 <= j < |steps| && steps[j].Begin? :: steps[j].key == key
    requires forall w | w in states[i].workers :: exists j :: 0 <= j < i && steps[j] == Begin(w, key)
    ensures (exists j :: 0 <= j <= i && states[j].live == {}) || Drained(states[i], key, previous)
  {
    SeedChangeReachesDrained(states, steps, i, key, previous);
    if ReleasingTo(states[i], key, previous) && !exists j :: 0 <= j <= i && states[j].live == {} {
      forall w | w in states[i].workers ensures w !in Holders(states[i], previous) {
        var j :| 0 <= j < i && steps[j] == Begin(w, key);
      }
      assert Holders(states[i], previous) == {};
    }
  }

  /** From a drained state the retry time never moves, and the first lock section at or after it
      drops the old dataset and starts the new build. */
  lemma {:induction false} DrainedRetryTimeIsFinal(states: seq<State>, steps: seq<Step>, i: nat, key: Key, previous: Dataset)
    requires Run(states, steps) && Inv(states[0]) && i < |states|
    requires Drained(states[0], key, previous)
    requires forall j | 0 <= j < |steps| && steps[j].Begin? :: steps[j].key == key
    requires forall j | 0 <= j < i :: !LateLock(states[j], steps[j], states[0].manager.value.outcome.retryAt)
    ensures Inv(states[i]) && Drained(states[i], key, previous) && states[i].manager == states[0].manager
    ensures i < |steps| && LateLock(states[i], steps[i], states[0].manager.value.outcome.retryAt) ==>
              && states[i + 1].live == {}
              && states[i + 1].workers[steps[i].worker].phase == BuildingUnderLock(key, states[i].now)
  {
    if i > 0 {
      DrainedRetryTimeIsFinal(states, steps, i - 1, key, previous);
      StepInv(states[i - 1], steps[i - 1]);
      DrainedStep(states[i - 1], steps[i - 1], key, previous);
    }
    if i < |steps| { DrainedStep(states[i], steps[i], key, previous); }
  }
}
