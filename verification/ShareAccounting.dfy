/** Share accounting and back-pressure of src/main.rs: the in-flight counter of a Stratum connection,
    and every interleaving of workers that submit directly or through any of several connections, of
    the pool's replies, and of the counters they update one atomic step at a time. */
module ShareAccounting {
  import opened Basics

  const FIRST_SUBMIT_ID: nat := 1000

  // ---------------------------------------------------------------- the connection's counter

  /** `fetch_update` in `reserve_share`: the new count, or `None` when the update is refused. */
  function Reserve(pending: nat, limit: nat): (r: Option<nat>)
    ensures r.Some? ==> r.value <= limit
  {
    if pending < limit then Some(pending + 1) else None
  }

  function Finish(pending: nat): nat { Monus(pending, 1) }

  class Connection {
    var pending: nat
    const maxPending: nat

    predicate Valid() reads this { pending <= maxPending }

    constructor (workers: nat)
      ensures Valid() && pending == 0 && maxPending == workers
    {
      pending, maxPending := 0, workers;
    }

    method ReserveShare() returns (reserved: bool)
      requires Valid()
      modifies this`pending
      ensures Valid()
      ensures reserved <==> old(pending) < maxPending
      ensures Reserve(old(pending), maxPending) == if reserved then Some(pending) else None
      ensures !reserved ==> pending == old(pending)
    {
      reserved := pending < maxPending;
      if reserved { pending := pending + 1; }
    }

    method FinishShare()
      requires Valid()
      modifies this`pending
      ensures Valid() && pending == Finish(old(pending))
    {
      if pending > 0 { pending := pending - 1; }
    }
  }

  // ---------------------------------------------------------------- the system

  type WorkerId = nat
  type ConnId = nat
  type RequestId = nat

  datatype Phase =
    | Hashing
    | Submitting             // direct: counted as submitted, the node's verdict outstanding
    | Reserved(conn: ConnId) // a slot reserved, the line not yet written
    | Written                // line written, not yet counted as submitted

  datatype Counts = Counts(submitted: nat, accepted: nat, rejected: nat)

  /** The next request number, the number each worker drew last, and who drew each number (history). */
  datatype Numbers = Numbers(next: RequestId, requests: map<WorkerId, RequestId>, owner: map<RequestId, WorkerId>)

  /** Per connection the counter. The rest is history: `outstanding` maps each share on the wire to
      its connection, and `strays` collects the replies that answer no such share. */
  datatype Pool = Pool(
    pending: map<ConnId, nat>,
    outstanding: map<RequestId, ConnId>,
    replying: set<ConnId>,
    strays: multiset<ConnId>)

  datatype State = State(counts: Counts, numbers: Numbers, pool: Pool, maxPending: nat, workers: map<WorkerId, Phase>)

  datatype Step =
    | Submit(worker: WorkerId)
    | Verdict(worker: WorkerId, ok: bool)
    | Open(conn: ConnId)
    | TryReserve(worker: WorkerId, conn: ConnId)
    | WriteLine(worker: WorkerId, sent: bool)
    | CountSubmitted(worker: WorkerId)
    | Reply(conn: ConnId, request: RequestId)
    | CountReply(conn: ConnId, ok: bool)

  predicate Enabled(s: State, step: Step) {
    match step
    case Submit(w) => w in s.workers && s.workers[w].Hashing?
    case Verdict(w, _) => w in s.workers && s.workers[w].Submitting?
    case Open(c) => c !in s.pool.pending
    case TryReserve(w, c) => w in s.workers && s.workers[w].Hashing? && c in s.pool.pending
    case WriteLine(w, _) => w in s.workers && s.workers[w].Reserved? && w in s.numbers.requests && s.workers[w].conn in s.pool.pending
    case CountSubmitted(w) => w in s.workers && s.workers[w].Written?
    case Reply(c, request) => c in s.pool.pending && c !in s.pool.replying && request >= FIRST_SUBMIT_ID
    case CountReply(c, _) => c in s.pool.replying
  }

  function Turn(s: State, w: WorkerId, phase: Phase): State { s.(workers := s.workers[w := phase]) }

  function CountSubmission(c: Counts): Counts { c.(submitted := c.submitted + 1) }

  function CountVerdict(c: Counts, ok: bool): Counts {
    if ok then c.(accepted := c.accepted + 1) else c.(rejected := c.rejected + 1)
  }

  function Draw(n: Numbers, w: WorkerId): Numbers {
    Numbers(n.next + 1, n.requests[w := n.next], n.owner[n.next := w])
  }

  function FinishOn(p: Pool, c: ConnId): Pool
    requires c in p.pending
  {
    p.(pending := p.pending[c := Finish(p.pending[c])])
  }

  /** The reply is for a share this connection carried and nobody has answered. */
  predicate Answers(p: Pool, c: ConnId, request: RequestId) {
    request in p.outstanding && p.outstanding[request] == c
  }

  function Receive(p: Pool, c: ConnId, request: RequestId): Pool
    requires c in p.pending
  {
    var finished := FinishOn(p, c).(replying := p.replying + {c});
    if Answers(p, c, request) then finished.(outstanding := p.outstanding - {request})
    else finished.(strays := p.strays + multiset{c})
  }

  function Apply(s: State, step: Step): State
    requires Enabled(s, step)
  {
    match step
    case Submit(w) => Turn(s.(counts := CountSubmission(s.counts)), w, Submitting)
    case Verdict(w, ok) => Turn(s.(counts := CountVerdict(s.counts, ok)), w, Hashing)
    case Open(c) => s.(pool := s.pool.(pending := s.pool.pending[c := 0]))
    case TryReserve(w, c) =>
      var drawn := s.(numbers := Draw(s.numbers, w));
      (match Reserve(s.pool.pending[c], s.maxPending)
       case Some(p) => Turn(drawn.(pool := s.pool.(pending := s.pool.pending[c := p])), w, Reserved(c))
       case None => drawn)
    case WriteLine(w, sent) =>
      var c := s.workers[w].conn;
      if sent
      then Turn(s.(pool := s.pool.(outstanding := s.pool.outstanding[s.numbers.requests[w] := c])), w, Written)
      else Turn(s.(pool := FinishOn(s.pool, c)), w, Hashing)
    case CountSubmitted(w) => Turn(s.(counts := CountSubmission(s.counts)), w, Hashing)
    case Reply(c, request) => s.(pool := Receive(s.pool, c, request))
    case CountReply(c, ok) => s.(counts := CountVerdict(s.counts, ok), pool := s.pool.(replying := s.pool.replying - {c}))
  }

  ghost predicate Init(s: State) {
    && s.counts.submitted == 0 && s.counts.accepted == 0 && s.counts.rejected == 0 && s.numbers.next == FIRST_SUBMIT_ID
    && s.maxPending == |s.workers| && s.numbers.requests == map[] && s.numbers.owner == map[] && s.pool.pending == map[]
    && s.pool.outstanding == map[] && s.pool.replying == {} && s.pool.strays == multiset{}
    && forall w | w in s.workers :: s.workers[w].Hashing?
  }

  ghost predicate Run(states: seq<State>, steps: seq<Step>) {
    && |states| == |steps| + 1
    && forall i | 0 <= i < |steps| :: Enabled(states[i], steps[i]) && states[i + 1] == Apply(states[i], steps[i])
  }

  // ---------------------------------------------------------------- counting

  ghost function Having<V(!new)>(m: map<nat, V>, v: V): set<nat> { set k | k in m && m[k] == v }

  ghost function Count<V(!new)>(m: map<nat, V>, v: V): nat { |Having(m, v)| }

  function One(b: bool): nat { if b then 1 else 0 }

  /** Counting after one update: the old value of the key leaves, the new one enters. */
  lemma CountUpdated<V(!new)>(m: map<nat, V>, k: nat, x: V, v: V)
    ensures Count(m[k := x], v) + One(k in m && m[k] == v) == Count(m, v) + One(x == v)
  {
    var before, after := Having(m, v), Having(m[k := x], v);
    assert k in before <==> k in m && m[k] == v;
    assert k in after <==> x == v;
    assert after - {k} == before - {k};
    hide Having;
    assert |after| == |after - {k}| + One(k in after);
    assert |before| == |before - {k}| + One(k in before);
  }

  lemma CountRemoved<V(!new)>(m: map<nat, V>, k: nat, v: V)
    requires k in m
    ensures Count(m - {k}, v) + One(m[k] == v) == Count(m, v)
  {
    var rest := Having(m, v) - {k};
    assert Having(m - {k}, v) == rest;
    assert Having(m, v) == if m[k] == v then rest + {k} else rest;
  }

  lemma CountPositive<V(!new)>(m: map<nat, V>, k: nat)
    requires k in m
    ensures Count(m, m[k]) >= 1
  {
    assert k in Having(m, m[k]);
  }

  /** Shares of connection `c` that hold one of its slots: reserved but unwritten, or unanswered. */
  ghost function InFlight(s: State, c: ConnId): nat { Count(s.workers, Reserved(c)) + Count(s.pool.outstanding, c) }

  // ---------------------------------------------------------------- the invariants

  /** Submissions counted or about to be, against verdicts given or still to come. */
  ghost predicate Conserved(s: State) {
    s.counts.submitted + Count(s.workers, Written) + |s.pool.strays| ==
    s.counts.accepted + s.counts.rejected + Count(s.workers, Submitting) + |s.pool.outstanding| + |s.pool.replying|
  }

  ghost predicate Tracked(s: State, c: ConnId) {
    c in s.pool.pending && s.pool.pending[c] <= s.maxPending && s.pool.pending[c] <= InFlight(s, c) <= s.pool.pending[c] + s.pool.strays[c]
  }

  /** Every connection's counter lies within its stray replies of the shares in flight. */
  ghost predicate CountersOk(s: State) {
    && (forall w | w in s.workers && s.workers[w].Reserved? :: s.workers[w].conn in s.pool.pending)
    && (forall r | r in s.pool.outstanding :: s.pool.outstanding[r] in s.pool.pending)
    && (forall c | c in s.pool.strays :: c in s.pool.pending)
    && forall c | c in s.pool.pending :: Tracked(s, c)
  }

  /** The number a worker drew for a reserved share is its own and not on the wire. */
  ghost predicate DrawnOk(s: State, w: WorkerId) {
    && w in s.numbers.requests && s.numbers.requests[w] < s.numbers.next && s.numbers.requests[w] !in s.pool.outstanding
    && s.numbers.requests[w] in s.numbers.owner && s.numbers.owner[s.numbers.requests[w]] == w
  }

  ghost predicate RequestsOk(s: State) {
    && (forall r | r in s.pool.outstanding :: r < s.numbers.next)
    && (forall w | w in s.workers && s.workers[w].Reserved? :: DrawnOk(s, w))
  }

  ghost predicate Inv(s: State) { Conserved(s) && CountersOk(s) && RequestsOk(s) }

  lemma CountNone<V(!new)>(m: map<nat, V>, v: V)
    requires forall k | k in m :: m[k] != v
    ensures Count(m, v) == 0
  {
    assert Having(m, v) == {};
  }

  lemma InitInv(s: State)
    requires Init(s)
    ensures Inv(s)
  {
    CountNone(s.workers, Written);
    CountNone(s.workers, Submitting);
  }

  lemma ConservedTurn(s: State, step: Step)
    requires Conserved(s) && Enabled(s, step) && (step.Submit? || step.Verdict? || step.TryReserve? || step.CountSubmitted?)
    ensures Conserved(Apply(s, step))
  {
    var e, w := Apply(s, step), step.worker;
    CountUpdated(s.workers, w, e.workers[w], Written);
    CountUpdated(s.workers, w, e.workers[w], Submitting);
    assert e.workers == s.workers || e.workers == s.workers[w := e.workers[w]];
    hide Having, Count;
  }

  lemma ConservedWriteLine(s: State, step: Step)
    requires Conserved(s) && RequestsOk(s) && Enabled(s, step) && step.WriteLine?
    ensures Conserved(Apply(s, step))
  {
    var e, w := Apply(s, step), step.worker;
    CountUpdated(s.workers, w, e.workers[w], Written);
    CountUpdated(s.workers, w, e.workers[w], Submitting);
    assert DrawnOk(s, w);
    assert |e.pool.outstanding.Keys| == |e.pool.outstanding| && |s.pool.outstanding.Keys| == |s.pool.outstanding|;
    assert step.sent ==> e.pool.outstanding.Keys == s.pool.outstanding.Keys + {s.numbers.requests[w]};
    hide Having, Count, RequestsOk;
  }

  lemma ConservedReply(s: State, step: Step)
    requires Conserved(s) && Enabled(s, step) && step.Reply?
    ensures Conserved(Apply(s, step))
  {
    var e := Apply(s, step);
    assert |e.pool.outstanding.Keys| == |e.pool.outstanding| && |s.pool.outstanding.Keys| == |s.pool.outstanding|;
    assert Answers(s.pool, step.conn, step.request) ==> e.pool.outstanding.Keys == s.pool.outstanding.Keys - {step.request};
  }

  lemma ConservedStep(s: State, step: Step)
    requires Conserved(s) && RequestsOk(s) && Enabled(s, step)
    ensures Conserved(Apply(s, step))
  {
    hide RequestsOk;
    match step {
      case WriteLine(_, _) => ConservedWriteLine(s, step);
      case Reply(_, _) => ConservedReply(s, step);
      case Open(_) =>
      case CountReply(_, _) =>
      case _ => ConservedTurn(s, step);
    }
  }

  /** Only reserving and writing touch the numbers of reserved shares. */
  lemma RequestsFrame(s: State, step: Step)
    requires Enabled(s, step) && !step.TryReserve? && !step.WriteLine?
    ensures var e := Apply(s, step);
            && e.numbers.requests == s.numbers.requests && e.numbers.owner == s.numbers.owner && e.numbers.next == s.numbers.next
            && e.pool.outstanding.Keys <= s.pool.outstanding.Keys
            && forall w | w in e.workers && e.workers[w].Reserved? :: w in s.workers && s.workers[w].Reserved?
  {
  }

  lemma RequestsKept(s: State, step: Step)
    requires RequestsOk(s) && Enabled(s, step) && !step.TryReserve? && !step.WriteLine?
    ensures RequestsOk(Apply(s, step))
  {
    hide Apply, Enabled;
    RequestsFrame(s, step);
    var e := Apply(s, step);
    forall w | w in e.workers && e.workers[w].Reserved? ensures DrawnOk(e, w) {
      assert DrawnOk(s, w);
    }
  }

  lemma RequestsMoved(s: State, step: Step)
    requires RequestsOk(s) && Enabled(s, step) && (step.TryReserve? || step.WriteLine?)
    ensures RequestsOk(Apply(s, step))
  {
    var e := Apply(s, step);
    forall w | w in e.workers && e.workers[w].Reserved? ensures DrawnOk(e, w) {
      assert w in s.workers;
      if s.workers[w].Reserved? { assert DrawnOk(s, w); }
      if step.WriteLine? { assert DrawnOk(s, step.worker); }
    }
  }

  lemma RequestsStep(s: State, step: Step)
    requires RequestsOk(s) && Enabled(s, step)
    ensures RequestsOk(Apply(s, step))
  {
    hide RequestsOk;
    if step.TryReserve? || step.WriteLine? { RequestsMoved(s, step); } else { RequestsKept(s, step); }
  }

  lemma TrackedTurn(s: State, step: Step, c: ConnId)
    requires Tracked(s, c) && Enabled(s, step)
    requires step.Submit? || step.Verdict? || step.TryReserve? || step.CountSubmitted?
    ensures Tracked(Apply(s, step), c)
  {
    var e, w := Apply(s, step), step.worker;
    CountUpdated(s.workers, w, e.workers[w], Reserved(c));
    assert e.workers == s.workers || e.workers == s.workers[w := e.workers[w]];
    hide Having, Count;
  }

  lemma TrackedWriteLine(s: State, step: Step, c: ConnId)
    requires Tracked(s, c) && RequestsOk(s) && Enabled(s, step) && step.WriteLine?
    ensures Tracked(Apply(s, step), c)
  {
    var e, w := Apply(s, step), step.worker;
    assert DrawnOk(s, w);
    CountUpdated(s.workers, w, e.workers[w], Reserved(c));
    CountUpdated(s.pool.outstanding, s.numbers.requests[w], s.workers[w].conn, c);
    CountPositive(s.workers, w);
    hide Having, Count, RequestsOk;
  }

  lemma TrackedReply(s: State, step: Step, c: ConnId)
    requires Tracked(s, c) && Enabled(s, step) && step.Reply?
    ensures Tracked(Apply(s, step), c)
  {
    if Answers(s.pool, step.conn, step.request) {
      CountRemoved(s.pool.outstanding, step.request, c);
      CountPositive(s.pool.outstanding, step.request);
    }
    hide Having, Count;
  }

  lemma TrackedStep(s: State, step: Step, c: ConnId)
    requires Tracked(s, c) && RequestsOk(s) && Enabled(s, step)
    ensures Tracked(Apply(s, step), c)
  {
    hide RequestsOk;
    match step {
      case WriteLine(_, _) => TrackedWriteLine(s, step, c);
      case Reply(_, _) => TrackedReply(s, step, c);
      case Open(_) =>
      case CountReply(_, _) =>
      case _ => TrackedTurn(s, step, c);
    }
  }

  lemma FreshIsTracked(s: State, c: ConnId)
    requires CountersOk(s) && c !in s.pool.pending
    ensures Tracked(Apply(s, Open(c)), c)
  {
    CountNone(s.workers, Reserved(c));
    CountNone(s.pool.outstanding, c);
  }

  /** What a step can do to the connections that are known. */
  lemma ConnectionsFrame(s: State, step: Step)
    requires Enabled(s, step)
    ensures var e := Apply(s, step);
            && e.pool.pending.Keys == s.pool.pending.Keys + (if step.Open? then {step.conn} else {})
            && (forall w | w in e.workers && e.workers[w].Reserved? ::
                  (w in s.workers && s.workers[w].Reserved? && e.workers[w].conn == s.workers[w].conn) || e.workers[w].conn in s.pool.pending)
            && (forall r | r in e.pool.outstanding ::
                  (r in s.pool.outstanding && e.pool.outstanding[r] == s.pool.outstanding[r]) || e.pool.outstanding[r] in s.pool.pending)
            && (forall c | c in e.pool.strays :: c in s.pool.strays || c in s.pool.pending)
  {
  }

  lemma CountersStep(s: State, step: Step)
    requires CountersOk(s) && RequestsOk(s) && Enabled(s, step)
    ensures CountersOk(Apply(s, step))
  {
    hide RequestsOk, Apply, Tracked;
    var e := Apply(s, step);
    ConnectionsFrame(s, step);
    forall c | c in e.pool.pending ensures Tracked(e, c) {
      if c in s.pool.pending { assert Tracked(s, c); TrackedStep(s, step, c); } else { FreshIsTracked(s, c); }
    }
  }

  lemma WorkersFrame(s: State, step: Step)
    requires Enabled(s, step)
    ensures Apply(s, step).maxPending == s.maxPending && Apply(s, step).workers.Keys == s.workers.Keys
  {
  }

  lemma StepInv(s: State, step: Step)
    requires Inv(s) && Enabled(s, step)
    ensures Inv(Apply(s, step))
  {
    hide Conserved, CountersOk, RequestsOk, Apply, Enabled;
    ConservedStep(s, step);
    CountersStep(s, step);
    RequestsStep(s, step);
  }

  lemma {:induction false} RunInv(states: seq<State>, steps: seq<Step>, k: nat)
    requires Run(states, steps) && Init(states[0]) && k < |states|
    ensures Inv(states[k]) && states[k].maxPending == |states[0].workers| && states[k].workers.Keys == states[0].workers.Keys
  {
    if k == 0 {
      InitInv(states[0]);
    } else {
      RunInv(states, steps, k - 1);
      hide Inv, Apply, Enabled, Init;
      StepInv(states[k - 1], steps[k - 1]);
      WorkersFrame(states[k - 1], steps[k - 1]);
    }
  }

  // ---------------------------------------------------------------- main results

  /** Over any run, with no share sent through a pool, what was submitted is what was accepted, what was
      rejected, and one for each worker in the middle of a submission. */
  lemma DirectAccounting(states: seq<State>, steps: seq<Step>, k: nat)
    requires Run(states, steps) && Init(states[0]) && k < |states|
    requires forall i | 0 <= i < |steps| :: steps[i].Submit? || steps[i].Verdict?
    ensures states[k].counts.submitted == states[k].counts.accepted + states[k].counts.rejected + Count(states[k].workers, Submitting)
    ensures Count(states[k].workers, Submitting) <= |states[0].workers|
  {
    RunInv(states, steps, k);
    NoPoolTraffic(states, steps, k);
    CountNone(states[k].workers, Written);
    CountAtMostAll(states[k].workers, Submitting);
  }

  lemma {:induction false} NoPoolTraffic(states: seq<State>, steps: seq<Step>, k: nat)
    requires Run(states, steps) && Init(states[0]) && k < |states|
    requires forall i | 0 <= i < |steps| :: steps[i].Submit? || steps[i].Verdict?
    ensures var s := states[k]; s.pool.outstanding == map[] && s.pool.replying == {} && s.pool.strays == multiset{}
    ensures forall w | w in states[k].workers :: states[k].workers[w] != Written
  {
    if k > 0 {
      NoPoolTraffic(states, steps, k - 1);
      assert states[k] == Apply(states[k - 1], steps[k - 1]);
    }
  }

  lemma CountAtMostAll<V(!new)>(m: map<nat, V>, v: V)
    ensures Count(m, v) <= |m|
  {
    assert Having(m, v) <= m.Keys;
    SubsetSize(Having(m, v), m.Keys);
    assert |m.Keys| == |m|;
  }

  lemma {:induction false} SubsetSize(a: set<nat>, b: set<nat>)
    requires a <= b
    ensures |a| <= |b|
  {
    if a != {} {
      var x :| x in a;
      SubsetSize(a - {x}, b - {x});
    }
  }

  /** With pools: nothing submitted is lost or counted twice, but for replies that answer no share. */
  lemma SubmissionsAreConserved(states: seq<State>, steps: seq<Step>, k: nat)
    requires Run(states, steps) && Init(states[0]) && k < |states|
    ensures var s := states[k];
            s.counts.submitted + Count(s.workers, Written) + |s.pool.strays| ==
            s.counts.accepted + s.counts.rejected + Count(s.workers, Submitting) + |s.pool.outstanding| + |s.pool.replying|
  {
    RunInv(states, steps, k);
  }

  // ---------------------------------------------------------------- what the counters count

  predicate CountsSubmission(step: Step) { step.Submit? || step.CountSubmitted? }

  predicate Decides(step: Step, ok: bool) { (step.Verdict? || step.CountReply?) && step.ok == ok }

  /** How many of these steps count a submission, an acceptance, a rejection. */
  function Submissions(steps: seq<Step>): nat {
    if steps == [] then 0 else Submissions(steps[..|steps| - 1]) + One(CountsSubmission(steps[|steps| - 1]))
  }

  function Decisions(steps: seq<Step>, ok: bool): nat {
    if steps == [] then 0 else Decisions(steps[..|steps| - 1], ok) + One(Decides(steps[|steps| - 1], ok))
  }

  lemma StepCounts(s: State, step: Step)
    requires Enabled(s, step)
    ensures var e := Apply(s, step);
            && e.counts.submitted == s.counts.submitted + One(CountsSubmission(step))
            && e.counts.accepted == s.counts.accepted + One(Decides(step, true))
            && e.counts.rejected == s.counts.rejected + One(Decides(step, false))
  {
  }

  /** Over any run each counter is the number of the steps it stands for: submissions made, verdicts and replies
      that accept, verdicts and replies that reject. */
  lemma {:induction false} CountersCountTheirSteps(states: seq<State>, steps: seq<Step>, k: nat)
    requires Run(states, steps) && Init(states[0]) && k < |states|
    ensures |states| == |steps| + 1
    ensures states[k].counts == Counts(Submissions(steps[..k]), Decisions(steps[..k], true), Decisions(steps[..k], false))
  {
    RunLength(states, steps);
    if k == 0 {
      hide Enabled, Apply;
    } else {
      hide *;
      CountersCountTheirSteps(states, steps, k - 1);
      RunStep(states, steps, k - 1);
      StepCounts(states[k - 1], steps[k - 1]);
      TakenCounts(steps, k);
    }
  }

  lemma RunLength(states: seq<State>, steps: seq<Step>)
    requires Run(states, steps)
    ensures |states| == |steps| + 1
  {
    hide Enabled, Apply;
  }

  lemma TakenCounts(steps: seq<Step>, k: nat)
    requires 0 < k <= |steps|
    ensures Submissions(steps[..k]) == Submissions(steps[..k - 1]) + One(CountsSubmission(steps[k - 1]))
    ensures forall ok :: Decisions(steps[..k], ok) == Decisions(steps[..k - 1], ok) + One(Decides(steps[k - 1], ok))
  {
    assert steps[..k][..k - 1] == steps[..k - 1];
  }

  // ---------------------------------------------------------------- request numbers

  predicate Draws(step: Step) { step.TryReserve? }

  function Drawn(steps: seq<Step>): nat {
    if steps == [] then 0 else Drawn(steps[..|steps| - 1]) + One(Draws(steps[|steps| - 1]))
  }

  /** Every attempt to reserve draws the next number, from 1000 on, whether or not there is room; so no two
      shares of a run go out under one number, and the numbers below 1000 stay free for the handshake. */
  lemma {:induction false} NumbersAreDrawnInOrder(states: seq<State>, steps: seq<Step>, k: nat)
    requires Run(states, steps) && Init(states[0]) && k < |states|
    ensures |states| == |steps| + 1 && states[k].numbers.next == FIRST_SUBMIT_ID + Drawn(steps[..k])
    ensures k < |steps| && steps[k].TryReserve? ==>
              && steps[k].worker in states[k + 1].numbers.requests
              && states[k + 1].numbers.requests[steps[k].worker] == FIRST_SUBMIT_ID + Drawn(steps[..k])
  {
    RunLength(states, steps);
    if k < |steps| { RunStep(states, steps, k); }
    if k == 0 {
      hide Enabled, Run;
    } else {
      NumbersAreDrawnInOrder(states, steps, k - 1);
      RunStep(states, steps, k - 1);
      hide Run, Init;
      assert steps[..k][..k - 1] == steps[..k - 1];
      DrawStep(states[k - 1], steps[k - 1]);
      if k < |steps| { DrawStep(states[k], steps[k]); }
      hide Apply, Enabled;
    }
  }

  lemma DrawStep(s: State, step: Step)
    requires Enabled(s, step)
    ensures var e := Apply(s, step);
            && e.numbers.next == s.numbers.next + One(Draws(step))
            && (step.TryReserve? ==> step.worker in e.numbers.requests && e.numbers.requests[step.worker] == s.numbers.next)
  {
  }

  // ---------------------------------------------------------------- back-pressure

  /** A connection's counter never exceeds the number of workers, is never more than its shares in
      flight, and equals them on a connection that answers each share at most once. */
  lemma PendingIsInFlight(states: seq<State>, steps: seq<Step>, k: nat, c: ConnId)
    requires Run(states, steps) && Init(states[0]) && k < |states|
    requires c in states[k].pool.pending
    ensures states[k].pool.pending[c] <= |states[0].workers|
    ensures states[k].pool.pending[c] <= InFlight(states[k], c) <= |states[0].workers| + states[k].pool.strays[c]
    ensures states[k].pool.strays[c] == 0 ==> states[k].pool.pending[c] == InFlight(states[k], c)
  {
    RunInv(states, steps, k);
    assert Tracked(states[k], c);
  }

  // ---------------------------------------------------------------- when the counter is exact

  /** A reply that answers no share of connection `c`, and takes a slot from it all the same. */
  predicate Overdraws(s: State, step: Step, c: ConnId) {
    step.Reply? && step.conn == c && c in s.pool.pending && !Answers(s.pool, c, step.request) && s.pool.pending[c] > 0
  }

  /** A share of connection `c` that finishes when the counter has nothing left to give back. */
  predicate Saturates(s: State, step: Step, c: ConnId) {
    && c in s.pool.pending && s.pool.pending[c] == 0
    && (|| (step.Reply? && step.conn == c && Answers(s.pool, c, step.request))
        || (step.WriteLine? && !step.sent && step.worker in s.workers && s.workers[step.worker] == Reserved(c)))
  }

  /** Shares in flight that the counter has lost. */
  ghost function Deficit(s: State, c: ConnId): int
    requires c in s.pool.pending
  {
    InFlight(s, c) - s.pool.pending[c]
  }

  lemma DeficitTurn(s: State, step: Step, c: ConnId)
    requires c in s.pool.pending && Enabled(s, step)
    requires step.Submit? || step.Verdict? || step.TryReserve? || step.CountSubmitted?
    ensures c in Apply(s, step).pool.pending && Deficit(Apply(s, step), c) == Deficit(s, c)
  {
    var e, w := Apply(s, step), step.worker;
    CountUpdated(s.workers, w, e.workers[w], Reserved(c));
    assert e.workers == s.workers || e.workers == s.workers[w := e.workers[w]];
    hide Having, Count;
  }

  lemma DeficitWriteLine(s: State, step: Step, c: ConnId)
    requires c in s.pool.pending && RequestsOk(s) && Enabled(s, step) && step.WriteLine?
    ensures c in Apply(s, step).pool.pending
    ensures Deficit(Apply(s, step), c) == Deficit(s, c) - One(Saturates(s, step, c))
  {
    var e, w := Apply(s, step), step.worker;
    assert DrawnOk(s, w);
    CountUpdated(s.workers, w, e.workers[w], Reserved(c));
    CountUpdated(s.pool.outstanding, s.numbers.requests[w], s.workers[w].conn, c);
    hide Having, Count, RequestsOk;
  }

  lemma DeficitReply(s: State, step: Step, c: ConnId)
    requires c in s.pool.pending && Enabled(s, step) && step.Reply?
    ensures c in Apply(s, step).pool.pending
    ensures Deficit(Apply(s, step), c) == Deficit(s, c) + One(Overdraws(s, step, c)) - One(Saturates(s, step, c))
  {
    if Answers(s.pool, step.conn, step.request) {
      CountRemoved(s.pool.outstanding, step.request, c);
    }
    hide Having, Count;
  }

  /** The exact law of one step: the counter loses a share to a reply that overdraws it, makes one good
      when it saturates, and is otherwise off by what it was off before. */
  lemma DeficitStep(s: State, step: Step, c: ConnId)
    requires c in s.pool.pending && RequestsOk(s) && Enabled(s, step)
    ensures c in Apply(s, step).pool.pending
    ensures Deficit(Apply(s, step), c) == Deficit(s, c) + One(Overdraws(s, step, c)) - One(Saturates(s, step, c))
  {
    hide RequestsOk, Having, Count;
    match step {
      case WriteLine(_, _) => DeficitWriteLine(s, step, c);
      case Reply(_, _) => DeficitReply(s, step, c);
      case Open(_) =>
      case CountReply(_, _) =>
      case _ => DeficitTurn(s, step, c);
    }
  }

  ghost predicate Exact(s: State, c: ConnId) { c in s.pool.pending ==> s.pool.pending[c] == InFlight(s, c) }

  lemma OpenedIsExact(s: State, step: Step, c: ConnId)
    requires CountersOk(s) && Enabled(s, step) && c !in s.pool.pending
    ensures Exact(Apply(s, step), c)
  {
    if step == Open(c) {
      CountNone(s.workers, Reserved(c));
      CountNone(s.pool.outstanding, c);
    } else {
      ConnectionsFrame(s, step);
    }
    hide CountersOk;
  }

  /** A finish cannot saturate an exact counter, so one step keeps it exact exactly when it does not overdraw. */
  lemma ExactStep(s: State, step: Step, c: ConnId)
    requires Inv(s) && Enabled(s, step) && Exact(s, c)
    ensures Exact(Apply(s, step), c) <==> !Overdraws(s, step, c)
  {
    if c in s.pool.pending {
      DeficitStep(s, step, c);
      if Saturates(s, step, c) {
        if step.Reply? { CountPositive(s.pool.outstanding, step.request); } else { CountPositive(s.workers, step.worker); }
        assert false;
      }
      hide Apply, Enabled, Count, Inv;
    } else {
      OpenedIsExact(s, step, c);
      hide Apply, Enabled, Count, Inv;
    }
  }

  /** The exact condition: throughout a run a connection's counter equals its shares in flight, exactly when
      no reply ever answered none of its shares while the counter was above zero. */
  lemma {:induction false} CounterIsExactUnlessOverdrawn(states: seq<State>, steps: seq<Step>, c: ConnId)
    requires Run(states, steps) && Init(states[0])
    ensures (forall k | 0 <= k < |states| :: Exact(states[k], c)) <==>
            (forall k | 0 <= k < |steps| :: !Overdraws(states[k], steps[k], c))
  {
    if forall k | 0 <= k < |states| :: Exact(states[k], c) {
      forall k | 0 <= k < |steps| ensures !Overdraws(states[k], steps[k], c) {
        hide *;
        RunInv(states, steps, k);
        RunStep(states, steps, k);
        assert Exact(states[k], c) && Exact(states[k + 1], c);
        ExactStep(states[k], steps[k], c);
      }
    }
    if forall k | 0 <= k < |steps| :: !Overdraws(states[k], steps[k], c) {
      forall k | 0 <= k < |states| ensures Exact(states[k], c) { ExactSoFar(states, steps, c, k); }
    }
  }

  lemma {:induction false} ExactSoFar(states: seq<State>, steps: seq<Step>, c: ConnId, k: nat)
    requires Run(states, steps) && Init(states[0]) && k < |states|
    requires forall i | 0 <= i < k :: !Overdraws(states[i], steps[i], c)
    ensures Exact(states[k], c)
  {
    assert |states| == |steps| + 1;
    hide *;
    if k == 0 {
      InitIsExact(states[0], c);
    } else {
      ExactSoFar(states, steps, c, k - 1);
      RunInv(states, steps, k - 1);
      RunStep(states, steps, k - 1);
      ExactStep(states[k - 1], steps[k - 1], c);
    }
  }

  lemma InitIsExact(s: State, c: ConnId)
    requires Init(s)
    ensures Exact(s, c)
  {
  }

  lemma RunStep(states: seq<State>, steps: seq<Step>, k: nat)
    requires Run(states, steps) && k < |steps|
    ensures |states| == |steps| + 1 && Enabled(states[k], steps[k]) && states[k + 1] == Apply(states[k], steps[k])
  {
    hide Enabled, Apply;
  }

  /** On such a connection a finished share always frees a slot: the saturating subtraction never saturates. */
  lemma FinishNeverSaturates(states: seq<State>, steps: seq<Step>, k: nat, c: ConnId)
    requires Run(states, steps) && Init(states[0]) && k < |steps|
    requires c in states[k].pool.pending && states[k].pool.strays[c] == 0
    requires || (steps[k].Reply? && steps[k].conn == c && Answers(states[k].pool, c, steps[k].request))
             || (steps[k].WriteLine? && !steps[k].sent && states[k].workers[steps[k].worker] == Reserved(c))
    ensures states[k].pool.pending[c] > 0 && states[k + 1].pool.pending[c] == states[k].pool.pending[c] - 1
  {
    PendingIsInFlight(states, steps, k, c);
    var s := states[k];
    assert states[k + 1] == Apply(s, steps[k]);
    if steps[k].Reply? {
      CountPositive(s.pool.outstanding, steps[k].request);
    } else {
      CountPositive(s.workers, steps[k].worker);
    }
  }

  lemma RunExtended(states: seq<State>, steps: seq<Step>, step: Step) returns (longer: seq<State>, taken: seq<Step>)
    requires Run(states, steps) && Enabled(states[|steps|], step)
    ensures Run(longer, taken) && |longer| == |taken| + 1 && longer[0] == states[0]
    ensures longer[|taken|] == Apply(states[|steps|], step)
  {
    longer, taken := states + [Apply(states[|steps|], step)], steps + [step];
    hide Enabled, Apply;
  }

  lemma OneShareReserved() returns (states: seq<State>, steps: seq<Step>)
    ensures Run(states, steps) && |states| == |steps| + 1 && Init(states[0])
    ensures states[|steps|] == State(Counts(0, 0, 0), Numbers(1001, map[0 := 1000], map[1000 := 0]),
                                     Pool(map[0 := 1], map[], {}, multiset{}), 1, map[0 := Reserved(0)])
  {
    states := [State(Counts(0, 0, 0), Numbers(1000, map[], map[]), Pool(map[], map[], {}, multiset{}), 1, map[0 := Hashing])];
    steps := [];
    assert Run(states, steps) && Init(states[0]);
    hide Run, Init;
    states, steps := RunExtended(states, steps, Open(0));
    assert states[|steps|].pool.pending == map[0 := 0];
    states, steps := RunExtended(states, steps, TryReserve(0, 0));
  }

  lemma OneShareOnTheWire() returns (states: seq<State>, steps: seq<Step>)
    ensures Run(states, steps) && |states| == |steps| + 1 && Init(states[0])
    ensures states[|steps|] == State(Counts(1, 0, 0), Numbers(1001, map[0 := 1000], map[1000 := 0]),
                                     Pool(map[0 := 1], map[1000 := 0], {}, multiset{}), 1, map[0 := Hashing])
  {
    states, steps := OneShareReserved();
    hide Run, Init;
    states, steps := RunExtended(states, steps, WriteLine(0, true));
    states, steps := RunExtended(states, steps, CountSubmitted(0));
  }

  /** An overdrawing reply at work: with one worker, a pool that answers a share it was never sent lets two
      shares be in flight together, while the counter reads one. */
  lemma StrayReplyOverfills() returns (states: seq<State>, steps: seq<Step>)
    ensures Run(states, steps) && |states| == |steps| + 1 && Init(states[0])
    ensures var s := states[|steps|];
            |s.workers| == 1 && 0 in s.pool.pending && s.pool.pending[0] == 1 && InFlight(s, 0) == 2
  {
    states, steps := OneShareOnTheWire();
    hide Run, Init;
    states, steps := RunExtended(states, steps, Reply(0, 5000));
    assert states[|steps|].pool == Pool(map[0 := 0], map[1000 := 0], {0}, multiset{0});
    states, steps := RunExtended(states, steps, TryReserve(0, 0));
    assert Having(states[|steps|].workers, Reserved(0)) == {0};
    assert Having(states[|steps|].pool.outstanding, 0) == {1000};
  }
}
