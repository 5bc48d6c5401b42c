/** The tip and reorganization detector of src/blockflow.rs. The class is proved against a step
    function on values; the bounded memory of that function is then proved to be exactly what an
    unbounded log of everything that was ever registered says about the 64 greatest heights. */
module TipTracking {
  import opened Basics
  import Utf8

  const MAX_GAP_BLOCKS: nat := 4
  const MAX_REPORTED_TRACKED: nat := 64
  const MAX_HASH_BYTES: nat := 128

  type Hash = string

  datatype TipAdvance =
    | Baseline(height: nat)
    | Blocks(report: seq<nat>, omitted: nat, omittedFrom: nat, omittedTo: nat)
    | Unchanged

  datatype BlockRecord = New | AlreadyReported | Reorg(previousHash: Hash)

  /** A disclosed hash counts only if it is neither empty nor oversized after trimming. */
  function Normalize(hash: Option<string>): Option<Hash> {
    match hash
    case None => None
    case Some(raw) =>
      var text := Utf8.Trim(raw);
      if text == "" || |Utf8.Encode(text)| > MAX_HASH_BYTES then None else Some(text)
  }

  /** The hash that counts is the disclosed text without the white space around it, if something is left and it
      fits in 128 bytes. */
  lemma NormalizedExactly(raw: string, hash: Hash)
    ensures Normalize(Some(raw)) == Some(hash) <==>
              && Utf8.Trimmed(raw, hash) && hash != "" && |Utf8.Encode(hash)| <= MAX_HASH_BYTES
    ensures Normalize(None) == None
  {
    Utf8.TrimExactly(raw, hash);
    hide Utf8.Trim, Utf8.Trimmed, Utf8.Encode;
  }

  // ---------------------------------------------------------------- the step function

  datatype Watch = Watch(lastTip: Option<nat>, needsBaseline: bool, reported: map<nat, Option<Hash>>)

  const FRESH: Watch := Watch(None, false, map[])

  ghost predicate IsLeast(k: nat, s: set<nat>) { k in s && forall x | x in s :: k <= x }

  lemma {:induction false} LeastExists(s: set<nat>)
    requires s != {}
    ensures exists k :: IsLeast(k, s)
  {
    var k :| k in s;
    if s == {k} {
      assert IsLeast(k, s);
    } else {
      LeastExists(s - {k});
      var m: nat :| IsLeast(m, s - {k});
      var least: nat := if m < k then m else k;
      forall x | x in s ensures least <= x {
        assert x == k || x in s - {k};
      }
      assert IsLeast(least, s);
    }
  }

  ghost function Least(s: set<nat>): (k: nat)
    requires s != {}
    ensures IsLeast(k, s)
  {
    LeastExists(s);
    var k :| IsLeast(k, s);
    k
  }

  ghost function Prune(m: map<nat, Option<Hash>>): map<nat, Option<Hash>>
    decreases |m|
  {
    if |m| > MAX_REPORTED_TRACKED then Prune(m - {Least(m.Keys)}) else m
  }

  /** Everything the feed does with the watch. `announce` tells a feed report from a backfill fetch. */
  datatype Op =
    | BeginSession
    | ObserveTip(tip: nat)
    | Register(height: nat, hash: Option<string>, announce: bool)

  function Advance(w: Watch, tip: nat): TipAdvance {
    if w.needsBaseline || w.lastTip.None? then Baseline(tip)
    else if tip <= w.lastTip.value then Unchanged
    else
      var gap := tip - w.lastTip.value;
      var count := Min(gap, MAX_GAP_BLOCKS);
      var first := tip - count + 1;
      Blocks(seq(count, i requires 0 <= i < count => first + i), gap - count, w.lastTip.value + 1, Monus(first, 1))
  }

  function Classify(w: Watch, height: nat, hash: Option<Hash>, announce: bool): BlockRecord {
    if height in w.reported then
      match (w.reported[height], hash)
      case (Some(previous), Some(disclosed)) => if previous != disclosed then Reorg(previous) else AlreadyReported
      case _ => AlreadyReported
    else if announce then New else AlreadyReported
  }

  /** The entry a registration leaves: a valid hash replaces what was known, an unknown one does not. */
  function Entry(w: Watch, height: nat, hash: Option<Hash>): Option<Hash> {
    if height in w.reported && hash.None? then w.reported[height] else hash
  }

  ghost function Apply(w: Watch, op: Op): Watch {
    match op
    case BeginSession => w.(needsBaseline := true)
    case ObserveTip(tip) =>
      if w.needsBaseline || w.lastTip.None?
      then Watch(Some(tip), false, Prune(w.reported[tip := Entry(w, tip, None)]))
      else w.(lastTip := Some(tip))
    case Register(height, hash, _) =>
      w.(reported := Prune(w.reported[height := Entry(w, height, Normalize(hash))]))
  }

  ghost function After(ops: seq<Op>): Watch {
    if ops == [] then FRESH else Apply(After(ops[..|ops| - 1]), ops[|ops| - 1])
  }

  // ---------------------------------------------------------------- the class

  class TipWatch {
    var lastTip: Option<nat>
    var needsBaseline: bool
    var reported: map<nat, Option<Hash>>

    ghost function View(): Watch
      reads this
    {
      Watch(lastTip, needsBaseline, reported)
    }

    constructor ()
      ensures View() == FRESH
    {
      lastTip, needsBaseline, reported := None, false, map[];
    }

    method Begin()
      modifies this
      ensures View() == Apply(old(View()), BeginSession)
    {
      needsBaseline := true;
    }

    method PruneOldest()
      modifies this`reported
      ensures reported == Prune(old(reported))
    {
      while |reported| > MAX_REPORTED_TRACKED
        invariant Prune(reported) == Prune(old(reported))
        decreases |reported|
      {
        LeastExists(reported.Keys);
        var oldest :| oldest in reported.Keys && forall k | k in reported.Keys :: oldest <= k;
        assert oldest == Least(reported.Keys);
        reported := reported - {oldest};
      }
    }

    method Observe(tip: nat) returns (advance: TipAdvance)
      modifies this
      ensures View() == Apply(old(View()), ObserveTip(tip))
      ensures advance == Advance(old(View()), tip)
    {
      if needsBaseline || lastTip.None? {
        needsBaseline := false;
        lastTip := Some(tip);
        if tip !in reported { reported := reported[tip := None]; }
        assert reported == old(reported)[tip := Entry(old(View()), tip, None)];
        PruneOldest();
        return Baseline(tip);
      }
      var last := lastTip.value;
      if tip <= last {
        lastTip := Some(Min(tip, last));
        return Unchanged;
      }
      lastTip := Some(tip);
      var gap := tip - last;
      var count := Min(gap, MAX_GAP_BLOCKS);
      var first := tip - count + 1;
      advance := Blocks(seq(count, i requires 0 <= i < count => first + i), gap - count, last + 1, Monus(first, 1));
    }

    method Record(height: nat, rawHash: Option<string>, announce: bool) returns (record: BlockRecord)
      modifies this
      ensures View() == Apply(old(View()), Register(height, rawHash, announce))
      ensures record == Classify(old(View()), height, Normalize(rawHash), announce)
    {
      hide Prune, Normalize;
      var hash := Normalize(rawHash);
      if height in reported {
        record := AlreadyReported;
        match (reported[height], hash) {
          case (Some(previous), Some(disclosed)) =>
            if previous != disclosed {
              reported := reported[height := hash];
              record := Reorg(previous);
            }
          case (None, Some(_)) => reported := reported[height := hash];
          case _ =>
        }
      } else {
        reported := reported[height := hash];
        record := if announce then New else AlreadyReported;
      }
      assert reported == old(reported)[height := Entry(old(View()), height, hash)];
      PruneOldest();
    }
  }

  // ---------------------------------------------------------------- the unbounded log

  /** Whether the next tip is a baseline: no tip since the session began, or none ever. */
  ghost predicate AwaitsBaseline(ops: seq<Op>) {
    if ops == [] then true
    else
      match ops[|ops| - 1]
      case BeginSession => true
      case ObserveTip(_) => false
      case Register(_, _, _) => AwaitsBaseline(ops[..|ops| - 1])
  }

  /** Every height ever registered, with no bound. */
  ghost function Registered(ops: seq<Op>): set<nat> {
    if ops == [] then {}
    else
      var before := ops[..|ops| - 1];
      match ops[|ops| - 1]
      case BeginSession => Registered(before)
      case ObserveTip(tip) => if AwaitsBaseline(before) then Registered(before) + {tip} else Registered(before)
      case Register(height, _, _) => Registered(before) + {height}
  }

  /** The last valid hash ever disclosed for a height. */
  ghost function LastHash(ops: seq<Op>, height: nat): Option<Hash> {
    if ops == [] then None
    else
      var before := ops[..|ops| - 1];
      match ops[|ops| - 1]
      case Register(h, hash, _) =>
        if h == height && Normalize(hash).Some? then Normalize(hash) else LastHash(before, height)
      case _ => LastHash(before, height)
  }

  ghost function LastTip(ops: seq<Op>): Option<nat> {
    if ops == [] then None
    else match ops[|ops| - 1]
         case ObserveTip(tip) => Some(tip)
         case _ => LastTip(ops[..|ops| - 1])
  }

  // ---------------------------------------------------------------- the greatest heights

  /** `top` is the set of the `n` greatest members of `all`, or all of them if there are fewer. */
  ghost predicate IsTop(top: set<nat>, all: set<nat>, n: nat) {
    && top <= all
    && |top| == Min(n, |all|)
    && forall r, k | r in all && r !in top && k in top :: r < k
  }

  lemma SubsetSize(a: set<nat>, b: set<nat>)
    requires a <= b
    ensures |a| <= |b| && (|a| == |b| ==> a == b)
  {
    assert b == a + (b - a);
  }

  lemma PruneSmall(m: map<nat, Option<Hash>>)
    requires |m| <= MAX_REPORTED_TRACKED + 1
    ensures Prune(m) == if |m| <= MAX_REPORTED_TRACKED then m else m - {Least(m.Keys)}
  {
    if |m| == MAX_REPORTED_TRACKED + 1 {
      var rest := m - {Least(m.Keys)};
      assert rest.Keys == m.Keys - {Least(m.Keys)};
      assert |rest| == |rest.Keys|;
    }
  }

  ghost function TrimTop(s: set<nat>): set<nat> {
    if |s| > MAX_REPORTED_TRACKED then s - {Least(s)} else s
  }

  lemma TopOfInserted(top: set<nat>, all: set<nat>, height: nat)
    requires IsTop(top, all, MAX_REPORTED_TRACKED)
    ensures IsTop(TrimTop(top + {height}), all + {height}, MAX_REPORTED_TRACKED)
    ensures height in all && height !in top ==> height !in TrimTop(top + {height})
  {
    SubsetSize(top, all);
    if height in all {
      assert all + {height} == all;
      if height in top {
        assert top + {height} == top;
      } else {
        assert Least(top + {height}) == height;
        assert TrimTop(top + {height}) == top;
      }
    } else {
      assert |top + {height}| == |top| + 1 && |all + {height}| == |all| + 1;
    }
  }

  ghost predicate Within(p: map<nat, Option<Hash>>, m: map<nat, Option<Hash>>) {
    forall k | k in p :: k in m && p[k] == m[k]
  }

  lemma TopAfterInsert(m: map<nat, Option<Hash>>, all: set<nat>, height: nat, entry: Option<Hash>)
    requires IsTop(m.Keys, all, MAX_REPORTED_TRACKED)
    ensures IsTop(Prune(m[height := entry]).Keys, all + {height}, MAX_REPORTED_TRACKED)
    ensures height in all && height !in m ==> height !in Prune(m[height := entry])
    ensures Within(Prune(m[height := entry]), m[height := entry])
  {
    var grown := m[height := entry];
    assert grown.Keys == m.Keys + {height};
    assert |grown| == |grown.Keys|;
    TopOfInserted(m.Keys, all, height);
    PruneSmall(grown);
    assert Prune(grown).Keys == TrimTop(grown.Keys);
  }

  ghost predicate Refines(w: Watch, ops: seq<Op>) {
    && IsTop(w.reported.Keys, Registered(ops), MAX_REPORTED_TRACKED)
    && (forall h | h in w.reported :: w.reported[h] == LastHash(ops, h))
    && w.lastTip == LastTip(ops)
    && (w.needsBaseline || w.lastTip.None? <==> AwaitsBaseline(ops))
    && forall h | h !in Registered(ops) :: LastHash(ops, h) == None
  }

  lemma RegisterRefines(w: Watch, before: seq<Op>, op: Op)
    requires Refines(w, before) && op.Register?
    ensures Refines(Apply(w, op), before + [op])
  {
    var ops := before + [op];
    assert ops[..|ops| - 1] == before;
    TopAfterInsert(w.reported, Registered(before), op.height, Entry(w, op.height, Normalize(op.hash)));
  }

  lemma TipRefines(w: Watch, before: seq<Op>, tip: nat)
    requires Refines(w, before)
    ensures Refines(Apply(w, ObserveTip(tip)), before + [ObserveTip(tip)])
  {
    var ops := before + [ObserveTip(tip)];
    assert ops[..|ops| - 1] == before;
    TopAfterInsert(w.reported, Registered(before), tip, Entry(w, tip, None));
  }

  lemma BeginRefines(w: Watch, before: seq<Op>)
    requires Refines(w, before)
    ensures Refines(Apply(w, BeginSession), before + [BeginSession])
  {
    var ops := before + [BeginSession];
    assert ops[..|ops| - 1] == before;
  }

  /** After any sequence of operations the remembered heights are the 64 greatest ever registered,
      each with the last valid hash disclosed for it, and the last tip is the last one observed. */
  lemma {:induction false} MemoryIsTheGreatestHeights(ops: seq<Op>)
    ensures Refines(After(ops), ops)
  {
    if ops != [] {
      var before, op := ops[..|ops| - 1], ops[|ops| - 1];
      MemoryIsTheGreatestHeights(before);
      match op {
        case BeginSession => BeginRefines(After(before), before);
        case ObserveTip(tip) => TipRefines(After(before), before, tip);
        case Register(_, _, _) => RegisterRefines(After(before), before, op);
      }
      assert before + [op] == ops;
    }
  }

  // ---------------------------------------------------------------- what the feed announces

  ghost function Above(all: set<nat>, height: nat): set<nat> { set r | r in all && r > height }

  lemma RememberedUnlessOutgrown(top: set<nat>, all: set<nat>, height: nat)
    requires IsTop(top, all, MAX_REPORTED_TRACKED)
    ensures height in top <==> height in all && |Above(all, height)| < MAX_REPORTED_TRACKED
  {
    SubsetSize(top, all);
    if height in top {
      assert Above(all, height) <= top - {height};
      SubsetSize(Above(all, height), top - {height});
    } else if height in all {
      assert top <= Above(all, height);
      SubsetSize(top, Above(all, height));
    }
  }

  /** A feed report is announced as new exactly when its height was never registered or at least
      64 greater heights were; a backfill fetch is never announced as new. */
  lemma NewExactlyWhenUnknownOrOutgrown(ops: seq<Op>, height: nat, hash: Option<string>)
    ensures Classify(After(ops), height, Normalize(hash), true) == New <==>
              height !in Registered(ops) || |Above(Registered(ops), height)| >= MAX_REPORTED_TRACKED
    ensures Classify(After(ops), height, Normalize(hash), false) != New
  {
    MemoryIsTheGreatestHeights(ops);
    RememberedUnlessOutgrown(After(ops).reported.Keys, Registered(ops), height);
  }

  /** A reorganization is reported exactly when a remembered height discloses a valid hash other
      than the last valid one, and it names that one. */
  lemma ReorgExactlyWhenTheHashChanged(ops: seq<Op>, height: nat, hash: Option<string>, announce: bool, previous: Hash)
    ensures Classify(After(ops), height, Normalize(hash), announce) == Reorg(previous) <==>
              && height in Registered(ops) && |Above(Registered(ops), height)| < MAX_REPORTED_TRACKED
              && LastHash(ops, height) == Some(previous)
              && Normalize(hash).Some? && Normalize(hash).value != previous
  {
    MemoryIsTheGreatestHeights(ops);
    RememberedUnlessOutgrown(After(ops).reported.Keys, Registered(ops), height);
  }

  // ---------------------------------------------------------------- coverage of the chain

  ghost function Range(from: nat, to: nat): seq<nat>
    requires from <= to
  {
    seq(to - from, i requires 0 <= i < to - from => from + i)
  }

  lemma RangeConcat(a: nat, b: nat, c: nat)
    requires a <= b <= c
    ensures Range(a, b) + Range(b, c) == Range(a, c)
  {
  }

  /** The heights an advance accounts for: the omitted interval, then the reported ones. */
  ghost function Accounted(advance: TipAdvance): seq<nat> {
    match advance
    case Blocks(report, omitted, from, to) => (if from <= to + 1 then Range(from, to + 1) else []) + report
    case _ => []
  }

  /** What a tip is answered with, over every sequence of operations: the first tip of a session is its
      baseline and announces nothing, a tip no higher than the last one changes nothing, and a higher one
      announces blocks. */
  lemma AnswersFollowTheLog(ops: seq<Op>, tip: nat)
    ensures var advance := Advance(After(ops), tip);
            && (advance == Baseline(tip) <==> AwaitsBaseline(ops))
            && (advance == Unchanged <==> !AwaitsBaseline(ops) && LastTip(ops).Some? && tip <= LastTip(ops).value)
            && (advance.Blocks? <==> !AwaitsBaseline(ops) && LastTip(ops).Some? && tip > LastTip(ops).value)
  {
    MemoryIsTheGreatestHeights(ops);
  }

  /** Every advance accounts for exactly the heights between the previous tip and the new one. */
  lemma AdvanceAccountsForTheGap(w: Watch, tip: nat)
    requires !w.needsBaseline && w.lastTip.Some?
    ensures Accounted(Advance(w, tip)) == if tip > w.lastTip.value then Range(w.lastTip.value + 1, tip + 1) else []
    ensures Advance(w, tip).Blocks? ==>
              && |Advance(w, tip).report| == Min(tip - w.lastTip.value, MAX_GAP_BLOCKS)
              && Advance(w, tip).omitted == Advance(w, tip).omittedTo + 1 - Advance(w, tip).omittedFrom
  {
    if tip > w.lastTip.value {
      var count := Min(tip - w.lastTip.value, MAX_GAP_BLOCKS);
      var first := tip - count + 1;
      assert Advance(w, tip).report == Range(first, tip + 1);
      RangeConcat(w.lastTip.value + 1, first, tip + 1);
    }
  }

  /** All heights accounted for by a sequence of operations from `w` on, in order. */
  ghost function Coverage(w: Watch, ops: seq<Op>): seq<nat>
    decreases |ops|
  {
    if ops == [] then []
    else
      (if ops[0].ObserveTip? then Accounted(Advance(w, ops[0].tip)) else [])
      + Coverage(Apply(w, ops[0]), ops[1..])
  }

  ghost function ApplyAll(w: Watch, ops: seq<Op>): Watch
    decreases |ops|
  {
    if ops == [] then w else ApplyAll(Apply(w, ops[0]), ops[1..])
  }

  /** No operation starts a new session and no tip is below an earlier one. */
  ghost predicate RisingSession(last: nat, ops: seq<Op>)
    decreases |ops|
  {
    ops == [] || match ops[0]
                 case BeginSession => false
                 case ObserveTip(tip) => last <= tip && RisingSession(tip, ops[1..])
                 case Register(_, _, _) => RisingSession(last, ops[1..])
  }

  lemma NextTip(w: Watch, op: Op)
    requires !w.needsBaseline && w.lastTip.Some? && !op.BeginSession?
    ensures !Apply(w, op).needsBaseline
    ensures Apply(w, op).lastTip == if op.ObserveTip? then Some(op.tip) else w.lastTip
  {
  }

  /** In a session with non-decreasing tips the omitted intervals and the reported heights, put one
      after the other, list every height after the baseline up to the last tip exactly once. */
  lemma {:induction false} SessionPartitionsTheChain(w: Watch, ops: seq<Op>)
    requires !w.needsBaseline && w.lastTip.Some? && RisingSession(w.lastTip.value, ops)
    ensures var end := ApplyAll(w, ops).lastTip;
            end.Some? && w.lastTip.value <= end.value
            && Coverage(w, ops) == Range(w.lastTip.value + 1, end.value + 1)
    decreases |ops|
  {
    hide Apply, Advance, Accounted;
    if ops != [] {
      var next := Apply(w, ops[0]);
      NextTip(w, ops[0]);
      SessionPartitionsTheChain(next, ops[1..]);
      if ops[0].ObserveTip? {
        AdvanceAccountsForTheGap(w, ops[0].tip);
        RangeConcat(w.lastTip.value + 1, ops[0].tip + 1, ApplyAll(next, ops[1..]).lastTip.value + 1);
      }
    }
  }
}
