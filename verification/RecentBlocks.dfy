/** The bounded cache of recent confirmed blocks of src/blockflow.rs. What it holds after any
    sequence of insertions is characterized by the log of those insertions, and the rate-limited
    backfill is proved to fill the window in the order it asks for. */
module RecentBlocks {
  import opened Basics

  const RECENT_DEPTH: nat := 33
  const MAX_FETCH_PER_REFRESH: nat := 4

  datatype BlockInfo = BlockInfo(hash: Option<string>, txCount: Option<nat>, timestampMs: Option<nat>)

  type Cache = map<nat, BlockInfo>

  function WindowStart(tip: nat): nat { Monus(tip, RECENT_DEPTH - 1) }

  predicate InWindow(tip: nat, height: nat) { WindowStart(tip) <= height <= tip }

  /** The cached block at this height is contradicted: both hashes are known and differ. */
  predicate Replaced(cache: Cache, height: nat, info: BlockInfo) {
    height in cache && cache[height].hash.Some? && info.hash.Some? && cache[height].hash != info.hash
  }

  function Insert(cache: Cache, tip: nat, height: nat, info: BlockInfo): Cache {
    var kept := if Replaced(cache, height, info) then map h | h in cache && h <= height :: cache[h] else cache;
    var grown := kept[height := info];
    map h | h in grown && InWindow(tip, h) :: grown[h]
  }

  // ---------------------------------------------------------------- the log

  datatype Insertion = Insertion(tip: nat, height: nat, info: BlockInfo)

  ghost function After(log: seq<Insertion>): Cache {
    if log == [] then map[]
    else
      var last := log[|log| - 1];
      Insert(After(log[..|log| - 1]), last.tip, last.height, last.info)
  }

  /** Insertion `k` found a different block at its height: a reorganization. */
  ghost predicate Detected(log: seq<Insertion>, k: nat)
    requires k < |log|
  {
    Replaced(After(log[..k]), log[k].height, log[k].info)
  }

  /** Insertion `j` is the last one at its height, the height has stayed in every window since, and
      no replacement was detected below it since. */
  ghost predicate Survives(log: seq<Insertion>, j: nat) {
    && j < |log|
    && InWindow(log[j].tip, log[j].height)
    && forall k | j < k < |log| ::
         && log[k].height != log[j].height
         && InWindow(log[k].tip, log[j].height)
         && !(Detected(log, k) && log[k].height < log[j].height)
  }

  lemma DetectedInPrefix(log: seq<Insertion>, k: nat)
    requires k + 1 < |log|
    ensures Detected(log, k) == Detected(log[..|log| - 1], k)
  {
    assert log[..|log| - 1][..k] == log[..k];
  }

  lemma SurvivesStep(log: seq<Insertion>, j: nat)
    requires j + 1 < |log|
    ensures var n := |log| - 1;
            Survives(log, j) <==> Survives(log[..n], j) && log[n].height != log[j].height
                                  && InWindow(log[n].tip, log[j].height)
                                  && !(Detected(log, n) && log[n].height < log[j].height)
  {
    var n := |log| - 1;
    var before := log[..n];
    forall k: nat | k < n ensures Detected(log, k) == Detected(before, k) { DetectedInPrefix(log, k); }
    if Survives(before, j) && log[n].height != log[j].height && InWindow(log[n].tip, log[j].height)
       && !(Detected(log, n) && log[n].height < log[j].height) {
      forall k | j < k < |log|
        ensures log[k].height != log[j].height && InWindow(log[k].tip, log[j].height)
                && !(Detected(log, k) && log[k].height < log[j].height)
      {
        if k < n { assert before[k] == log[k]; }
      }
    }
    if Survives(log, j) {
      forall k | j < k < n
        ensures before[k].height != before[j].height && InWindow(before[k].tip, before[j].height)
                && !(Detected(before, k) && before[k].height < before[j].height)
      {
        assert before[k] == log[k];
      }
    }
  }

  ghost predicate CachesSurvivors(log: seq<Insertion>) {
    forall j | 0 <= j < |log| && Survives(log, j) ::
      log[j].height in After(log) && After(log)[log[j].height] == log[j].info
  }

  ghost predicate OnlySurvivorsCached(log: seq<Insertion>) {
    forall h | h in After(log) :: exists j :: 0 <= j < |log| && Survives(log, j) && log[j].height == h
  }

  lemma CachesSurvivorsStep(log: seq<Insertion>)
    requires log != [] && CachesSurvivors(log[..|log| - 1])
    ensures CachesSurvivors(log)
  {
    var before := log[..|log| - 1];
    forall j | 0 <= j < |log| && Survives(log, j)
      ensures log[j].height in After(log) && After(log)[log[j].height] == log[j].info
    {
      if j < |before| {
        SurvivesStep(log, j);
        assert before[j] == log[j];
      }
    }
  }

  lemma OnlySurvivorsCachedStep(log: seq<Insertion>)
    requires log != [] && OnlySurvivorsCached(log[..|log| - 1])
    ensures OnlySurvivorsCached(log)
  {
    var n := |log| - 1;
    var before := log[..n];
    forall h | h in After(log)
      ensures exists j :: 0 <= j < |log| && Survives(log, j) && log[j].height == h
    {
      if h == log[n].height {
        assert Survives(log, n);
      } else {
        assert h in After(before);
        var j :| 0 <= j < |before| && Survives(before, j) && before[j].height == h;
        SurvivesStep(log, j);
      }
    }
  }

  /** A block is cached exactly when its last insertion survives, and then the cache holds what that
      insertion brought: nothing stale is kept, and nothing else is ever evicted. */
  lemma {:induction false} CacheHoldsExactlyTheSurvivors(log: seq<Insertion>)
    ensures CachesSurvivors(log) && OnlySurvivorsCached(log)
  {
    if log != [] {
      CacheHoldsExactlyTheSurvivors(log[..|log| - 1]);
      CachesSurvivorsStep(log);
      OnlySurvivorsCachedStep(log);
    }
  }

  /** A reorganization is detected exactly when a surviving insertion disclosed another hash for the height. */
  lemma DetectedExactly(log: seq<Insertion>, k: nat)
    requires k < |log|
    ensures Detected(log, k) <==>
              exists j :: 0 <= j < k && Survives(log[..k], j) && log[j].height == log[k].height
                          && log[j].info.hash.Some? && log[k].info.hash.Some? && log[j].info.hash != log[k].info.hash
  {
    var before := log[..k];
    CacheHoldsExactlyTheSurvivors(before);
    assert forall j | 0 <= j < k :: before[j] == log[j];
    hide Survives, After;
  }

  /** Cached heights lie in the window of the latest tip, so there are at most 33 of them. */
  lemma CacheStaysInTheLatestWindow(log: seq<Insertion>)
    requires log != []
    ensures forall h | h in After(log) :: InWindow(log[|log| - 1].tip, h)
    ensures |After(log)| <= RECENT_DEPTH
  {
    BoundedSetSize(After(log).Keys, WindowStart(log[|log| - 1].tip), RECENT_DEPTH);
  }

  lemma {:induction false} BoundedSetSize(s: set<nat>, lo: nat, count: nat)
    requires forall x | x in s :: lo <= x < lo + count
    ensures |s| <= count
  {
    if count > 0 {
      var greatest := lo + count - 1;
      BoundedSetSize(s - {greatest}, lo, count - 1);
      assert s <= (s - {greatest}) + {greatest};
      assert |s - {greatest}| >= |s| - 1;
    }
  }

  // ---------------------------------------------------------------- the class

  /** Missing heights from `height` down to `start`, newest first. */
  ghost function MissingFrom(cache: Cache, height: nat, start: nat): seq<nat>
    requires start <= height
    decreases height
  {
    (if height in cache then [] else [height]) + (if height == start then [] else MissingFrom(cache, height - 1, start))
  }

  lemma MissingStep(cache: Cache, height: nat, start: nat)
    requires start <= height
    ensures var below := if height == start then [] else MissingFrom(cache, height - 1, start);
            && MissingFrom(cache, height, start) == (if height in cache then [] else [height]) + below
            && (height !in cache ==> MissingFrom(cache, height, start)[1..] == below)
  {
  }

  ghost function MissingBelow(cache: Cache, height: nat, start: nat): seq<nat>
    requires start <= height
  {
    if height == start then [] else MissingFrom(cache, height - 1, start)
  }

  /** One turn of the search for targets. */
  lemma TargetsStep(cache: Cache, targets: seq<nat>, height: nat, start: nat)
    requires start <= height
    ensures targets + MissingFrom(cache, height, start)
            == (if height in cache then targets else targets + [height]) + MissingBelow(cache, height, start)
    ensures height == start ==> MissingBelow(cache, height, start) == []
    ensures height > start ==> MissingBelow(cache, height, start) == MissingFrom(cache, height - 1, start)
  {
    var below := MissingBelow(cache, height, start);
    assert MissingFrom(cache, height, start) == (if height in cache then [] else [height]) + below;
    hide MissingFrom, MissingBelow;
    assert targets + ([height] + below) == targets + [height] + below;
    assert [] + below == below;
  }

  ghost function Missing(cache: Cache, tip: nat): seq<nat> { MissingFrom(cache, tip, WindowStart(tip)) }

  ghost function First(s: seq<nat>, n: nat): seq<nat> { if |s| <= n then s else s[..n] }

  lemma FirstOf(front: seq<nat>, rest: seq<nat>, n: nat)
    requires |front| <= n && (|front| == n || rest == [])
    ensures First(front + rest, n) == front
  {
  }

  class RecentBlocks {
    var blocks: Cache

    constructor ()
      ensures blocks == map[]
    {
      blocks := map[];
    }

    method RefreshTargets(tip: nat) returns (targets: seq<nat>)
      ensures targets == First(Missing(blocks, tip), MAX_FETCH_PER_REFRESH)
    {
      targets := [];
      var height := tip;
      ghost var start, all := WindowStart(tip), Missing(blocks, tip);
      assert all == targets + MissingFrom(blocks, tip, start);
      hide Missing, MissingFrom, First;
      while true
        invariant WindowStart(tip) <= height <= tip
        invariant |targets| < MAX_FETCH_PER_REFRESH
        invariant targets + MissingFrom(blocks, height, WindowStart(tip)) == all
        decreases height
      {
        TargetsStep(blocks, targets, height, WindowStart(tip));
        if height !in blocks {
          targets := targets + [height];
          if |targets| >= MAX_FETCH_PER_REFRESH { break; }
        }
        if height == WindowStart(tip) { break; }
        height := height - 1;
      }
      FirstOf(targets, MissingBelow(blocks, height, WindowStart(tip)), MAX_FETCH_PER_REFRESH);
    }

    method InsertBlock(tip: nat, height: nat, info: BlockInfo)
      modifies this
      ensures blocks == Insert(old(blocks), tip, height, info)
    {
      var reorged := height in blocks && blocks[height].hash.Some? && info.hash.Some? && blocks[height].hash != info.hash;
      if reorged {
        blocks := map cached | cached in blocks && cached <= height :: blocks[cached];
      }
      blocks := blocks[height := info];
      var start := WindowStart(tip);
      blocks := map cached | cached in blocks && start <= cached <= tip :: blocks[cached];
    }
  }

  lemma {:induction false} MissingMembers(cache: Cache, height: nat, start: nat)
    requires start <= height
    ensures forall h: nat :: h in MissingFrom(cache, height, start) <==> start <= h <= height && h !in cache
    decreases height
  {
    hide MissingFrom;
    var below := if height == start then [] else MissingFrom(cache, height - 1, start);
    MissingStep(cache, height, start);
    if height > start { MissingMembers(cache, height - 1, start); }
    assert forall h: nat :: h in below <==> start <= h < height && h !in cache;
  }

  lemma {:induction false} AllAreMissing(height: nat, start: nat)
    requires start <= height
    ensures |MissingFrom(map[], height, start)| == height - start + 1
    decreases height
  {
    if height > start { AllAreMissing(height - 1, start); }
  }

  ghost predicate Falls(s: seq<nat>) { forall i, j | 0 <= i < j < |s| :: s[i] > s[j] }

  lemma FallsFrom(first: nat, rest: seq<nat>)
    requires Falls(rest) && forall i | 0 <= i < |rest| :: rest[i] < first
    ensures Falls([first] + rest)
  {
    var s := [first] + rest;
    forall i, j | 0 <= i < j < |s| ensures s[i] > s[j] {
      if i > 0 { assert rest[i - 1] > rest[j - 1]; }
    }
  }

  lemma NoneFalls()
    ensures Falls([])
  {
  }

  lemma {:induction false} MissingFalls(cache: Cache, height: nat, start: nat)
    requires start <= height
    ensures Falls(MissingFrom(cache, height, start))
    decreases height
  {
    hide MissingFrom, Falls;
    var below := if height == start then [] else MissingFrom(cache, height - 1, start);
    MissingStep(cache, height, start);
    NoneFalls();
    if height > start {
      MissingFalls(cache, height - 1, start);
      MissingMembers(cache, height - 1, start);
    }
    if height in cache {
      assert MissingFrom(cache, height, start) == below;
    } else {
      forall i | 0 <= i < |below| ensures below[i] < height { assert below[i] in below; }
      FallsFrom(height, below);
    }
  }

  /** What is asked for: the missing heights are those of the window that are not cached, newest first, and the
      window is the tip and the 32 heights below it, or all there are. */
  lemma MissingExactly(cache: Cache, tip: nat)
    ensures forall h: nat :: h in Missing(cache, tip) <==> tip - RECENT_DEPTH < h <= tip && h !in cache
    ensures Falls(Missing(cache, tip))
    ensures cache == map[] ==> |Missing(cache, tip)| == Min(RECENT_DEPTH, tip + 1)
  {
    hide MissingFrom, Falls;
    MissingMembers(cache, tip, WindowStart(tip));
    AllAreMissing(tip, WindowStart(tip));
    MissingFalls(cache, tip, WindowStart(tip));
  }

  // ---------------------------------------------------------------- backfill

  lemma {:induction false} SameMembersSameMissing(a: Cache, b: Cache, height: nat, start: nat)
    requires start <= height && forall h | start <= h <= height :: h in a <==> h in b
    ensures MissingFrom(a, height, start) == MissingFrom(b, height, start)
    decreases height
  {
    if height > start { SameMembersSameMissing(a, b, height - 1, start); }
  }

  lemma {:induction false} FillingTheFirstMissing(a: Cache, b: Cache, height: nat, start: nat, filled: nat)
    requires start <= height && MissingFrom(a, height, start) != [] && MissingFrom(a, height, start)[0] == filled
    requires filled in b && forall h | start <= h <= height && h != filled :: h in a <==> h in b
    ensures MissingFrom(b, height, start) == MissingFrom(a, height, start)[1..]
    decreases height
  {
    hide MissingFrom;
    MissingStep(a, height, start);
    MissingStep(b, height, start);
    FirstMissingIsMissing(a, height, start);
    if height in a {
      if height > start {
        FirstMissingIsMissing(a, height - 1, start);
        FillingTheFirstMissing(a, b, height - 1, start, filled);
      }
    } else if height > start {
      SameMembersSameMissing(a, b, height - 1, start);
    }
  }

  lemma {:induction false} FirstMissingIsMissing(a: Cache, height: nat, start: nat)
    requires start <= height
    ensures |MissingFrom(a, height, start)| <= height - start + 1
    ensures MissingFrom(a, height, start) != [] ==>
              MissingFrom(a, height, start)[0] !in a && start <= MissingFrom(a, height, start)[0] <= height
    decreases height
  {
    if height > start { FirstMissingIsMissing(a, height - 1, start); }
  }

  ghost function InsertAll(cache: Cache, tip: nat, heights: seq<nat>, infos: seq<BlockInfo>): Cache
    requires |heights| == |infos|
    decreases |heights|
  {
    if heights == [] then cache
    else InsertAll(Insert(cache, tip, heights[0], infos[0]), tip, heights[1..], infos[1..])
  }

  /** Fetching the first `k` missing blocks, in the order they are asked for, leaves exactly the
      others missing, whatever the blocks turn out to be. */
  lemma {:induction false} BackfillFillsWhatItAsksFor(cache: Cache, tip: nat, k: nat, infos: seq<BlockInfo>)
    requires k <= |Missing(cache, tip)| && |infos| == k
    ensures Missing(InsertAll(cache, tip, Missing(cache, tip)[..k], infos), tip) == Missing(cache, tip)[k..]
    decreases k
  {
    if k > 0 {
      var missing := Missing(cache, tip);
      var next := Insert(cache, tip, missing[0], infos[0]);
      FirstMissingIsMissing(cache, tip, WindowStart(tip));
      FillingTheFirstMissing(cache, next, tip, WindowStart(tip), missing[0]);
      assert missing[..k][1..] == missing[1..][..k - 1];
      BackfillFillsWhatItAsksFor(next, tip, k - 1, infos[1..]);
    }
  }

  /** One full backfill pass at a fixed tip. */
  ghost predicate Pass(before: Cache, after: Cache, tip: nat, infos: seq<BlockInfo>) {
    var targets := First(Missing(before, tip), MAX_FETCH_PER_REFRESH);
    |infos| == |targets| && after == InsertAll(before, tip, targets, infos)
  }

  lemma PassTakesFour(before: Cache, after: Cache, tip: nat, infos: seq<BlockInfo>)
    requires Pass(before, after, tip, infos)
    ensures |Missing(after, tip)| == Monus(|Missing(before, tip)|, MAX_FETCH_PER_REFRESH)
  {
    hide MissingFrom, InsertAll;
    var missing := Missing(before, tip);
    var k := |infos|;
    assert First(missing, MAX_FETCH_PER_REFRESH) == missing[..k];
    BackfillFillsWhatItAsksFor(before, tip, k, infos);
  }

  /** Each full pass at a fixed tip takes `min(4, missing)` off the missing heights, so nine passes fill any window. */
  lemma {:induction false} NinePassesFillTheWindow(caches: seq<Cache>, tip: nat, fetched: seq<seq<BlockInfo>>, n: nat)
    requires n < |caches| <= |fetched| + 1
    requires forall i | 0 <= i < |caches| - 1 :: Pass(caches[i], caches[i + 1], tip, fetched[i])
    ensures |Missing(caches[n], tip)| == Monus(|Missing(caches[0], tip)|, n * MAX_FETCH_PER_REFRESH)
    ensures n >= 9 ==> Missing(caches[n], tip) == []
  {
    hide MissingFrom, Pass;
    FirstMissingIsMissing(caches[0], tip, WindowStart(tip));
    if n > 0 {
      NinePassesFillTheWindow(caches, tip, fetched, n - 1);
      PassTakesFour(caches[n - 1], caches[n], tip, fetched[n - 1]);
    }
  }
}
