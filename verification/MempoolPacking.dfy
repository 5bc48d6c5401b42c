/** Projected pending blocks of src/blockflow.rs: the bucket-at-a-time packer, its capped merged
    tail, and the closed-form backlog depth. The packer is proved to do exactly what placing the
    transactions one at a time does, and that in turn is proved to cut the fee-ordered transaction
    list into consecutive chunks. */
module MempoolPacking {
  import opened Basics

  const MAX_PROJECTED_BLOCKS: nat := 6
  const MAX_BACKLOG_BLOCKS: nat := 24
  const MAX_HISTOGRAM_BUCKETS: nat := 512

  datatype Bucket = Bucket(feeRate: U64, txCount: U64)

  datatype Histogram = Histogram(txCount: U64, maxBlockTxs: U64, buckets: seq<Bucket>)

  datatype ProjectedBlock = ProjectedBlock(txCount: U64, feeMin: U64, feeMax: U64)

  // ---------------------------------------------------------------- validation

  /** The checked left-to-right sum of the bucket counts. */
  function CheckedSum(buckets: seq<Bucket>): Option<U64> {
    if buckets == [] then Some(0)
    else
      var sum := CheckedSum(buckets[..|buckets| - 1]);
      var next := buckets[|buckets| - 1].txCount;
      if sum.Some? && sum.value + next <= U64_MAX then Some(sum.value + next) else None
  }

  function ParseHistogram(txCount: U64, maxBlockTxs: U64, buckets: seq<Bucket>): Option<Histogram> {
    if maxBlockTxs == 0 then None
    else if |buckets| > MAX_HISTOGRAM_BUCKETS then None
    else if exists i :: 0 <= i < |buckets| - 1 && buckets[i].feeRate < buckets[i + 1].feeRate then None
    else
      var sum := CheckedSum(buckets);
      if sum != Some(txCount) then None else Some(Histogram(txCount, maxBlockTxs, buckets))
  }

  ghost function Total(buckets: seq<Bucket>): nat {
    if buckets == [] then 0 else Total(buckets[..|buckets| - 1]) + buckets[|buckets| - 1].txCount
  }

  /** What everything downstream relies on, without reference to how it is checked. */
  ghost predicate Valid(h: Histogram) {
    && h.maxBlockTxs > 0
    && |h.buckets| <= MAX_HISTOGRAM_BUCKETS
    && (forall i, j | 0 <= i < j < |h.buckets| :: h.buckets[i].feeRate >= h.buckets[j].feeRate)
    && Total(h.buckets) == h.txCount
  }

  lemma {:induction false} CheckedSumIsTotal(buckets: seq<Bucket>)
    ensures CheckedSum(buckets) == if Total(buckets) <= U64_MAX then Some(Total(buckets)) else None
  {
    if buckets != [] { CheckedSumIsTotal(buckets[..|buckets| - 1]); }
  }

  lemma {:induction false} AdjacentOrderIsOrder(buckets: seq<Bucket>, i: nat, j: nat)
    requires forall k | 0 <= k < |buckets| - 1 :: buckets[k].feeRate >= buckets[k + 1].feeRate
    requires i < j < |buckets|
    ensures buckets[i].feeRate >= buckets[j].feeRate
    decreases j - i
  {
    if i + 1 < j { AdjacentOrderIsOrder(buckets, i + 1, j); }
  }

  /** A reply is accepted exactly when it is valid, and then it is kept unchanged. */
  lemma ParseAcceptsExactlyTheValid(txCount: U64, maxBlockTxs: U64, buckets: seq<Bucket>)
    ensures var h := Histogram(txCount, maxBlockTxs, buckets);
            ParseHistogram(txCount, maxBlockTxs, buckets) == if Valid(h) then Some(h) else None
  {
    CheckedSumIsTotal(buckets);
    if forall k | 0 <= k < |buckets| - 1 :: buckets[k].feeRate >= buckets[k + 1].feeRate {
      forall i, j | 0 <= i < j < |buckets| ensures buckets[i].feeRate >= buckets[j].feeRate {
        AdjacentOrderIsOrder(buckets, i, j);
      }
    }
  }

  // ---------------------------------------------------------------- one transaction at a time

  /** The pending transactions, one fee each, in admission order. */
  ghost function Expand(buckets: seq<Bucket>): seq<U64> {
    if buckets == [] then []
    else
      var last := buckets[|buckets| - 1];
      Expand(buckets[..|buckets| - 1]) + Repeat(last.feeRate, last.txCount)
  }

  ghost function Repeat(fee: U64, count: nat): (s: seq<U64>)
    ensures |s| == count && forall i | 0 <= i < count :: s[i] == fee
  {
    seq(count, _ => fee)
  }

  datatype Packing = Packing(blocks: seq<ProjectedBlock>, room: nat)

  function SaturatingAdd(a: U64, b: U64): U64 { Min(a + b, U64_MAX) }

  /** Room is left only in the last block, and is exactly what that block lacks. */
  predicate PackingOk(p: Packing, size: U64) {
    && p.room <= size
    && (p.room > 0 ==> p.blocks != [] && p.blocks[|p.blocks| - 1].txCount + p.room == size)
  }

  function OpenBlock(p: Packing, fee: U64, size: U64): (q: Packing)
    ensures PackingOk(q, size)
  {
    Packing(p.blocks + [ProjectedBlock(0, fee, fee)], size)
  }

  /** The plain, unsaturated addition to the open block: it cannot overflow. */
  function Fill(p: Packing, take: nat, fee: U64, size: U64): (q: Packing)
    requires PackingOk(p, size) && 0 < take <= p.room
    ensures PackingOk(q, size)
  {
    var last := p.blocks[|p.blocks| - 1];
    Packing(p.blocks[|p.blocks| - 1 := ProjectedBlock(last.txCount + take, Min(last.feeMin, fee), Max(last.feeMax, fee))],
            p.room - take)
  }

  /** The saturating addition to the last block of a capped packing. */
  function Merge(p: Packing, take: U64, fee: U64, size: U64): (q: Packing)
    requires p.blocks != []
    ensures PackingOk(q, size)
  {
    var last := p.blocks[|p.blocks| - 1];
    Packing(p.blocks[|p.blocks| - 1 := ProjectedBlock(SaturatingAdd(last.txCount, take), Min(last.feeMin, fee),
                                                      Max(last.feeMax, fee))], 0)
  }

  ghost function AddTx(p: Packing, fee: U64, size: U64, cap: nat): (q: Packing)
    requires size > 0 && PackingOk(p, size)
    ensures PackingOk(q, size)
  {
    if p.room > 0 then Fill(p, 1, fee, size)
    else if |p.blocks| > cap then Merge(p, 1, fee, size)
    else Fill(OpenBlock(p, fee, size), 1, fee, size)
  }

  ghost function PackAll(fees: seq<U64>, size: U64, cap: nat): (p: Packing)
    requires size > 0
    ensures PackingOk(p, size)
  {
    if fees == [] then Packing([], 0)
    else AddTx(PackAll(fees[..|fees| - 1], size, cap), fees[|fees| - 1], size, cap)
  }

  /** The projected blocks: the one-at-a-time packing without the forming block. */
  ghost function Pending(h: Histogram, cap: nat): seq<ProjectedBlock> {
    if h.maxBlockTxs == 0 || h.txCount == 0 then []
    else
      var blocks := PackAll(Expand(h.buckets), h.maxBlockTxs, cap).blocks;
      if |blocks| <= 1 then [] else blocks[1..]
  }

  // ---------------------------------------------------------------- the bucket-wise packer

  /** The packing of `placed` followed by `count` more transactions at one fee. */
  ghost function PackedWith(placed: seq<U64>, fee: U64, count: nat, size: U64, cap: nat): (p: Packing)
    requires size > 0
    ensures PackingOk(p, size)
  {
    PackAll(placed + Repeat(fee, count), size, cap)
  }

  lemma PackedWithNone(placed: seq<U64>, fee: U64, size: U64, cap: nat)
    requires size > 0
    ensures PackedWith(placed, fee, 0, size, cap) == PackAll(placed, size, cap)
  {
    assert placed + Repeat(fee, 0) == placed;
  }

  lemma PackedWithOneMore(placed: seq<U64>, fee: U64, count: nat, size: U64, cap: nat)
    requires size > 0
    ensures PackedWith(placed, fee, count + 1, size, cap) == AddTx(PackedWith(placed, fee, count, size, cap), fee, size, cap)
  {
    var more := placed + Repeat(fee, count + 1);
    assert more[..|more| - 1] == placed + Repeat(fee, count);
  }

  lemma FillTwice(p: Packing, a: nat, b: nat, fee: U64, size: U64)
    requires PackingOk(p, size) && 0 < a && 0 < b && a + b <= p.room
    ensures Fill(Fill(p, a, fee, size), b, fee, size) == Fill(p, a + b, fee, size)
  {
  }

  lemma MergeTwice(p: Packing, a: U64, b: U64, fee: U64, size: U64)
    requires p.blocks != [] && a + b <= U64_MAX
    ensures Merge(Merge(p, a, fee, size), b, fee, size) == Merge(p, a + b, fee, size)
  {
  }

  /** Placing `take` equal fees where the open block has room for them. */
  lemma {:induction false} TakeIntoRoom(p: Packing, placed: seq<U64>, fee: U64, done: nat, take: nat, size: U64, cap: nat)
    requires size > 0 && p == PackedWith(placed, fee, done, size, cap) && 0 < take <= p.room
    ensures PackedWith(placed, fee, done + take, size, cap) == Fill(p, take, fee, size)
    decreases take
  {
    PackedWithOneMore(placed, fee, done, size, cap);
    if take > 1 {
      TakeIntoRoom(Fill(p, 1, fee, size), placed, fee, done + 1, take - 1, size, cap);
      FillTwice(p, 1, take - 1, fee, size);
    }
  }

  /** Placing equal fees once the packing is full and capped: all of them merge into the tail. */
  lemma {:induction false} TakeIntoTail(p: Packing, placed: seq<U64>, fee: U64, done: nat, take: U64, size: U64, cap: nat)
    requires size > 0 && p == PackedWith(placed, fee, done, size, cap)
    requires 0 < take && p.room == 0 && |p.blocks| > cap
    ensures PackedWith(placed, fee, done + take, size, cap) == Merge(p, take, fee, size)
    decreases take
  {
    PackedWithOneMore(placed, fee, done, size, cap);
    if take > 1 {
      TakeIntoTail(Merge(p, 1, fee, size), placed, fee, done + 1, take - 1, size, cap);
      MergeTwice(p, 1, take - 1, fee, size);
    }
  }

  /** Opening a block and placing up to a whole block of equal fees into it. */
  lemma TakeIntoNewBlock(p: Packing, placed: seq<U64>, fee: U64, done: nat, take: nat, size: U64, cap: nat)
    requires 0 < take <= size && p == PackedWith(placed, fee, done, size, cap)
    requires p.room == 0 && |p.blocks| <= cap
    ensures PackedWith(placed, fee, done + take, size, cap) == Fill(OpenBlock(p, fee, size), take, fee, size)
  {
    PackedWithOneMore(placed, fee, done, size, cap);
    if take > 1 {
      TakeIntoRoom(Fill(OpenBlock(p, fee, size), 1, fee, size), placed, fee, done + 1, take - 1, size, cap);
      FillTwice(OpenBlock(p, fee, size), 1, take - 1, fee, size);
    }
  }

  /** How many of a bucket's remaining transactions the next turn of the packer's loop takes. */
  function TakeCount(p: Packing, remaining: U64, size: U64, cap: nat): (take: U64)
    requires size > 0 && remaining > 0 && PackingOk(p, size)
    ensures 0 < take <= remaining
  {
    if p.room > 0 then Min(remaining, p.room) else if |p.blocks| > cap then remaining else Min(remaining, size)
  }

  /** One turn of the packer's loop: merge into the capped tail, or fill the open block, opening one first if needed. */
  function PlaceSome(p: Packing, remaining: U64, fee: U64, size: U64, cap: nat): Packing
    requires size > 0 && remaining > 0 && PackingOk(p, size)
  {
    var take := TakeCount(p, remaining, size, cap);
    if p.room > 0 then Fill(p, take, fee, size)
    else if |p.blocks| > cap then Merge(p, take, fee, size)
    else Fill(OpenBlock(p, fee, size), take, fee, size)
  }

  lemma PlaceSomePacks(p: Packing, placed: seq<U64>, fee: U64, done: nat, remaining: U64, size: U64, cap: nat)
    requires size > 0 && remaining > 0 && p == PackedWith(placed, fee, done, size, cap)
    ensures PackedWith(placed, fee, done + TakeCount(p, remaining, size, cap), size, cap)
            == PlaceSome(p, remaining, fee, size, cap)
  {
    var take := TakeCount(p, remaining, size, cap);
    if p.room > 0 {
      TakeIntoRoom(p, placed, fee, done, take, size, cap);
    } else if |p.blocks| > cap {
      TakeIntoTail(p, placed, fee, done, take, size, cap);
    } else {
      TakeIntoNewBlock(p, placed, fee, done, take, size, cap);
    }
  }

  /** The inner loop: one bucket into the packing so far. */
  method PlaceBucket(start: Packing, bucket: Bucket, size: U64, cap: nat, ghost placed: seq<U64>)
    returns (p: Packing)
    requires size > 0 && start == PackAll(placed, size, cap)
    ensures p == PackedWith(placed, bucket.feeRate, bucket.txCount, size, cap)
  {
    var remaining: U64 := bucket.txCount;
    p := start;
    PackedWithNone(placed, bucket.feeRate, size, cap);
    while remaining > 0
      invariant 0 <= remaining <= bucket.txCount
      invariant p == PackedWith(placed, bucket.feeRate, bucket.txCount - remaining, size, cap)
    {
      PlaceSomePacks(p, placed, bucket.feeRate, bucket.txCount - remaining, remaining, size, cap);
      var take := TakeCount(p, remaining, size, cap);
      p := PlaceSome(p, remaining, bucket.feeRate, size, cap);
      remaining := remaining - take;
    }
  }

  method PackedPendingBlocks(h: Histogram, cap: nat) returns (pending: seq<ProjectedBlock>)
    ensures pending == Pending(h, cap)
  {
    if h.maxBlockTxs == 0 || h.txCount == 0 {
      return [];
    }
    var p := Packing([], 0);
    for i := 0 to |h.buckets|
      invariant p == PackAll(Expand(h.buckets[..i]), h.maxBlockTxs, cap)
    {
      p := PlaceBucket(p, h.buckets[i], h.maxBlockTxs, cap, Expand(h.buckets[..i]));
      assert h.buckets[..i + 1][..i] == h.buckets[..i];
    }
    assert h.buckets[..|h.buckets|] == h.buckets;
    pending := if |p.blocks| <= 1 then [] else p.blocks[1..];
  }

  // ---------------------------------------------------------------- chunks of the transaction list

  /** Where block `b` of the packing ends in a list of `n` transactions: block `cap` takes the rest. */
  ghost function ChunkEnd(n: nat, size: U64, cap: nat, b: nat): (end: nat)
    ensures end <= n
  {
    if b >= cap then n else Min((b + 1) * size, n)
  }

  ghost function Chunk(fees: seq<U64>, size: U64, cap: nat, b: nat): (chunk: seq<U64>)
    requires b * size <= |fees|
  {
    assert (b + 1) * size == b * size + size;
    fees[b * size..ChunkEnd(|fees|, size, cap, b)]
  }

  /** Exact count, lowest and highest fee of a group of transactions. */
  ghost predicate Summarizes(block: ProjectedBlock, fees: seq<U64>) {
    && block.txCount == |fees|
    && block.feeMin in fees && (forall f | f in fees :: block.feeMin <= f)
    && block.feeMax in fees && (forall f | f in fees :: f <= block.feeMax)
  }

  lemma ScaleMonotone(a: nat, b: nat, size: nat)
    requires a <= b
    ensures a * size <= b * size
  {
  }

  /** How many blocks `n` transactions need, without division. */
  ghost predicate BlockCount(m: nat, n: nat, size: U64, cap: nat) {
    && m <= cap + 1
    && (n == 0 <==> m == 0)
    && (m > 0 ==> (m - 1) * size < n)
    && (n <= m * size || m == cap + 1)
  }

  ghost predicate Chunked(p: Packing, fees: seq<U64>, size: U64, cap: nat) {
    && BlockCount(|p.blocks|, |fees|, size, cap)
    && p.room == Monus(|p.blocks| * size, |fees|)
    && forall b: nat | b < |p.blocks| :: b * size < |fees| && Summarizes(p.blocks[b], Chunk(fees, size, cap, b))
  }

  lemma SummarizesSnoc(block: ProjectedBlock, fees: seq<U64>, fee: U64)
    requires Summarizes(block, fees) && |fees| + 1 <= U64_MAX
    ensures Summarizes(ProjectedBlock(block.txCount + 1, Min(block.feeMin, fee), Max(block.feeMax, fee)), fees + [fee])
  {
  }

  /** Blocks before the last are not affected by one more transaction. */
  lemma EarlierChunksStay(fees: seq<U64>, fee: U64, size: U64, cap: nat, m: nat, b: nat)
    requires size > 0 && BlockCount(m, |fees|, size, cap)
    requires b < m && (b < m - 1 || (|fees| == m * size && m <= cap))
    ensures b * size < |fees|
    ensures Chunk(fees + [fee], size, cap, b) == Chunk(fees, size, cap, b)
  {
    ScaleMonotone(b, m - 1, size);
    assert (b + 1) * size == b * size + size && m * size == (m - 1) * size + size;
    if b < m - 1 { ScaleMonotone(b + 1, m - 1, size); }
  }

  lemma LastChunkGrows(fees: seq<U64>, fee: U64, size: U64, cap: nat, m: nat)
    requires size > 0 && BlockCount(m, |fees|, size, cap) && m > 0
    requires |fees| < m * size || m == cap + 1
    ensures (m - 1) * size < |fees|
    ensures Chunk(fees + [fee], size, cap, m - 1) == Chunk(fees, size, cap, m - 1) + [fee]
  {
    assert m * size == (m - 1) * size + size;
  }

  /** The number of blocks and the room after one more transaction. */
  lemma BlockCountSnoc(p: Packing, fee: U64, size: U64, cap: nat, n: nat)
    requires size > 0 && PackingOk(p, size)
    requires BlockCount(|p.blocks|, n, size, cap) && p.room == Monus(|p.blocks| * size, n)
    ensures var q := AddTx(p, fee, size, cap);
            BlockCount(|q.blocks|, n + 1, size, cap) && q.room == Monus(|q.blocks| * size, n + 1)
  {
    assert (|p.blocks| + 1) * size == |p.blocks| * size + size;
  }

  /** Each block still summarizes its chunk after one more transaction `all[|fees|]`. */
  lemma NewBlockSummarizes(p: Packing, q: Packing, fees: seq<U64>, all: seq<U64>, size: U64, cap: nat)
    requires size > 0 && |fees| < U64_MAX && PackingOk(p, size) && BlockCount(|p.blocks|, |fees|, size, cap)
    requires p.room == Monus(|p.blocks| * size, |fees|)
    requires all != [] && fees == all[..|all| - 1] && q == AddTx(p, all[|all| - 1], size, cap)
    requires |q.blocks| == |p.blocks| + 1
    ensures |p.blocks| * size == |fees|
    ensures Summarizes(q.blocks[|p.blocks|], Chunk(all, size, cap, |p.blocks|))
  {
    var m := |p.blocks|;
    assert (m + 1) * size == m * size + size;
    assert p.room == 0 && m <= cap;
    assert m * size == |fees|;
    assert ChunkEnd(|all|, size, cap, m) == |all|;
    assert Chunk(all, size, cap, m) == all[|fees|..|all|] == [all[|all| - 1]];
  }

  lemma EarlierBlockSummarizes(p: Packing, q: Packing, fees: seq<U64>, all: seq<U64>, size: U64, cap: nat, b: nat)
    requires size > 0 && PackingOk(p, size) && Chunked(p, fees, size, cap)
    requires all != [] && fees == all[..|all| - 1] && q == AddTx(p, all[|all| - 1], size, cap)
    requires b < |p.blocks| && (b < |p.blocks| - 1 || |q.blocks| > |p.blocks|)
    ensures b * size < |fees|
    ensures Summarizes(q.blocks[b], Chunk(all, size, cap, b))
  {
    assert all == fees + [all[|all| - 1]];
    EarlierChunksStay(fees, all[|all| - 1], size, cap, |p.blocks|, b);
    assert q.blocks[b] == p.blocks[b];
  }

  lemma LastBlockSummarizes(p: Packing, q: Packing, fees: seq<U64>, all: seq<U64>, size: U64, cap: nat)
    requires size > 0 && |fees| < U64_MAX && PackingOk(p, size) && Chunked(p, fees, size, cap)
    requires all != [] && fees == all[..|all| - 1] && q == AddTx(p, all[|all| - 1], size, cap)
    requires |q.blocks| == |p.blocks| > 0
    ensures (|p.blocks| - 1) * size < |fees|
    ensures Summarizes(q.blocks[|p.blocks| - 1], Chunk(all, size, cap, |p.blocks| - 1))
  {
    var last, fee := p.blocks[|p.blocks| - 1], all[|all| - 1];
    assert all == fees + [fee];
    LastChunkGrows(fees, fee, size, cap, |p.blocks|);
    SummarizesSnoc(last, Chunk(fees, size, cap, |p.blocks| - 1), fee);
    assert q.blocks[|p.blocks| - 1] == ProjectedBlock(last.txCount + 1, Min(last.feeMin, fee), Max(last.feeMax, fee));
  }

  lemma EveryBlockSummarizes(p: Packing, q: Packing, fees: seq<U64>, all: seq<U64>, size: U64, cap: nat, b: nat)
    requires size > 0 && |fees| < U64_MAX && PackingOk(p, size) && Chunked(p, fees, size, cap)
    requires all != [] && fees == all[..|all| - 1] && q == AddTx(p, all[|all| - 1], size, cap)
    requires b < |q.blocks|
    ensures b * size < |all| && Summarizes(q.blocks[b], Chunk(all, size, cap, b))
  {
    if b == |p.blocks| {
      NewBlockSummarizes(p, q, fees, all, size, cap);
    } else if b < |p.blocks| - 1 || |q.blocks| > |p.blocks| {
      EarlierBlockSummarizes(p, q, fees, all, size, cap, b);
    } else {
      LastBlockSummarizes(p, q, fees, all, size, cap);
    }
  }

  lemma {:induction false} PackingIsChunked(fees: seq<U64>, size: U64, cap: nat)
    requires size > 0 && |fees| <= U64_MAX
    ensures Chunked(PackAll(fees, size, cap), fees, size, cap)
  {
    if fees != [] {
      var front := fees[..|fees| - 1];
      var p, q := PackAll(front, size, cap), PackAll(fees, size, cap);
      PackingIsChunked(front, size, cap);
      BlockCountSnoc(p, fees[|fees| - 1], size, cap, |front|);
      forall b: nat | b < |q.blocks|
        ensures b * size < |fees| && Summarizes(q.blocks[b], Chunk(fees, size, cap, b))
      {
        EveryBlockSummarizes(p, q, front, fees, size, cap, b);
      }
    }
  }

  // ---------------------------------------------------------------- the closed-form depth

  function CeilDiv(a: nat, b: nat): nat
    requires b > 0
  {
    (a + b - 1) / b
  }

  /** Full-capacity blocks occupied by what does not fit the forming block. */
  function BacklogDepth(h: Histogram): nat {
    if h.maxBlockTxs == 0 then 0 else CeilDiv(Monus(h.txCount, h.maxBlockTxs), h.maxBlockTxs)
  }

  lemma CeilDivCharacterized(a: nat, b: nat, q: nat)
    requires b > 0
    ensures q == CeilDiv(a, b) <==> a <= q * b && (q > 0 ==> (q - 1) * b < a)
  {
    var c := CeilDiv(a, b);
    var r := (a + b - 1) % b;
    assert c * b + r == a + b - 1;
    assert (c - 1) * b == c * b - b;
    if c < q { ScaleMonotone(c, q - 1, b); }
    if q < c { ScaleMonotone(q, c - 1, b); }
  }

  ghost function TxSum(blocks: seq<ProjectedBlock>): nat {
    if blocks == [] then 0 else TxSum(blocks[..|blocks| - 1]) + blocks[|blocks| - 1].txCount
  }

  lemma {:induction false} ExpandLength(buckets: seq<Bucket>)
    ensures |Expand(buckets)| == Total(buckets)
  {
    if buckets != [] { ExpandLength(buckets[..|buckets| - 1]); }
  }

  /** The fee list of a valid histogram is in admission order, highest fee first. */
  lemma {:induction false} ExpandOrdered(buckets: seq<Bucket>)
    requires forall i, j | 0 <= i < j < |buckets| :: buckets[i].feeRate >= buckets[j].feeRate
    ensures forall f | f in Expand(buckets) :: exists i :: 0 <= i < |buckets| && buckets[i].feeRate == f
    ensures forall i, j | 0 <= i <= j < |Expand(buckets)| :: Expand(buckets)[i] >= Expand(buckets)[j]
  {
    if buckets != [] {
      var front, last := buckets[..|buckets| - 1], buckets[|buckets| - 1];
      ExpandOrdered(front);
      forall f | f in Expand(buckets) ensures exists i :: 0 <= i < |buckets| && buckets[i].feeRate == f {
        if f in Expand(front) {
          var i :| 0 <= i < |front| && front[i].feeRate == f;
          assert buckets[i].feeRate == f;
        }
      }
      forall i, j | 0 <= i <= j < |Expand(buckets)| ensures Expand(buckets)[i] >= Expand(buckets)[j] {
        if i < |Expand(front)| <= j {
          assert Expand(front)[i] in Expand(front);
        }
      }
    }
  }

  /** Dropping the forming block leaves `min(cap, depth)` blocks. */
  lemma PendingCount(m: nat, n: nat, size: U64, cap: nat)
    requires size > 0 && BlockCount(m, n, size, cap)
    ensures Monus(m, 1) == Min(cap, CeilDiv(Monus(n, size), size))
  {
    var depth := CeilDiv(Monus(n, size), size);
    CeilDivCharacterized(Monus(n, size), size, depth);
    CeilDivCharacterized(Monus(n, size), size, Monus(m, 1));
    assert m * size == (m - 1) * size + size;
    assert (m - 1) * size == (m - 2) * size + size;
    if m == cap + 1 && depth < cap { ScaleMonotone(depth, cap - 1, size); }
  }

  // ---------------------------------------------------------------- main results

  /** For every valid histogram and cap there are `min(cap, depth)` projected blocks, and block `k`
      carries the exact count and fee range of chunk `k + 1` of the fee-ordered transaction list,
      the last of them taking everything past the cap. */
  lemma PendingBlocksAreChunks(h: Histogram, cap: nat)
    requires Valid(h)
    ensures |Pending(h, cap)| == Min(cap, BacklogDepth(h))
    ensures |Expand(h.buckets)| == h.txCount
    ensures forall k: nat | k < |Pending(h, cap)| ::
              && (k + 1) * h.maxBlockTxs < h.txCount
              && Summarizes(Pending(h, cap)[k], Chunk(Expand(h.buckets), h.maxBlockTxs, cap, k + 1))
  {
    var fees, size := Expand(h.buckets), h.maxBlockTxs;
    ExpandLength(h.buckets);
    PackingIsChunked(fees, size, cap);
    var blocks := PackAll(fees, size, cap).blocks;
    PendingCount(|blocks|, |fees|, size, cap);
    forall k: nat | k < |Pending(h, cap)|
      ensures (k + 1) * size < |fees| && Summarizes(Pending(h, cap)[k], Chunk(fees, size, cap, k + 1))
    {
      assert Pending(h, cap)[k] == blocks[k + 1];
    }
  }

  /** In admission order a block's fee range is its first and its last transaction's fee, so no
      later block pays more than an earlier one. */
  lemma FeeRangesFollowAdmissionOrder(h: Histogram, cap: nat, k: nat)
    requires Valid(h) && k < |Pending(h, cap)|
    ensures (k + 1) * h.maxBlockTxs < |Expand(h.buckets)|
    ensures var chunk := Chunk(Expand(h.buckets), h.maxBlockTxs, cap, k + 1);
            && chunk != []
            && Pending(h, cap)[k].feeMax == chunk[0] && Pending(h, cap)[k].feeMin == chunk[|chunk| - 1]
    ensures k + 1 < |Pending(h, cap)| ==> Pending(h, cap)[k].feeMin >= Pending(h, cap)[k + 1].feeMax
  {
    PendingBlocksAreChunks(h, cap);
    ExpandOrdered(h.buckets);
    RangeOfOrderedChunk(h, cap, k);
    if k + 1 < |Pending(h, cap)| {
      RangeOfOrderedChunk(h, cap, k + 1);
      assert (k + 2) * h.maxBlockTxs == (k + 1) * h.maxBlockTxs + h.maxBlockTxs;
    }
  }

  lemma RangeOfOrderedChunk(h: Histogram, cap: nat, k: nat)
    requires Valid(h) && k < |Pending(h, cap)|
    requires forall i, j | 0 <= i <= j < |Expand(h.buckets)| :: Expand(h.buckets)[i] >= Expand(h.buckets)[j]
    ensures (k + 1) * h.maxBlockTxs < |Expand(h.buckets)|
    ensures var chunk := Chunk(Expand(h.buckets), h.maxBlockTxs, cap, k + 1);
            && chunk != []
            && Pending(h, cap)[k].feeMax == chunk[0] && Pending(h, cap)[k].feeMin == chunk[|chunk| - 1]
  {
    PendingBlocksAreChunks(h, cap);
    var block, chunk := Pending(h, cap)[k], Chunk(Expand(h.buckets), h.maxBlockTxs, cap, k + 1);
    assert Summarizes(block, chunk);
    assert chunk[0] in chunk && chunk[|chunk| - 1] in chunk;
  }

  /** The last projected block reaches the end of the list. */
  lemma LastChunkReachesEnd(n: nat, size: U64, cap: nat, len: nat)
    requires size > 0 && len == Min(cap, CeilDiv(Monus(n, size), size))
    requires size < n
    ensures ChunkEnd(n, size, cap, len) == n
  {
    CeilDivCharacterized(n - size, size, CeilDiv(n - size, size));
    assert (len + 1) * size == len * size + size;
  }

  ghost function FirstCount(n: nat, size: U64, cap: nat, j: nat): int {
    ChunkEnd(n, size, cap, j) - size
  }

  lemma {:induction false} SumOfFirst(h: Histogram, cap: nat, j: nat)
    requires Valid(h) && 0 < cap && j <= |Pending(h, cap)| && h.txCount > h.maxBlockTxs
    ensures TxSum(Pending(h, cap)[..j]) == FirstCount(h.txCount, h.maxBlockTxs, cap, j)
  {
    if j > 0 {
      SumOfFirst(h, cap, j - 1);
      assert Pending(h, cap)[..j][..j - 1] == Pending(h, cap)[..j - 1];
      PendingBlockCount(h, cap, j - 1);
    }
  }

  lemma PendingBlockCount(h: Histogram, cap: nat, k: nat)
    requires Valid(h) && k < |Pending(h, cap)|
    ensures (k + 1) * h.maxBlockTxs < h.txCount
    ensures Pending(h, cap)[k].txCount == ChunkEnd(h.txCount, h.maxBlockTxs, cap, k + 1) - (k + 1) * h.maxBlockTxs
    ensures (k + 1) * h.maxBlockTxs == ChunkEnd(h.txCount, h.maxBlockTxs, cap, k)
  {
    PendingBlocksAreChunks(h, cap);
    assert Summarizes(Pending(h, cap)[k], Chunk(Expand(h.buckets), h.maxBlockTxs, cap, k + 1));
  }

  /** No pending transaction is lost, counted twice or swallowed by saturation. */
  lemma PendingCountsAreExact(h: Histogram, cap: nat)
    requires Valid(h)
    ensures TxSum(Pending(h, cap)) == if cap == 0 then 0 else Monus(h.txCount, h.maxBlockTxs)
  {
    PendingBlocksAreChunks(h, cap);
    var len := |Pending(h, cap)|;
    if cap > 0 {
      if h.txCount > h.maxBlockTxs {
        SumOfFirst(h, cap, len);
        LastChunkReachesEnd(h.txCount, h.maxBlockTxs, cap, len);
        assert Pending(h, cap)[..len] == Pending(h, cap);
      } else {
        CeilDivCharacterized(0, h.maxBlockTxs, 0);
      }
    }
  }

  lemma TailArithmetic(n: nat, size: U64, len: nat, depth: nat, count: nat)
    requires size > 0 && 0 < len <= depth && size < n
    requires depth == CeilDiv(n - size, size) && count == n - len * size
    ensures depth > len <==> count > size
    ensures depth - (len - 1) == CeilDiv(count, size)
  {
    CeilDivCharacterized(n - size, size, depth);
    assert (depth - (len - 1)) * size == depth * size - len * size + size;
    assert (depth - (len - 1) - 1) * size == (depth - 1) * size - len * size + size;
    CeilDivCharacterized(count, size, depth - (len - 1));
    if depth > len { ScaleMonotone(len, depth - 1, size); }
  }

  /** The chart's two signals of a merged tail always agree, and the number of blocks it is labelled
      with is the last block's own count in units of the capacity, rounded up. */
  lemma MergedTailSignalsAgree(h: Histogram, cap: nat)
    requires Valid(h) && Pending(h, cap) != []
    ensures var blocks := Pending(h, cap);
            var last := blocks[|blocks| - 1];
            && (BacklogDepth(h) > |blocks| <==> last.txCount > h.maxBlockTxs)
            && Monus(BacklogDepth(h), |blocks| - 1) == CeilDiv(last.txCount, h.maxBlockTxs)
  {
    PendingBlocksAreChunks(h, cap);
    var len := |Pending(h, cap)|;
    PendingBlockCount(h, cap, len - 1);
    ScaleMonotone(1, len, h.maxBlockTxs);
    LastChunkReachesEnd(h.txCount, h.maxBlockTxs, cap, len);
    TailArithmetic(h.txCount, h.maxBlockTxs, len, BacklogDepth(h), Pending(h, cap)[len - 1].txCount);
  }

  /** The telemetry's backlog member: the exact depth and the blocks under the backlog cap. */
  method BacklogBlocks(h: Histogram) returns (depth: nat, blocks: seq<ProjectedBlock>)
    requires Valid(h)
    ensures blocks == Pending(h, MAX_BACKLOG_BLOCKS) && depth == BacklogDepth(h)
    ensures |blocks| == Min(MAX_BACKLOG_BLOCKS, depth)
    ensures TxSum(blocks) == Monus(h.txCount, h.maxBlockTxs)
  {
    depth := BacklogDepth(h);
    blocks := PackedPendingBlocks(h, MAX_BACKLOG_BLOCKS);
    PendingBlocksAreChunks(h, MAX_BACKLOG_BLOCKS);
    PendingCountsAreExact(h, MAX_BACKLOG_BLOCKS);
  }

  /** The narrow strip: the same packing under its own cap. */
  method ProjectedBlocks(h: Histogram) returns (blocks: seq<ProjectedBlock>)
    requires Valid(h)
    ensures blocks == Pending(h, MAX_PROJECTED_BLOCKS)
    ensures |blocks| == Min(MAX_PROJECTED_BLOCKS, BacklogDepth(h))
    ensures TxSum(blocks) == Monus(h.txCount, h.maxBlockTxs)
  {
    blocks := PackedPendingBlocks(h, MAX_PROJECTED_BLOCKS);
    PendingBlocksAreChunks(h, MAX_PROJECTED_BLOCKS);
    PendingCountsAreExact(h, MAX_PROJECTED_BLOCKS);
  }

  lemma SummaryIsUnique(a: ProjectedBlock, b: ProjectedBlock, fees: seq<U64>)
    requires Summarizes(a, fees) && Summarizes(b, fees)
    ensures a == b
  {
  }

  /** Two displays of one histogram under different caps agree on every block that neither merges: only
      the last block of the narrower one can differ. */
  lemma CapsAgreeBeforeTheTail(h: Histogram, narrow: nat, wide: nat, k: nat)
    requires Valid(h) && narrow <= wide && k < |Pending(h, narrow)| && k + 1 < narrow
    ensures k < |Pending(h, wide)| && Pending(h, narrow)[k] == Pending(h, wide)[k]
  {
    hide *;
    BlockSummarizes(h, narrow, k);
    BlockSummarizes(h, wide, k);
    ChunkIgnoresCap(Expand(h.buckets), h.maxBlockTxs, narrow, wide, k + 1);
    SummaryIsUnique(Pending(h, narrow)[k], Pending(h, wide)[k], Chunk(Expand(h.buckets), h.maxBlockTxs, narrow, k + 1));
  }

  lemma BlockSummarizes(h: Histogram, cap: nat, k: nat)
    requires Valid(h)
    ensures |Pending(h, cap)| == Min(cap, BacklogDepth(h))
    ensures k < Min(cap, BacklogDepth(h)) ==>
              && (k + 1) * h.maxBlockTxs <= |Expand(h.buckets)|
              && Summarizes(Pending(h, cap)[k], Chunk(Expand(h.buckets), h.maxBlockTxs, cap, k + 1))
  {
    hide *;
    PendingBlocksAreChunks(h, cap);
    if k < Min(cap, BacklogDepth(h)) {
      var block := Pending(h, cap)[k];
      assert (k + 1) * h.maxBlockTxs < h.txCount;
    }
  }

  lemma ChunkIgnoresCap(fees: seq<U64>, size: U64, narrow: nat, wide: nat, b: nat)
    requires b * size <= |fees| && b < narrow <= wide
    ensures Chunk(fees, size, narrow, b) == Chunk(fees, size, wide, b)
  {
  }
}
