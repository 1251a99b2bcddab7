/**
  Thread-count resolution and the chunk-size / thread-limit optimiser of
  `git-features/src/parallel.rs`, for both builds of the crate: with the
  `parallel` feature and without it.  The platform query `num_cpus::get`
  is the parameter `logicalCores`.
*/
module Threads {
  import opened Wrappers
  import opened Arith

  /** The build configuration that selects the implementations. */
  datatype Build = Parallel(logicalCores: nat) | SingleThreaded

  const LowerChunkSize: nat := 50
  const UpperChunkSize: nat := 1000
  /** `desired_chunks_per_thread_at_least`. */
  const ChunksPerThread: nat := 2

  function Max(a: int, b: int): int { if a < b then b else a }
  function Min(a: int, b: int): int { if a < b then a else b }

  /** `num_threads` with the `parallel` feature: 0 or no limit means every logical core. */
  function NumThreads(threadLimit: Option<nat>, logicalCores: nat): (n: nat)
    ensures threadLimit == None || threadLimit == Some(0) ==> n == logicalCores
    ensures threadLimit.Some? && threadLimit.value > 0 ==> n == threadLimit.value
    ensures logicalCores >= 1 ==> n >= 1
  {
    match threadLimit
    case Some(l) => if l == 0 then logicalCores else l
    case None => logicalCores
  }

  /** `num_threads` without the `parallel` feature. */
  function NumThreadsSerial(threadLimit: Option<nat>): (n: nat)
    ensures n == 1
  {
    1
  }

  /** `num_threads` as the build selects it. */
  function ResolveThreads(build: Build, threadLimit: Option<nat>): (n: nat)
    ensures build.SingleThreaded? ==> n == 1
    ensures build.Parallel? ==> n == NumThreads(threadLimit, build.logicalCores)
  {
    match build
    case Parallel(cores) => NumThreads(threadLimit, cores)
    case SingleThreaded => NumThreadsSerial(threadLimit)
  }

  /**
    The thread count the optimiser starts from: the given availability (or
    the core count), overridden by a non-zero thread limit.
  */
  function AvailableThreads(threadLimit: Option<nat>, availableThreads: Option<nat>, logicalCores: nat): (a: nat)
    ensures threadLimit == None || threadLimit == Some(0) ==>
      a == (if availableThreads.Some? then availableThreads.value else logicalCores)
    ensures threadLimit.Some? && threadLimit.value > 0 ==> a == threadLimit.value
  {
    var available := availableThreads.UnwrapOr(logicalCores);
    match threadLimit
    case Some(l) => if l == 0 then available else l
    case None => available
  }

  /**
    `optimize_chunk_size_and_thread_limit` with the `parallel` feature.
    The division by `available * 2` panics when the resolved availability
    is 0, which only happens on the branch where the item count is known.
  */
  function Optimize(desiredChunkSize: nat, numItems: Option<nat>, threadLimit: Option<nat>,
                    availableThreads: Option<nat>, logicalCores: nat): (r: (nat, Option<nat>, nat))
    requires numItems.Some? ==> AvailableThreads(threadLimit, availableThreads, logicalCores) >= 1
    ensures r.1 == Some(r.2)
    ensures numItems.Some? ==> 1 <= r.0 <= UpperChunkSize
    ensures numItems.Some? ==> 1 <= r.2 <= AvailableThreads(threadLimit, availableThreads, logicalCores)
    ensures numItems.None? ==> r.2 == AvailableThreads(threadLimit, availableThreads, logicalCores)
    ensures numItems.None? && AvailableThreads(threadLimit, availableThreads, logicalCores) == 1 ==>
      r.0 == desiredChunkSize
    ensures numItems.None? && AvailableThreads(threadLimit, availableThreads, logicalCores) != 1 ==>
      LowerChunkSize <= r.0 <= UpperChunkSize
    ensures (numItems.None? && AvailableThreads(threadLimit, availableThreads, logicalCores) != 1 &&
             desiredChunkSize < LowerChunkSize) ==> r.0 == LowerChunkSize
    ensures (numItems.None? && AvailableThreads(threadLimit, availableThreads, logicalCores) != 1 &&
             LowerChunkSize <= desiredChunkSize <= UpperChunkSize) ==> r.0 == desiredChunkSize
    ensures (numItems.None? && AvailableThreads(threadLimit, availableThreads, logicalCores) != 1 &&
             desiredChunkSize > UpperChunkSize) ==> r.0 == UpperChunkSize
  {
    var available := AvailableThreads(threadLimit, availableThreads, logicalCores);
    var (chunkSize, limit) :=
      match numItems
      case Some(items) =>
        var chunkSize: nat := Min(Max(items / (available * ChunksPerThread), 1), UpperChunkSize);
        var numChunks := items / chunkSize;
        var limit: nat := if numChunks <= available then Max(numChunks / ChunksPerThread, 1) else available;
        (chunkSize, limit)
      case None =>
        (if available == 1 then desiredChunkSize
         else if desiredChunkSize < LowerChunkSize then LowerChunkSize
         else Min(desiredChunkSize, UpperChunkSize),
         available);
    (chunkSize, Some(limit), limit)
  }

  /** `optimize_chunk_size_and_thread_limit` without the `parallel` feature. */
  function OptimizeSerial(desiredChunkSize: nat, numItems: Option<nat>, threadLimit: Option<nat>,
                          availableThreads: Option<nat>): (r: (nat, Option<nat>, nat))
    ensures r.0 == desiredChunkSize && r.1 == threadLimit && r.2 == 1
  {
    (desiredChunkSize, threadLimit, NumThreadsSerial(threadLimit))
  }

  /** The optimiser resolves its thread limit exactly as `num_threads` does. */
  lemma AvailableThreadsIsNumThreads(threadLimit: Option<nat>, availableThreads: Option<nat>, logicalCores: nat)
    ensures AvailableThreads(threadLimit, availableThreads, logicalCores)
         == NumThreads(threadLimit, availableThreads.UnwrapOr(logicalCores))
  {
  }

  /**
    Between two items per thread and the cap, the chunk size leaves two to
    four chunks per thread.
  */
  lemma OptimizeChunksPerThread(desiredChunkSize: nat, items: nat, threadLimit: Option<nat>,
                                availableThreads: Option<nat>, logicalCores: nat)
    requires AvailableThreads(threadLimit, availableThreads, logicalCores) >= 1
    requires 2 * AvailableThreads(threadLimit, availableThreads, logicalCores) <= items
    requires items < 2 * UpperChunkSize * AvailableThreads(threadLimit, availableThreads, logicalCores)
    ensures var a := AvailableThreads(threadLimit, availableThreads, logicalCores);
            var c := Optimize(desiredChunkSize, Some(items), threadLimit, availableThreads, logicalCores).0;
            2 * a <= items / c < 4 * a
  {
    var a := AvailableThreads(threadLimit, availableThreads, logicalCores);
    var c := Min(Max(items / (a * ChunksPerThread), 1), UpperChunkSize);
    ChunksAtLeastTwicePerThread(items, a, c);
    var q := items / (a * 2);
    if q >= UpperChunkSize {
      assert false;
    }
    ChunksBelowFourPerThread(items, a, q);
  }

  /** A chunk size of items/(2a), when at least 1, leaves fewer than 4a chunks. */
  lemma ChunksBelowFourPerThread(items: nat, a: nat, q: nat)
    requires a >= 1 && q >= 1 && q == items / (a * 2)
    ensures items / q < 4 * a
  {
    var d := a * 2;
    if items >= d * (q + 1) {
      DivLowerBound(items, d, q + 1);
      assert false;
    }
    MulMonotone(d, q + 1, 2 * q);
    assert d * (2 * q) == q * (4 * a);
    if items / q >= 4 * a {
      MulDivLowerBound(items, q, 4 * a);
      assert false;
    }
  }

  /** From 1000 items per thread pair on, the chunk size is capped at 1000. */
  lemma OptimizeChunkCapped(desiredChunkSize: nat, items: nat, threadLimit: Option<nat>,
                            availableThreads: Option<nat>, logicalCores: nat)
    requires AvailableThreads(threadLimit, availableThreads, logicalCores) >= 1
    requires items >= 2 * UpperChunkSize * AvailableThreads(threadLimit, availableThreads, logicalCores)
    ensures Optimize(desiredChunkSize, Some(items), threadLimit, availableThreads, logicalCores).0 == UpperChunkSize
  {
    var a := AvailableThreads(threadLimit, availableThreads, logicalCores);
    DivLowerBound(items, a * 2, UpperChunkSize);
  }

  /** Fewer than two items per thread: single-item chunks, and at most half the items as threads. */
  lemma OptimizeFewItems(desiredChunkSize: nat, items: nat, threadLimit: Option<nat>,
                         availableThreads: Option<nat>, logicalCores: nat)
    requires AvailableThreads(threadLimit, availableThreads, logicalCores) >= 1
    requires items < 2 * AvailableThreads(threadLimit, availableThreads, logicalCores)
    ensures var a := AvailableThreads(threadLimit, availableThreads, logicalCores);
            var r := Optimize(desiredChunkSize, Some(items), threadLimit, availableThreads, logicalCores);
            r.0 == 1 && r.2 == (if items <= a then Max(1, items / 2) else a)
  {
    var a := AvailableThreads(threadLimit, availableThreads, logicalCores);
    SmallDivIsZero(items, a * ChunksPerThread);
  }

  /** At least two items per thread: every available thread is used. */
  lemma OptimizeEnoughItems(desiredChunkSize: nat, items: nat, threadLimit: Option<nat>,
                            availableThreads: Option<nat>, logicalCores: nat)
    requires AvailableThreads(threadLimit, availableThreads, logicalCores) >= 1
    requires items >= 2 * AvailableThreads(threadLimit, availableThreads, logicalCores)
    ensures Optimize(desiredChunkSize, Some(items), threadLimit, availableThreads, logicalCores).2
         == AvailableThreads(threadLimit, availableThreads, logicalCores)
  {
    var a := AvailableThreads(threadLimit, availableThreads, logicalCores);
    var c := Min(Max(items / (a * ChunksPerThread), 1), UpperChunkSize);
    ChunksAtLeastTwicePerThread(items, a, c);
  }

  /** Below the cap, a chunk size of items/(2a) leaves at least 2a chunks; at the cap too. */
  lemma ChunksAtLeastTwicePerThread(items: nat, a: nat, c: nat)
    requires a >= 1 && items >= 2 * a
    requires c == Min(Max(items / (a * 2), 1), UpperChunkSize)
    ensures c >= 1 && items / c >= 2 * a
  {
    var q := items / (a * 2);
    assert q >= 1 by { DivMonotone(2 * a, items, a * 2); }
    if q <= UpperChunkSize {
      assert c == q;
      assert q * (a * 2) <= items;
      DivLowerBound(items, q, a * 2);
    } else {
      assert c == UpperChunkSize;
      assert items >= (UpperChunkSize + 1) * (a * 2) by {
        MulDivLowerBound(items, a * 2, UpperChunkSize + 1);
      }
      DivLowerBound(items, UpperChunkSize, a * 2);
    }
  }
}
