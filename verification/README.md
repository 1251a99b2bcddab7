# gitoxide `git-features::parallel`, modelled in Dafny

This project models the sequential core of `git-features/src/parallel.rs` from gitoxide:

- the thread-count resolver `num_threads`;
- the chunk-size and thread-limit optimiser `optimize_chunk_size_and_thread_limit`, in both builds of the crate (with and without the `parallel` feature);
- the `Reducer` interface and the single-threaded map-reduce engine `serial::in_parallel`, plus `serial::join`;
- the dispatcher `in_parallel_if`, which picks the threaded or the serial engine;
- the prefetching iterator `EagerIter`: its chunking producer and its `next`.

Modules:

- `Wrappers` (wrappers.dfy) holds Rust's `Option` and `Result`.
- `Arith` (arith.dfy) holds division facts.
- `Threads` (threads.dfy) holds the resolver and the optimiser. The build is the datatype `Build`. The platform's logical-core count (`num_cpus::get`) is the parameter `logicalCores`.
- `Serial` (serial.dfy) holds the reducer and the serial engine. A `Reducer` is an accumulator with `feed: (Acc, In) -> Result<Acc, Err>` and `finalize: Acc -> Result<Out, Err>`. `consume` is a function that threads the worker state `S`. Every call the engine makes into caller code is recorded, in order, as a `Call`: `Condition`, `NewState(i)`, `Consume(item)`, `Feed(output)` or `Finalize`. These records state which closures run, how often and in what order.
- `Dispatch` (dispatch.dfy) holds `in_parallel_if`.
- `Eager` (eager.dfy) holds `EagerIter`. It is a class with the fields `receiver` and `chunk`:
  - `receiver` is the channel, modelled as a FIFO sequence of chunks. The producer fills it completely before the first `next`, so an empty `receiver` is a closed channel.
  - `chunk` is what is left of the chunk being handed out.

The serial engine is a loop method (`Serial.InParallel`) proved equal to a recursive specification (`Serial.InParallelSpec`). That specification is in turn characterised by independent reference definitions: `Outputs` (the outputs of `consume`, threading the state) and `FeedAll` (feeding them, with the index of the first rejection). The iterator's methods are proved equal to step functions on `IterState`. What repeated calls of `next` return is stated with `Drain` and `DrainRefilling`.

The documented behaviour of `EagerIter` is that it yields every source item in order, with a last chunk that may be shorter. The code does not do this. The model follows the code as written and records the difference under "Findings", with corrected versions proved to yield every item.

## Model

| member | source | states |
|---|---|---|
| `Threads.NumThreads` | git-features/src/parallel.rs:165-171 | With the `parallel` feature: no limit or a limit of 0 gives the logical-core count, a limit n > 0 gives n. The result is at least 1 whenever there is at least one core. |
| `Threads.NumThreadsSerial` | git-features/src/parallel.rs:160-163 | Without the `parallel` feature the count is always 1, whatever the limit. |
| `Threads.ResolveThreads` | git-features/src/parallel.rs:154-171 | The build selects the resolver: 1 in the single-threaded build, `NumThreads` in the parallel one. |
| `Threads.AvailableThreads` | git-features/src/parallel.rs:120-123 | The optimiser's starting count: the given availability or the core count, replaced by a limit n > 0. A limit of 0 or none keeps it. |
| `Threads.AvailableThreadsIsNumThreads` | git-features/src/parallel.rs:120-123 | The optimiser's limit override is the same rule as `num_threads`, applied to the given availability. |
| `Threads.Optimize` | git-features/src/parallel.rs:113-152 | Always returns `(c, Some(t), t)`. With a known item count: 1 <= c <= 1000 and 1 <= t <= the resolved availability. With an unknown count: t is the availability; c is the desired size when one thread is available, otherwise c is 50 when the desired size is below 50, the desired size itself when it lies in [50, 1000], and 1000 above that. Requires availability >= 1 only when the count is known, where the source divides by it. |
| `Threads.OptimizeSerial` | git-features/src/parallel.rs:103-111 | Without the `parallel` feature: the desired chunk size and the limit come back unchanged, and the thread count is 1. |
| `Threads.OptimizeChunksPerThread` | git-features/src/parallel.rs:126-133 | With known count k, availability a and 2a <= k < 2000a, the chunk size leaves between 2a and 4a - 1 chunks: two to four chunks per thread. |
| `Threads.ChunksBelowFourPerThread` | git-features/src/parallel.rs:130-133 | A chunk size of k / (2a), when at least 1, leaves fewer than 4a chunks. |
| `Threads.OptimizeChunkCapped` | git-features/src/parallel.rs:130-132 | With a known count k >= 2000a, the chunk size is the cap, 1000. |
| `Threads.OptimizeFewItems` | git-features/src/parallel.rs:126-139 | Fewer than two items per thread: chunks of one item; threads = max(1, k / 2) when k <= a, else a. |
| `Threads.OptimizeEnoughItems` | git-features/src/parallel.rs:126-139 | At least two items per thread: every available thread is used, including when the chunk size is capped at 1000. |
| `Threads.ChunksAtLeastTwicePerThread` | git-features/src/parallel.rs:128-133 | When k >= 2a, the computed chunk size leaves at least 2a chunks: the "two chunks per thread" target is met. |
| `Serial.Reducer.Feed` | git-features/src/parallel.rs:5 | `feed` succeeding gives the same reducer (same operations) with the new accumulator; a failure is returned unchanged. |
| `Serial.Reducer.Finalize` | git-features/src/parallel.rs:6 | `finalize` gives the output or the failure of the accumulated state. |
| `Serial.Join` | git-features/src/parallel.rs:13-15 | Returns both closures' results, left in first position. |
| `Serial.InParallel` | git-features/src/parallel.rs:17-34 | The loop returns exactly the result and the call sequence of `InParallelSpec`: one state made for index 0, then consume and feed item by item, stopping at the first feed error, otherwise finalize. |
| `Serial.DriveCharacterised` | git-features/src/parallel.rs:29-33 | If every output is accepted, the result is `finalize` of the accumulated reducer, and the calls are consume/feed for each item in input order followed by `Finalize`. On the first rejected output at index k, its error is returned and the calls stop after item k's feed. |
| `Serial.FeedAllFirstError` | git-features/src/parallel.rs:31 | A failure at index k means the first k outputs were accepted and output k was rejected with exactly that error. |
| `Serial.InterleaveShape` | git-features/src/parallel.rs:30-31 | The recorded calls alternate `Consume(items[j])` and `Feed(outs[j])`, in input order. |
| `Serial.InterleaveOnlyConsumeAndFeed` | git-features/src/parallel.rs:30-31 | Inside the loop the only calls are `consume` and `feed`. |
| `Serial.StateCreatedOnce` | git-features/src/parallel.rs:29 | The state factory is called exactly once, first, with index 0. Every later call is consume, feed or finalize. |
| `Serial.AllFedFinalizes` | git-features/src/parallel.rs:30-33 | When every feed succeeds: all 2n + 2 calls happen, each item is consumed and its output fed in input order, the last call is `Finalize`, and its result is returned. |
| `Serial.FirstErrorStops` | git-features/src/parallel.rs:31 | On the first feed error, at item k, that error is returned unchanged. Exactly 2k + 3 calls are made, so no item after k is consumed, and `Finalize` is never called. |
| `Dispatch.InParallelIf` | git-features/src/parallel.rs:173-191 | The threaded engine is chosen iff more than one thread resolves and the condition holds. The condition is evaluated iff more than one thread resolves. Otherwise the serial engine's result and calls are returned unchanged. |
| `Dispatch.SerialBuildStaysSerial` | git-features/src/parallel.rs:186-190 | In the single-threaded build the serial engine always runs and the condition is never evaluated. |
| `Eager.FullChunksShape` | git-features/src/parallel.rs:208-217 | The producer as written sends n / chunk_size chunks of exactly chunk_size items. Together they are the first (n / chunk_size) * chunk_size source items, in order, and the leftover is never sent. |
| `Eager.Produce` | git-features/src/parallel.rs:207-218 | The producer loop sends exactly `FullChunks(source, chunk_size)`. The items still in `out` when the source ends are fewer than chunk_size and complete the source. |
| `Eager.SendFullChunk` | git-features/src/parallel.rs:211-215 | Sending a full `out` and starting a new one keeps the sent chunks equal to the source prefix and to a prefix of `FullChunks`. |
| `Eager.EagerIter.constructor` | git-features/src/parallel.rs:203-220 | Requires chunk_size > 0 (the assertion). The channel then holds the full chunks, and no chunk is held yet. |
| `Eager.EagerIter.FillBufAndPop` | git-features/src/parallel.rs:222-225 | Receives the front chunk and returns its first item. If the channel is closed and empty, returns `None` and holds no chunk (`FillStep`). |
| `Eager.FillStep` | git-features/src/parallel.rs:222-225 | A closed, empty channel gives `None`. A non-empty front chunk gives its first item and leaves its rest held. |
| `Eager.EagerIter.Next` | git-features/src/parallel.rs:235-240 | `next` as written: it follows `NextStep` on the iterator's state. |
| `Eager.NextStep` | git-features/src/parallel.rs:235-240 | While a chunk is held, the channel is never touched. An exhausted held chunk gives `None` and leaves the state unchanged. |
| `Eager.Drain` | git-features/src/parallel.rs:235-240 | Gives what n successive `next` calls return (exactly n results). |
| `Eager.DrainHeldChunk` | git-features/src/parallel.rs:236-237 | With a chunk held, `next` returns its items in order and then `None` for ever, without receiving another chunk. |
| `Eager.DrainClosed` | git-features/src/parallel.rs:223-224 | With no chunk held and the channel closed and empty, `next` returns `None` for ever. |
| `Eager.AsWrittenYields` | git-features/src/parallel.rs:203-240 | A fresh iterator yields source[j] for j < chunk_size when the source has at least chunk_size items, and `None` for every other call. |
| `Eager.AsWrittenStopsEarly` | git-features/src/parallel.rs:208-217 | On [1, 2, 3, 4, 5] with chunk size 3, only [1, 2, 3] is sent and the iterator yields 1, 2, 3, then `None`. On [1, ..., 6] it yields 1, 2, 3, then `None`. |
| `Eager.ProduceAll` | git-features/src/parallel.rs:208-217 | Corrected producer: the same loop, then the leftover is sent. It sends exactly `AllChunks`. |
| `Eager.AllChunksShape` | git-features/src/parallel.rs:208-217 | The corrected chunks are non-empty, hold at most chunk_size items each, and flatten to the whole source. |
| `Eager.AllChunksOfFull` | git-features/src/parallel.rs:208-217 | The corrected chunks are the full chunks followed by the leftover, when there is one. |
| `Eager.EagerIter.Corrected` | git-features/src/parallel.rs:203-220 | Constructor with the corrected producer: requires chunk_size > 0, and the channel holds `AllChunks`. |
| `Eager.EagerIter.NextRefilling` | git-features/src/parallel.rs:235-240 | Corrected `next`: it follows `NextRefillingStep`. |
| `Eager.NextRefillingStep` | git-features/src/parallel.rs:235-240 | While the held chunk has items, returns the next one without touching the channel. Otherwise receives the next chunk. |
| `Eager.DrainRefilling` | git-features/src/parallel.rs:235-240 | Gives what n successive corrected `next` calls return (exactly n results). |
| `Eager.RefillingStepPops` | git-features/src/parallel.rs:222-240 | One corrected `next` returns the first item still to come (the held rest, then the channel) and removes it, or returns `None` when nothing remains. |
| `Eager.DrainRefillingRemaining` | git-features/src/parallel.rs:222-240 | Corrected `next` calls return the remaining items in order, then `None` for ever. |
| `Eager.RefillingYieldsSource` | git-features/src/parallel.rs:203-240 | The corrected iterator yields every source item in order, then `None`, for any chunk size > 0. |
| `Eager.RefillingYieldsAll` | git-features/src/parallel.rs:203-240 | On [1, 2, 3, 4, 5] with chunk size 3, the corrected iterator yields 1, 2, 3, 4, 5, then `None`. |

## Left out

- The threaded `in_parallel::in_parallel` and `in_parallel::join` (git-features/src/parallel.rs:42-100). Their behaviour is scoped threads, bounded channels, backpressure, scheduling-dependent result order and panic propagation. `Dispatch.InParallelIf` records only the hand-off to the threaded engine. The claim that the threaded and serial engines feed the same multiset of outputs is therefore not stated.
- `num_cpus::get` is a platform query. It is the parameter `logicalCores`.
- EagerIter's background thread and `sync_channel` capacity are not modelled. The constructor accepts `chunksInFlight` and ignores it. The producer runs to completion before consumption, so its early exit when the receiver is dropped is not modelled either.
- `Threads.Optimize`: integers are unbounded. The `usize` overflow of `available_threads * 2` for availabilities above half of `usize::MAX` is not modelled.
- `Threads.Optimize`: the division by zero that panics when the item count is known and the resolved availability is 0 (for example `available_threads = Some(0)` with no thread limit) is a precondition, not an error value.
- `Eager.EagerIter.constructor`: the `assert!(chunk_size > 0)` panic is a precondition.
- Caller closures are pure functions. `consume` returns its output and the new worker state in place of mutating `&mut S`. Side effects of closures are visible only through the recorded `Call` sequence.
- `Serial.Join`: the closures are pure, so the left-before-right order of the single-threaded build is not observable and is not stated.
- Iterator inputs are finite sequences.
- git-refspec/tests/parse/mod.rs, src/plumbing/lean.rs and git-diff/src/text.rs are not part of this model. They are a test file for a parser whose source is absent, CLI plumbing, and a wrapper over an external diff library.

## Findings

| source | as written | input that shows it | evidently intended | confidence | as-written member | corrected member |
|---|---|---|---|---|---|---|
| git-features/src/parallel.rs:208-217 | The producer sends `out` only when it holds `chunk_size` items. Items still in `out` when the source ends are dropped. | source [1, 2, 3, 4, 5], chunk_size 3: only [1, 2, 3] is sent | After the loop, send the final partial chunk if it is not empty | high; not executed | `Eager.AsWrittenStopsEarly` | `Eager.ProduceAll` |
| git-features/src/parallel.rs:235-240 | Once a chunk is held, `next` returns only `chunk.next()`. It never receives another chunk, so iteration ends after the first chunk. | source [1, 2, 3, 4, 5, 6], chunk_size 3: `next` gives 1, 2, 3, then `None`, although [4, 5, 6] waits in the channel | When the held chunk is exhausted, call `fill_buf_and_pop` | high; not executed | `Eager.AsWrittenYields` | `Eager.RefillingYieldsSource` |
