/**
  `in_parallel_if` of `git-features/src/parallel.rs`: run the threaded
  engine only when more than one thread resolves and the caller's
  condition holds, otherwise the serial one.  The threaded engine itself
  is not modelled; a hand-off to it is recorded with the calls made before it.
*/
module Dispatch {
  import opened Wrappers
  import opened Threads
  import opened Serial

  datatype Dispatched<I, O, Out, Err> =
    | ToParallel(calls: seq<Call<I, O>>)
    | ToSerial(result: Result<Out, Err>, calls: seq<Call<I, O>>)

  function InParallelIf<I, S, O, Acc, Out, Err>(condition: () -> bool, build: Build, input: seq<I>,
                                                threadLimit: Option<nat>, newThreadState: nat -> S,
                                                consume: (I, S) -> (O, S), reducer: Reducer<Acc, O, Out, Err>)
    : (d: Dispatched<I, O, Out, Err>)
    ensures d.ToParallel? <==> ResolveThreads(build, threadLimit) > 1 && condition()
    ensures Condition in d.calls <==> ResolveThreads(build, threadLimit) > 1
    ensures d.ToParallel? ==> d.calls == [Condition]
    ensures d.ToSerial? ==>
      var (result, calls) := InParallelSpec(input, newThreadState, consume, reducer);
      d.result == result &&
      d.calls == (if ResolveThreads(build, threadLimit) > 1 then [Condition] + calls else calls)
  {
    StateCreatedOnce(input, newThreadState, consume, reducer);
    var threads := ResolveThreads(build, threadLimit);
    if threads > 1 && condition() then ToParallel([Condition])
    else
      var (result, calls) := InParallelSpec(input, newThreadState, consume, reducer);
      ToSerial(result, (if threads > 1 then [Condition] else []) + calls)
  }

  /** Without the `parallel` feature the serial engine always runs and the condition is never asked. */
  lemma SerialBuildStaysSerial<I, S, O, Acc, Out, Err>(condition: () -> bool, input: seq<I>, threadLimit: Option<nat>,
                                                       newThreadState: nat -> S, consume: (I, S) -> (O, S),
                                                       reducer: Reducer<Acc, O, Out, Err>)
    ensures var d := InParallelIf(condition, SingleThreaded, input, threadLimit, newThreadState, consume, reducer);
            d.ToSerial? && d.calls == InParallelSpec(input, newThreadState, consume, reducer).1
  {
  }
}
