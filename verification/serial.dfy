/**
  The `Reducer` interface and the single-threaded implementations of
  `git-features/src/parallel.rs`: `serial::in_parallel` and `serial::join`.

  The caller-supplied closures are pure functions here; what the engine
  asks of them, and in which order, is recorded as a sequence of `Call`s.
*/
module Serial {
  import opened Wrappers

  /** One call the engine makes into caller-supplied code. */
  datatype Call<I, O> =
    | Condition             // `in_parallel_if`'s `condition()`
    | NewState(index: nat)  // `new_thread_state(index)`
    | Consume(item: I)      // `consume(item, &mut state)`
    | Feed(output: O)       // `reducer.feed(output)`
    | Finalize              // `reducer.finalize()`

  /**
    A `Reducer`: its accumulator together with `feed`, which updates the
    accumulator or fails, and `finalize`, which turns it into the output or fails.
  */
  datatype Reducer<!Acc, !In, Out, Err> = Reducer(acc: Acc, feed: (Acc, In) -> Result<Acc, Err>, finalize: Acc -> Result<Out, Err>)
  {
    /** `Reducer::feed`: on success the same reducer with the new accumulator; a failure is passed on unchanged. */
    function Feed(input: In): (r: Result<Reducer<Acc, In, Out, Err>, Err>)
      ensures feed(acc, input).Ok? ==> r == Ok(Reducer(feed(acc, input).value, feed, finalize))
      ensures feed(acc, input).Err? ==> r == Err(feed(acc, input).error)
    {
      match feed(acc, input)
      case Ok(a) => Ok(this.(acc := a))
      case Err(e) => Err(e)
    }

    /** `Reducer::finalize`: the output, or the failure, of the accumulated state. */
    function Finalize(): (r: Result<Out, Err>)
      ensures r == finalize(acc)
    {
      finalize(acc)
    }
  }

  /** `serial::join`: both closures, left first. */
  function Join<O1, O2>(left: () -> O1, right: () -> O2): (r: (O1, O2))
    ensures r.0 == left() && r.1 == right()
  {
    (left(), right())
  }

  /**
    The loop of `serial::in_parallel` from a given point on: consume the next
    item with the worker state, feed its output, stop at the first error,
    finalize once the input is exhausted.  Gives the result and the calls made.
  */
  function Drive<I, S, O, Acc, Out, Err>(items: seq<I>, state: S, consume: (I, S) -> (O, S),
                                         reducer: Reducer<Acc, O, Out, Err>): (Result<Out, Err>, seq<Call<I, O>>)
    decreases |items|
  {
    if items == [] then (reducer.Finalize(), [Finalize])
    else
      var (output, state') := consume(items[0], state);
      match reducer.Feed(output)
      case Err(e) => (Err(e), [Consume(items[0]), Feed(output)])
      case Ok(reducer') =>
        var (result, calls) := Drive(items[1..], state', consume, reducer');
        (result, [Consume(items[0]), Feed(output)] + calls)
  }

  /** What `serial::in_parallel` returns and the calls it makes: one state, made for index 0, then `Drive`. */
  function InParallelSpec<I, S, O, Acc, Out, Err>(input: seq<I>, newThreadState: nat -> S, consume: (I, S) -> (O, S),
                                                  reducer: Reducer<Acc, O, Out, Err>): (Result<Out, Err>, seq<Call<I, O>>)
  {
    var (result, calls) := Drive(input, newThreadState(0), consume, reducer);
    (result, [NewState(0)] + calls)
  }

  /** `serial::in_parallel`; the thread limit is ignored. */
  method InParallel<I, S, O, Acc, Out, Err>(input: seq<I>, threadLimit: Option<nat>, newThreadState: nat -> S,
                                            consume: (I, S) -> (O, S), reducer: Reducer<Acc, O, Out, Err>)
    returns (result: Result<Out, Err>, calls: seq<Call<I, O>>)
    ensures (result, calls) == InParallelSpec(input, newThreadState, consume, reducer)
  {
    var state := newThreadState(0);
    calls := [NewState(0)];
    var r := reducer;
    var i := 0;
    while i < |input|
      invariant 0 <= i <= |input|
      invariant InParallelSpec(input, newThreadState, consume, reducer)
             == (Drive(input[i..], state, consume, r).0, calls + Drive(input[i..], state, consume, r).1)
    {
      assert input[i..][0] == input[i] && input[i..][1..] == input[i + 1..];
      ghost var oldState, oldCalls := state, calls;
      var (output, state') := consume(input[i], state);
      state := state';
      calls := calls + [Consume(input[i]), Feed(output)];
      match r.Feed(output)
      case Err(e) =>
        result := Err(e);
        return;
      case Ok(r') =>
        ghost var rest := Drive(input[i + 1..], state, consume, r');
        assert Drive(input[i..], oldState, consume, r) == (rest.0, [Consume(input[i]), Feed(output)] + rest.1);
        assert calls + rest.1 == oldCalls + ([Consume(input[i]), Feed(output)] + rest.1);
        r := r';
      i := i + 1;
    }
    result := r.Finalize();
    calls := calls + [Finalize];
  }

  // ---------------------------------------------------------------------
  // Reference definitions: what is computed, separately from the loop.

  /** The outputs `consume` produces over `items`, threading the worker state through. */
  function Outputs<I, S, O>(items: seq<I>, state: S, consume: (I, S) -> (O, S)): (outs: seq<O>)
    ensures |outs| == |items|
    decreases |items|
  {
    if items == [] then []
    else
      var (output, state') := consume(items[0], state);
      [output] + Outputs(items[1..], state', consume)
  }

  /** Feeding a sequence of outputs: either all accepted, or the index and error of the first rejected one. */
  datatype FeedOutcome<!Acc, !In, Out, Err> = AllFed(reducer: Reducer<Acc, In, Out, Err>) | FailedAt(index: nat, error: Err)

  function FeedAll<Acc, In, Out, Err>(reducer: Reducer<Acc, In, Out, Err>, outs: seq<In>): (f: FeedOutcome<Acc, In, Out, Err>)
    ensures f.FailedAt? ==> f.index < |outs|
    decreases |outs|
  {
    if outs == [] then AllFed(reducer)
    else
      match reducer.Feed(outs[0])
      case Err(e) => FailedAt(0, e)
      case Ok(reducer') =>
        match FeedAll(reducer', outs[1..])
        case AllFed(r) => AllFed(r)
        case FailedAt(k, e) => FailedAt(k + 1, e)
  }

  /** The calls `Consume(items[j])`, `Feed(outs[j])` for every j, in order. */
  function Interleave<I, O>(items: seq<I>, outs: seq<O>): seq<Call<I, O>>
    requires |items| == |outs|
    decreases |items|
  {
    if items == [] then [] else [Consume(items[0]), Feed(outs[0])] + Interleave(items[1..], outs[1..])
  }

  // ---------------------------------------------------------------------
  // Properties.

  /** `FailedAt(k, e)` means: the first k outputs are accepted and the next is rejected with e. */
  lemma {:induction false} FeedAllFirstError<Acc, In, Out, Err>(reducer: Reducer<Acc, In, Out, Err>, outs: seq<In>)
    requires FeedAll(reducer, outs).FailedAt?
    ensures var k := FeedAll(reducer, outs).index;
            FeedAll(reducer, outs[..k]).AllFed? &&
            FeedAll(reducer, outs[..k]).reducer.Feed(outs[k]) == Err(FeedAll(reducer, outs).error)
    decreases |outs|
  {
    match reducer.Feed(outs[0])
    case Err(e) =>
    case Ok(reducer') =>
      FeedAllFirstError(reducer', outs[1..]);
      var k := FeedAll(reducer, outs).index;
      assert outs[..k][1..] == outs[1..][..k - 1];
  }

  lemma {:induction false} InterleaveShape<I, O>(items: seq<I>, outs: seq<O>)
    requires |items| == |outs|
    ensures |Interleave(items, outs)| == 2 * |items|
    ensures forall j :: 0 <= j < |items| ==>
      Interleave(items, outs)[2 * j] == Consume(items[j]) && Interleave(items, outs)[2 * j + 1] == Feed(outs[j])
    decreases |items|
  {
    if items != [] {
      InterleaveShape(items[1..], outs[1..]);
      var rest := Interleave(items[1..], outs[1..]);
      forall j | 1 <= j < |items|
        ensures Interleave(items, outs)[2 * j] == Consume(items[j])
        ensures Interleave(items, outs)[2 * j + 1] == Feed(outs[j])
      {
        assert Interleave(items, outs)[2 * j] == rest[2 * (j - 1)];
        assert Interleave(items, outs)[2 * j + 1] == rest[2 * (j - 1) + 1];
      }
    }
  }

  lemma InterleaveOnlyConsumeAndFeed<I, O>(items: seq<I>, outs: seq<O>)
    requires |items| == |outs|
    ensures forall c :: c in Interleave(items, outs) ==> c.Consume? || c.Feed?
  {
    InterleaveShape(items, outs);
    forall c | c in Interleave(items, outs) ensures c.Consume? || c.Feed? {
      var j :| 0 <= j < |Interleave(items, outs)| && Interleave(items, outs)[j] == c;
      if j % 2 == 0 {
        assert c == Interleave(items, outs)[2 * (j / 2)];
      } else {
        assert c == Interleave(items, outs)[2 * (j / 2) + 1];
      }
    }
  }

  /**
    The loop, characterised by the reference definitions: the outputs are
    fed in input order; if all are accepted the result is `finalize` of the
    accumulated reducer, otherwise the first error is returned, nothing after
    the failing item is consumed and `finalize` is not called.
  */
  lemma {:induction false} DriveCharacterised<I, S, O, Acc, Out, Err>(items: seq<I>, state: S, consume: (I, S) -> (O, S),
                                                                      reducer: Reducer<Acc, O, Out, Err>)
    ensures var f := FeedAll(reducer, Outputs(items, state, consume));
            f.AllFed? ==> Drive(items, state, consume, reducer)
                          == (f.reducer.Finalize(), Interleave(items, Outputs(items, state, consume)) + [Finalize])
    ensures var f := FeedAll(reducer, Outputs(items, state, consume));
            f.FailedAt? ==> Drive(items, state, consume, reducer)
                            == (Err(f.error), Interleave(items[..f.index + 1], Outputs(items, state, consume)[..f.index + 1]))
    decreases |items|
  {
    var outs := Outputs(items, state, consume);
    if items == [] {
      assert outs == [];
      assert FeedAll(reducer, outs) == AllFed(reducer);
      assert Interleave(items, outs) == [];
      assert Drive(items, state, consume, reducer) == (reducer.Finalize(), [Finalize]);
      assert Interleave(items, outs) + [Finalize] == [Finalize];
      assert FeedAll(reducer, outs).reducer.Finalize() == reducer.Finalize();
    } else {
      var (output, state') := consume(items[0], state);
      assert outs[0] == output && outs[1..] == Outputs(items[1..], state', consume);
      match reducer.Feed(output)
      case Err(e) =>
        assert Drive(items, state, consume, reducer) == (Err(e), [Consume(items[0]), Feed(output)]);
        assert FeedAll(reducer, outs) == FailedAt(0, e);
        assert items[..1] == [items[0]] && outs[..1] == [output];
        assert Interleave(items[..1], outs[..1])
            == [Consume(items[0]), Feed(output)] + Interleave(items[..1][1..], outs[..1][1..]);
        assert Interleave(items[..1][1..], outs[..1][1..]) == [];
        assert Interleave(items[..1], outs[..1]) == [Consume(items[0]), Feed(output)];
      case Ok(reducer') =>
        DriveCharacterised(items[1..], state', consume, reducer');
        var rest := Drive(items[1..], state', consume, reducer');
        assert Drive(items, state, consume, reducer) == (rest.0, [Consume(items[0]), Feed(output)] + rest.1);
        match FeedAll(reducer', outs[1..])
        case AllFed(r) =>
          assert FeedAll(reducer, outs) == AllFed(r);
          assert Interleave(items, outs) == [Consume(items[0]), Feed(output)] + Interleave(items[1..], outs[1..]);
          assert Interleave(items, outs) + [Finalize]
              == [Consume(items[0]), Feed(output)] + (Interleave(items[1..], outs[1..]) + [Finalize]);
        case FailedAt(k, e) =>
          assert FeedAll(reducer, outs) == FailedAt(k + 1, e);
          assert items[..k + 2][1..] == items[1..][..k + 1];
          assert outs[..k + 2][1..] == outs[1..][..k + 1];
          assert Interleave(items[..k + 2], outs[..k + 2])
              == [Consume(items[0]), Feed(output)] + Interleave(items[1..][..k + 1], outs[1..][..k + 1]);
    }
  }

  /** The state factory is called once, first, with index 0; `Condition` is never asked. */
  lemma StateCreatedOnce<I, S, O, Acc, Out, Err>(input: seq<I>, newThreadState: nat -> S, consume: (I, S) -> (O, S),
                                                 reducer: Reducer<Acc, O, Out, Err>)
    ensures var calls := InParallelSpec(input, newThreadState, consume, reducer).1;
            |calls| >= 2 && calls[0] == NewState(0) &&
            forall j :: 1 <= j < |calls| ==> calls[j].Consume? || calls[j].Feed? || calls[j].Finalize?
  {
    var outs := Outputs(input, newThreadState(0), consume);
    DriveCharacterised(input, newThreadState(0), consume, reducer);
    match FeedAll(reducer, outs)
    case AllFed(r) =>
      InterleaveShape(input, outs);
      InterleaveOnlyConsumeAndFeed(input, outs);
    case FailedAt(k, e) =>
      InterleaveShape(input[..k + 1], outs[..k + 1]);
      InterleaveOnlyConsumeAndFeed(input[..k + 1], outs[..k + 1]);
  }

  /** When every `feed` succeeds: all items consumed and fed in input order, then `finalize`, whose result is returned. */
  lemma AllFedFinalizes<I, S, O, Acc, Out, Err>(input: seq<I>, newThreadState: nat -> S, consume: (I, S) -> (O, S),
                                                reducer: Reducer<Acc, O, Out, Err>)
    requires FeedAll(reducer, Outputs(input, newThreadState(0), consume)).AllFed?
    ensures var outs := Outputs(input, newThreadState(0), consume);
            var (result, calls) := InParallelSpec(input, newThreadState, consume, reducer);
            result == FeedAll(reducer, outs).reducer.Finalize() &&
            |calls| == 2 * |input| + 2 && calls[|calls| - 1] == Finalize &&
            forall j :: 0 <= j < |input| ==> calls[2 * j + 1] == Consume(input[j]) && calls[2 * j + 2] == Feed(outs[j])
  {
    var outs := Outputs(input, newThreadState(0), consume);
    DriveCharacterised(input, newThreadState(0), consume, reducer);
    InterleaveShape(input, outs);
  }

  /**
    On the first rejected output, at index k: its error is returned, items
    0..k were consumed and fed in order, nothing later was, and `finalize`
    was not called.
  */
  lemma FirstErrorStops<I, S, O, Acc, Out, Err>(input: seq<I>, newThreadState: nat -> S, consume: (I, S) -> (O, S),
                                                reducer: Reducer<Acc, O, Out, Err>)
    requires FeedAll(reducer, Outputs(input, newThreadState(0), consume)).FailedAt?
    ensures var outs := Outputs(input, newThreadState(0), consume);
            var f := FeedAll(reducer, outs);
            var (result, calls) := InParallelSpec(input, newThreadState, consume, reducer);
            result == Err(f.error) && Finalize !in calls &&
            |calls| == 2 * f.index + 3 &&
            forall j :: 0 <= j <= f.index ==> calls[2 * j + 1] == Consume(input[j]) && calls[2 * j + 2] == Feed(outs[j])
  {
    var outs := Outputs(input, newThreadState(0), consume);
    var k := FeedAll(reducer, outs).index;
    DriveCharacterised(input, newThreadState(0), consume, reducer);
    var fed := Interleave(input[..k + 1], outs[..k + 1]);
    var calls := InParallelSpec(input, newThreadState, consume, reducer).1;
    assert calls == [NewState(0)] + fed;
    InterleaveShape(input[..k + 1], outs[..k + 1]);
    InterleaveOnlyConsumeAndFeed(input[..k + 1], outs[..k + 1]);
    assert Finalize !in fed;
    forall j | 0 <= j <= k
      ensures calls[2 * j + 1] == Consume(input[j]) && calls[2 * j + 2] == Feed(outs[j])
    {
      assert calls[2 * j + 1] == fed[2 * j] && calls[2 * j + 2] == fed[2 * j + 1];
    }
  }
}
