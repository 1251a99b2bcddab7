/**
  `EagerIter` of `git-features/src/parallel.rs`: a producer cuts the source
  into chunks and sends them over a channel; the iterator hands the items
  of the received chunks back one by one.

  The producer runs to completion before the first `next`: the channel is
  the sequence of chunks it sent, and a channel with no chunk left is a
  closed one.  Besides the code as written (`Produce`, `EagerIter.Next`)
  the module holds the corrected producer and `next` (`ProduceAll`,
  `EagerIter.NextRefilling`), which hand back every source item.
*/
module Eager {
  import opened Wrappers
  import opened Arith

  function Flatten<T>(chunks: seq<seq<T>>): seq<T>
    decreases |chunks|
  {
    if chunks == [] then [] else chunks[0] + Flatten(chunks[1..])
  }

  lemma {:induction false} FlattenAppend<T>(chunks: seq<seq<T>>, c: seq<T>)
    ensures Flatten(chunks + [c]) == Flatten(chunks) + c
    decreases |chunks|
  {
    if chunks == [] {
      assert chunks + [c] == [c];
      assert Flatten([c]) == c + Flatten([c][1..]);
    } else {
      assert (chunks + [c])[1..] == chunks[1..] + [c];
      FlattenAppend(chunks[1..], c);
    }
  }

  // ---------------------------------------------------------------------
  // The producer.

  /** The chunks the producer sends as written: full ones only, in order. */
  function FullChunks<T>(source: seq<T>, chunkSize: nat): seq<seq<T>>
    requires chunkSize > 0
    decreases |source|
  {
    if |source| < chunkSize then [] else [source[..chunkSize]] + FullChunks(source[chunkSize..], chunkSize)
  }

  /**
    Every chunk sent holds exactly `chunkSize` items; together they are the
    first `(n / chunkSize) * chunkSize` source items, in order; the rest is never sent.
  */
  lemma {:induction false} FullChunksShape<T>(source: seq<T>, chunkSize: nat)
    requires chunkSize > 0
    ensures |FullChunks(source, chunkSize)| == |source| / chunkSize
    ensures forall j :: 0 <= j < |FullChunks(source, chunkSize)| ==> |FullChunks(source, chunkSize)[j]| == chunkSize
    ensures Flatten(FullChunks(source, chunkSize)) == source[..|source| / chunkSize * chunkSize]
    decreases |source|
  {
    var chunks := FullChunks(source, chunkSize);
    if |source| < chunkSize {
      SmallDivIsZero(|source|, chunkSize);
    } else {
      var rest := source[chunkSize..];
      FullChunksShape(rest, chunkSize);
      DivSubtract(|source|, chunkSize);
      var k := |rest| / chunkSize;
      assert |source| / chunkSize * chunkSize == chunkSize + k * chunkSize;
      assert chunks[1..] == FullChunks(rest, chunkSize);
      assert Flatten(chunks) == source[..chunkSize] + rest[..k * chunkSize];
      assert source[..chunkSize] + rest[..k * chunkSize] == source[..chunkSize + k * chunkSize];
    }
  }

  /**
    The producer loop of `EagerIter::new`: items go into `out`, and `out`
    is sent and replaced by an empty one whenever it holds `chunkSize`
    items.  `unsent` is what is left in `out` when the source runs out.
  */
  method Produce<T>(source: seq<T>, chunkSize: nat) returns (sent: seq<seq<T>>, unsent: seq<T>)
    requires chunkSize > 0
    ensures sent == FullChunks(source, chunkSize)
    ensures Flatten(sent) + unsent == source && |unsent| < chunkSize
  {
    sent := [];
    var out: seq<T> := [];
    ghost var start := 0;  // where `out` begins in the source
    for i := 0 to |source|
      invariant start <= i && i - start < chunkSize
      invariant out == source[start..i]
      invariant Flatten(sent) == source[..start]
      invariant sent + FullChunks(source[start..], chunkSize) == FullChunks(source, chunkSize)
    {
      out := out + [source[i]];
      assert out == source[start..i + 1];
      if |out| == chunkSize {
        SendFullChunk(source, chunkSize, i + 1, sent, out);
        sent := sent + [out];
        out := [];
        start := i + 1;
      }
    }
    assert FullChunks(source[start..], chunkSize) == [];
    assert source[..start] + source[start..] == source;
    unsent := out;
  }

  /** Sending `out` once it is full, at source position `end`, keeps the producer's invariant. */
  lemma SendFullChunk<T>(source: seq<T>, chunkSize: nat, end: nat, sent: seq<seq<T>>, out: seq<T>)
    requires 0 < chunkSize <= end <= |source|
    requires out == source[end - chunkSize..end]
    requires Flatten(sent) == source[..end - chunkSize]
    requires sent + FullChunks(source[end - chunkSize..], chunkSize) == FullChunks(source, chunkSize)
    ensures Flatten(sent + [out]) == source[..end]
    ensures (sent + [out]) + FullChunks(source[end..], chunkSize) == FullChunks(source, chunkSize)
  {
    var tail := source[end - chunkSize..];
    assert tail[..chunkSize] == out && tail[chunkSize..] == source[end..];
    assert FullChunks(tail, chunkSize) == [out] + FullChunks(source[end..], chunkSize);
    FlattenAppend(sent, out);
    assert source[..end - chunkSize] + out == source[..end];
  }

  /** The chunks a corrected producer sends: the full ones, then what is left, if anything. */
  function AllChunks<T>(source: seq<T>, chunkSize: nat): seq<seq<T>>
    requires chunkSize > 0
    decreases |source|
  {
    if source == [] then []
    else if |source| <= chunkSize then [source]
    else [source[..chunkSize]] + AllChunks(source[chunkSize..], chunkSize)
  }

  ghost predicate NonEmptyChunks<T>(chunks: seq<seq<T>>)
  {
    forall j :: 0 <= j < |chunks| ==> chunks[j] != []
  }

  /** The corrected chunks lose nothing: they are non-empty, hold at most `chunkSize` items and flatten to the source. */
  lemma {:induction false} AllChunksShape<T>(source: seq<T>, chunkSize: nat)
    requires chunkSize > 0
    ensures Flatten(AllChunks(source, chunkSize)) == source
    ensures NonEmptyChunks(AllChunks(source, chunkSize))
    ensures forall j :: 0 <= j < |AllChunks(source, chunkSize)| ==> |AllChunks(source, chunkSize)[j]| <= chunkSize
    decreases |source|
  {
    var chunks := AllChunks(source, chunkSize);
    if source == [] {
    } else if |source| <= chunkSize {
      assert Flatten(chunks) == source + Flatten([]);
    } else {
      AllChunksShape(source[chunkSize..], chunkSize);
      assert chunks[1..] == AllChunks(source[chunkSize..], chunkSize);
      assert source == source[..chunkSize] + source[chunkSize..];
    }
  }

  /** The corrected chunks are the full chunks followed by the leftover, when there is one. */
  lemma {:induction false} AllChunksOfFull<T>(source: seq<T>, chunkSize: nat, unsent: seq<T>)
    requires chunkSize > 0
    requires Flatten(FullChunks(source, chunkSize)) + unsent == source && |unsent| < chunkSize
    ensures AllChunks(source, chunkSize) == FullChunks(source, chunkSize) + (if unsent == [] then [] else [unsent])
    decreases |source|
  {
    if |source| < chunkSize {
      assert unsent == source;
    } else {
      var rest := source[chunkSize..];
      assert Flatten(FullChunks(source, chunkSize)) == source[..chunkSize] + Flatten(FullChunks(rest, chunkSize));
      assert source == source[..chunkSize] + rest;
      assert Flatten(FullChunks(rest, chunkSize)) + unsent == rest;
      if |source| == chunkSize {
        assert FullChunks(rest, chunkSize) == [];
      } else {
        AllChunksOfFull(rest, chunkSize, unsent);
      }
    }
  }

  /** The corrected producer: the loop of `Produce`, then the leftover is sent too. */
  method ProduceAll<T>(source: seq<T>, chunkSize: nat) returns (sent: seq<seq<T>>)
    requires chunkSize > 0
    ensures sent == AllChunks(source, chunkSize)
  {
    var unsent;
    sent, unsent := Produce(source, chunkSize);
    AllChunksOfFull(source, chunkSize, unsent);
    if unsent != [] {
      sent := sent + [unsent];
    }
  }

  // ---------------------------------------------------------------------
  // The consumer.

  /** The iterator's state: the chunks still in the channel and, once one was received, what is left of it. */
  datatype IterState<T> = IterState(receiver: seq<seq<T>>, chunk: Option<seq<T>>)

  /** `fill_buf_and_pop`: receive the next chunk (none once the channel is closed and empty) and take its first item. */
  function FillStep<T>(st: IterState<T>): (r: (Option<T>, IterState<T>))
    ensures st.receiver == [] ==> r == (None, IterState([], None))
    ensures st.receiver != [] && st.receiver[0] != [] ==>
      r == (Some(st.receiver[0][0]), IterState(st.receiver[1..], Some(st.receiver[0][1..])))
  {
    if st.receiver == [] then (None, IterState([], None))
    else
      var c := st.receiver[0];
      if c == [] then (None, IterState(st.receiver[1..], Some([])))
      else (Some(c[0]), IterState(st.receiver[1..], Some(c[1..])))
  }

  /** `next` as written: with a chunk held, only that chunk is ever consulted. */
  function NextStep<T>(st: IterState<T>): (r: (Option<T>, IterState<T>))
    ensures st.chunk.Some? ==> r.1.receiver == st.receiver && r.1.chunk.Some?
    ensures st.chunk.Some? && st.chunk.value == [] ==> r == (None, st)
  {
    match st.chunk
    case Some(c) => if c == [] then (None, st) else (Some(c[0]), st.(chunk := Some(c[1..])))
    case None => FillStep(st)
  }

  /** The corrected `next`: once the held chunk is exhausted, the next one is received. */
  function NextRefillingStep<T>(st: IterState<T>): (r: (Option<T>, IterState<T>))
    ensures st.chunk.Some? && st.chunk.value != [] ==>
      r == (Some(st.chunk.value[0]), st.(chunk := Some(st.chunk.value[1..])))
    ensures !(st.chunk.Some? && st.chunk.value != []) ==> r == FillStep(st)
  {
    match st.chunk
    case Some(c) => if c != [] then (Some(c[0]), st.(chunk := Some(c[1..]))) else FillStep(st)
    case None => FillStep(st)
  }

  /** What `n` successive calls of `next` (as written) return. */
  function Drain<T>(st: IterState<T>, n: nat): (r: seq<Option<T>>)
    ensures |r| == n
    decreases n
  {
    if n == 0 then [] else var (x, st') := NextStep(st); [x] + Drain(st', n - 1)
  }

  /** What `n` successive calls of the corrected `next` return. */
  function DrainRefilling<T>(st: IterState<T>, n: nat): (r: seq<Option<T>>)
    ensures |r| == n
    decreases n
  {
    if n == 0 then [] else var (x, st') := NextRefillingStep(st); [x] + DrainRefilling(st', n - 1)
  }

  class EagerIter<T> {
    var receiver: seq<seq<T>>
    var chunk: Option<seq<T>>

    function State(): IterState<T>
      reads this
    {
      IterState(receiver, chunk)
    }

    /** `EagerIter::new`; the channel capacity `chunksInFlight` only bounds the producer's lead. */
    constructor (source: seq<T>, chunkSize: nat, chunksInFlight: nat)
      requires chunkSize > 0
      ensures State() == IterState(FullChunks(source, chunkSize), None)
    {
      var sent, unsent := Produce(source, chunkSize);
      receiver := sent;
      chunk := None;
    }

    /** `EagerIter::new` with the corrected producer. */
    constructor Corrected(source: seq<T>, chunkSize: nat, chunksInFlight: nat)
      requires chunkSize > 0
      ensures State() == IterState(AllChunks(source, chunkSize), None)
    {
      var sent := ProduceAll(source, chunkSize);
      receiver := sent;
      chunk := None;
    }

    method FillBufAndPop() returns (item: Option<T>)
      modifies this
      ensures (item, State()) == FillStep(old(State()))
    {
      if receiver == [] {
        chunk := None;
        item := None;
      } else {
        var c := receiver[0];
        receiver := receiver[1..];
        if c == [] {
          chunk := Some([]);
          item := None;
        } else {
          chunk := Some(c[1..]);
          item := Some(c[0]);
        }
      }
    }

    /** `Iterator::next` as written. */
    method Next() returns (item: Option<T>)
      modifies this
      ensures (item, State()) == NextStep(old(State()))
    {
      match chunk
      case Some(c) =>
        if c == [] {
          item := None;
        } else {
          item := Some(c[0]);
          chunk := Some(c[1..]);
        }
      case None =>
        item := FillBufAndPop();
    }

    /** `Iterator::next`, corrected to receive the next chunk once the held one is exhausted. */
    method NextRefilling() returns (item: Option<T>)
      modifies this
      ensures (item, State()) == NextRefillingStep(old(State()))
    {
      if chunk.Some? && chunk.value != [] {
        item := Some(chunk.value[0]);
        chunk := Some(chunk.value[1..]);
      } else {
        item := FillBufAndPop();
      }
    }
  }

  // ---------------------------------------------------------------------
  // Properties of `next` as written.

  /** With a chunk held, `next` returns its items in order and then `None` for ever. */
  lemma {:induction false} DrainHeldChunk<T>(st: IterState<T>, n: nat)
    requires st.chunk.Some?
    ensures forall j :: 0 <= j < n ==>
      Drain(st, n)[j] == if j < |st.chunk.value| then Some(st.chunk.value[j]) else None
    decreases n
  {
    if n > 0 {
      var c := st.chunk.value;
      var st' := NextStep(st).1;
      DrainHeldChunk(st', n - 1);
      if c == [] {
        assert st' == st;
      } else {
        assert st'.chunk.value == c[1..];
      }
      forall j | 1 <= j < n
        ensures Drain(st, n)[j] == if j < |c| then Some(c[j]) else None
      {
        assert Drain(st, n)[j] == Drain(st', n - 1)[j - 1];
      }
    }
  }

  /** With no chunk held and the channel closed and empty, `next` returns `None` for ever. */
  lemma {:induction false} DrainClosed<T>(n: nat)
    ensures forall j :: 0 <= j < n ==> Drain<T>(IterState([], None), n)[j] == None
    decreases n
  {
    if n > 0 {
      DrainClosed<T>(n - 1);
    }
  }

  /**
    A fresh iterator, as written, yields the first `chunkSize` source items
    if the source has that many, and nothing otherwise; then `None` for ever.
  */
  lemma AsWrittenYields<T>(source: seq<T>, chunkSize: nat, n: nat)
    requires chunkSize > 0
    ensures forall j :: 0 <= j < n ==>
      Drain(IterState(FullChunks(source, chunkSize), None), n)[j]
        == if |source| >= chunkSize && j < chunkSize then Some(source[j]) else None
  {
    var st := IterState(FullChunks(source, chunkSize), None);
    if n > 0 {
      var st' := NextStep(st).1;
      if |source| < chunkSize {
        assert st' == IterState([], None);
        DrainClosed<T>(n - 1);
      } else {
        assert st'.chunk == Some(source[1..chunkSize]);
        DrainHeldChunk(st', n - 1);
      }
      forall j | 1 <= j < n
        ensures Drain(st, n)[j] == if |source| >= chunkSize && j < chunkSize then Some(source[j]) else None
      {
        assert Drain(st, n)[j] == Drain(st', n - 1)[j - 1];
      }
    }
  }

  /** The code as written, on five items in chunks of three: 4 and 5 are never sent, and only 1, 2, 3 come out. */
  lemma AsWrittenStopsEarly()
    ensures FullChunks([1, 2, 3, 4, 5], 3) == [[1, 2, 3]]
    ensures Drain(IterState(FullChunks([1, 2, 3, 4, 5], 3), None), 6)
         == [Some(1), Some(2), Some(3), None, None, None]
    ensures Drain(IterState(FullChunks([1, 2, 3, 4, 5, 6], 3), None), 4) == [Some(1), Some(2), Some(3), None]
  {
    assert [1, 2, 3, 4, 5][..3] == [1, 2, 3] && [1, 2, 3, 4, 5][3..] == [4, 5];
    assert FullChunks([4, 5], 3) == [];
    AsWrittenYields([1, 2, 3, 4, 5], 3, 6);
    AsWrittenYields([1, 2, 3, 4, 5, 6], 3, 4);
  }

  // ---------------------------------------------------------------------
  // Properties of the corrected `next`.

  /** The items still to come: the rest of the held chunk, then the chunks in the channel. */
  function Remaining<T>(st: IterState<T>): seq<T>
  {
    (if st.chunk.Some? then st.chunk.value else []) + Flatten(st.receiver)
  }

  /** One corrected `next` takes the first remaining item, or returns `None` when none remain. */
  lemma RefillingStepPops<T>(st: IterState<T>)
    requires NonEmptyChunks(st.receiver)
    ensures var (x, st') := NextRefillingStep(st);
            NonEmptyChunks(st'.receiver) &&
            (Remaining(st) == [] ==> x == None && Remaining(st') == []) &&
            (Remaining(st) != [] ==> x == Some(Remaining(st)[0]) && Remaining(st') == Remaining(st)[1..])
  {
    var (x, st') := NextRefillingStep(st);
    if st.chunk.Some? && st.chunk.value != [] {
    } else if st.receiver == [] {
    } else {
      var c := st.receiver[0];
      assert c != [];
      assert Flatten(st.receiver) == c + Flatten(st.receiver[1..]);
      assert Remaining(st') == c[1..] + Flatten(st.receiver[1..]);
    }
  }

  /** Successive corrected `next` calls return the remaining items in order, then `None` for ever. */
  lemma {:induction false} DrainRefillingRemaining<T>(st: IterState<T>, n: nat)
    requires NonEmptyChunks(st.receiver)
    ensures forall j :: 0 <= j < n ==>
      DrainRefilling(st, n)[j] == if j < |Remaining(st)| then Some(Remaining(st)[j]) else None
    decreases n
  {
    if n > 0 {
      var st' := NextRefillingStep(st).1;
      RefillingStepPops(st);
      DrainRefillingRemaining(st', n - 1);
      forall j | 1 <= j < n
        ensures DrainRefilling(st, n)[j] == if j < |Remaining(st)| then Some(Remaining(st)[j]) else None
      {
        assert DrainRefilling(st, n)[j] == DrainRefilling(st', n - 1)[j - 1];
      }
    }
  }

  /** The corrected iterator yields every source item, in order, then `None` for ever. */
  lemma RefillingYieldsSource<T>(source: seq<T>, chunkSize: nat, n: nat)
    requires chunkSize > 0
    ensures forall j :: 0 <= j < n ==>
      DrainRefilling(IterState(AllChunks(source, chunkSize), None), n)[j]
        == if j < |source| then Some(source[j]) else None
  {
    AllChunksShape(source, chunkSize);
    DrainRefillingRemaining(IterState(AllChunks(source, chunkSize), None), n);
  }

  /** The corrected code on five items in chunks of three: 1 to 5, then the end. */
  lemma RefillingYieldsAll()
    ensures DrainRefilling(IterState(AllChunks([1, 2, 3, 4, 5], 3), None), 6)
         == [Some(1), Some(2), Some(3), Some(4), Some(5), None]
  {
    RefillingYieldsSource([1, 2, 3, 4, 5], 3, 6);
  }
}
