/** The data and end handlers of the streaming generator, stripped of their
    asynchronous shell: a left fold over the transform results that buffers
    accepted items and hands a full buffer to the sitemap writer, followed by
    the end-of-stream decision. Generic in the record type `R` and the item
    type `T`. */
module Batching {
  import opened Options

  /** One call of the sitemap writer: the batch, its index, and whether the
      file is written unnumbered (`ignoreIndex`). */
  datatype Flush<T> = Flush(items: seq<T>, index: nat, ignoreIndex: bool)

  /** What the handlers keep between records: the buffer, the number of
      batches flushed so far, and the flushes performed, in order. */
  datatype State<T> = State(buffer: seq<T>, counter: nat, flushes: seq<Flush<T>>)

  function Start<T>(): State<T> {
    State([], 0, [])
  }

  /** The data handler: buffer the transformed record unless the transform
      rejected it, then flush when the buffer length equals the limit. The
      length test runs after every record, accepted or not. */
  function OnData<R, T>(s: State<T>, record: R, transform: R -> Option<T>, limit: int): (r: State<T>)
    ensures |s.flushes| <= |r.flushes| <= |s.flushes| + 1 && r.flushes[..|s.flushes|] == s.flushes
    ensures r.counter == s.counter + (|r.flushes| - |s.flushes|)
    ensures |r.flushes| > |s.flushes| ==>
              && r.buffer == []
              && |r.flushes[|s.flushes|].items| == limit
              && r.flushes[|s.flushes|].index == s.counter
              && !r.flushes[|s.flushes|].ignoreIndex
    ensures Contents(r.flushes) + r.buffer
            == Contents(s.flushes) + s.buffer + (if transform(record).Some? then [transform(record).value] else [])
    ensures transform(record).None? && |s.buffer| != limit ==> r == s
    ensures 1 <= limit && |s.buffer| < limit ==> |r.buffer| < limit
  {
    var result := transform(record);
    var buffer := if result.Some? then s.buffer + [result.value] else s.buffer;
    if |buffer| == limit then
      var flushes := s.flushes + [Flush(buffer, s.counter, false)];
      assert flushes[..|s.flushes|] == s.flushes;
      State([], s.counter + 1, flushes)
    else State(buffer, s.counter, s.flushes)
  }

  /** The state after the data handler has seen every record, in order. */
  function Consume<R, T>(records: seq<R>, transform: R -> Option<T>, limit: int): (r: State<T>)
    ensures r.counter == |r.flushes|
    ensures forall i :: 0 <= i < |r.flushes| ==> r.flushes[i].index == i && !r.flushes[i].ignoreIndex
    decreases |records|
  {
    if |records| == 0 then Start()
    else
      var prev := Consume(records[..|records| - 1], transform, limit);
      var r := OnData(prev, records[|records| - 1], transform, limit);
      assert forall i :: 0 <= i < |prev.flushes| ==> r.flushes[i] == r.flushes[..|prev.flushes|][i];
      r
  }

  /** The end handler's decision: the final sitemap call, if any, and the
      number of index entries, if an index is written. */
  datatype Finish<T> = Finish(last: Option<Flush<T>>, indexCount: Option<nat>)

  /** The end handler as written: flush a non-empty buffer (unnumbered when
      nothing was flushed before), and when something was flushed before,
      write an index of `counter + 1` entries, whether or not the buffer was
      empty. */
  function OnEnd<T>(s: State<T>): (r: Finish<T>)
    ensures r.last.Some? <==> |s.buffer| > 0
    ensures r.last.Some? ==> r.last.value == Flush(s.buffer, s.counter, s.counter == 0)
    ensures r.indexCount.Some? <==> s.counter > 0
    ensures r.last == OnEndCorrected(s).last
    ensures (r.indexCount == OnEndCorrected(s).indexCount) <==> (s.counter == 0 || |s.buffer| > 0)
  {
    var ignoreIndex := s.counter == 0;
    Finish(
      if |s.buffer| > 0 then Some(Flush(s.buffer, s.counter, ignoreIndex)) else None,
      if !ignoreIndex then Some(s.counter + 1) else None)
  }

  /** The end handler with the index sized by the files actually written. */
  function OnEndCorrected<T>(s: State<T>): (r: Finish<T>)
    ensures r.indexCount.Some? <==> s.counter > 0
    ensures r.indexCount.Some? ==> r.indexCount.value == s.counter + (if r.last.Some? then 1 else 0)
  {
    var ignoreIndex := s.counter == 0;
    Finish(
      if |s.buffer| > 0 then Some(Flush(s.buffer, s.counter, ignoreIndex)) else None,
      if !ignoreIndex then Some(s.counter + (if |s.buffer| > 0 then 1 else 0)) else None)
  }

  /** The items the transform accepts, in arrival order. */
  function Accepted<R, T>(records: seq<R>, transform: R -> Option<T>): seq<T>
    decreases |records|
  {
    if |records| == 0 then []
    else
      var result := transform(records[|records| - 1]);
      Accepted(records[..|records| - 1], transform) + (if result.Some? then [result.value] else [])
  }

  /** The flushed batches, concatenated in order. */
  function Contents<T>(flushes: seq<Flush<T>>): seq<T>
    decreases |flushes|
  {
    if |flushes| == 0 then []
    else Contents(flushes[..|flushes| - 1]) + flushes[|flushes| - 1].items
  }

  /** What holds between records: the buffer is below the limit, every flush
      held exactly `limit` items and was numbered by its position, and the
      flushed batches followed by the buffer are exactly the accepted items. */
  ghost predicate Invariant<R, T>(s: State<T>, records: seq<R>, transform: R -> Option<T>, limit: int) {
    && |s.buffer| < limit
    && s.counter == |s.flushes|
    && (forall i :: 0 <= i < |s.flushes| ==>
          s.flushes[i].index == i && |s.flushes[i].items| == limit && !s.flushes[i].ignoreIndex)
    && Contents(s.flushes) + s.buffer == Accepted(records, transform)
  }

  lemma {:induction false} ConsumeInvariant<R, T>(records: seq<R>, transform: R -> Option<T>, limit: int)
    requires limit >= 1
    ensures Invariant(Consume(records, transform, limit), records, transform, limit)
    decreases |records|
  {
    if |records| > 0 {
      var prefix := records[..|records| - 1];
      ConsumeInvariant(prefix, transform, limit);
      var s := Consume(prefix, transform, limit);
      var result := transform(records[|records| - 1]);
      var buffer := if result.Some? then s.buffer + [result.value] else s.buffer;
      assert Accepted(records, transform) == Contents(s.flushes) + buffer;
      if |buffer| == limit {
        var flushes := s.flushes + [Flush(buffer, s.counter, false)];
        assert flushes[..|flushes| - 1] == s.flushes;
        assert Contents(flushes) == Contents(s.flushes) + buffer;
        assert Contents(flushes) + [] == Contents(flushes);
      }
    }
  }

  lemma {:induction false} ContentsLength<T>(flushes: seq<Flush<T>>, limit: nat)
    requires forall i :: 0 <= i < |flushes| ==> |flushes[i].items| == limit
    ensures |Contents(flushes)| == |flushes| * limit
    decreases |flushes|
  {
    if |flushes| > 0 {
      ContentsLength(flushes[..|flushes| - 1], limit);
      assert (|flushes| - 1) * limit + limit == |flushes| * limit;
    }
  }

  lemma {:induction false} MulLess(a: nat, b: nat, limit: nat)
    requires a < b
    ensures a * limit + limit <= b * limit
    decreases b - a
  {
    if b > a + 1 {
      MulLess(a, b - 1, limit);
      assert (b - 1) * limit + limit == b * limit;
    } else {
      assert (a + 1) * limit == a * limit + limit;
    }
  }

  /** Euclidean division is determined by quotient and remainder. */
  lemma DivMod(t: nat, k: nat, b: nat, limit: nat)
    requires 0 <= b < limit && t == k * limit + b
    ensures t / limit == k && t % limit == b
  {
    var q, c := t / limit, t % limit;
    assert t == q * limit + c;
    if q > k {
      MulLess(k, q, limit);
    } else if q < k {
      MulLess(q, k, limit);
    }
  }

  /** After the stream: `|accepted| / limit` full batches were flushed and the
      buffer holds the remaining `|accepted| % limit` items. */
  lemma ConsumeCounts<R, T>(records: seq<R>, transform: R -> Option<T>, limit: int)
    requires limit >= 1
    ensures Consume(records, transform, limit).counter == |Accepted(records, transform)| / limit
    ensures |Consume(records, transform, limit).buffer| == |Accepted(records, transform)| % limit
  {
    var s := Consume(records, transform, limit);
    ConsumeInvariant(records, transform, limit);
    ContentsLength(s.flushes, limit);
    DivMod(|Accepted(records, transform)|, s.counter, |s.buffer|, limit);
  }

  /** The reference partition: the items cut, from the front, into chunks of
      `limit` items, the last chunk holding what is left (never empty). */
  function Chunks<T>(all: seq<T>, limit: nat): seq<seq<T>>
    requires limit >= 1
    decreases |all|
  {
    if |all| == 0 then []
    else if |all| <= limit then [all]
    else [all[..limit]] + Chunks(all[limit..], limit)
  }

  /** The chunks laid end to end. */
  function Flatten<T>(chunks: seq<seq<T>>): seq<T>
    decreases |chunks|
  {
    if |chunks| == 0 then [] else chunks[0] + Flatten(chunks[1..])
  }

  /** Chunking loses, duplicates and reorders nothing: the chunks laid end to
      end are the items. */
  lemma {:induction false} ChunksFlatten<T>(all: seq<T>, limit: nat)
    requires limit >= 1
    ensures Flatten(Chunks(all, limit)) == all
    decreases |all|
  {
    if |all| > limit {
      var cs := Chunks(all, limit);
      ChunksFlatten(all[limit..], limit);
      assert cs[1..] == Chunks(all[limit..], limit);
      assert all[..limit] + all[limit..] == all;
    } else if |all| > 0 {
      assert Chunks(all, limit)[1..] == [];
      assert all + [] == all;
    }
  }

  /** There are `ceil(|all| / limit)` chunks. */
  lemma {:induction false} ChunkCount<T>(all: seq<T>, limit: nat)
    requires limit >= 1
    ensures |Chunks(all, limit)| == |all| / limit + (if |all| % limit == 0 then 0 else 1)
    decreases |all|
  {
    if 0 < |all| <= limit {
      if |all| == limit {
        DivMod(|all|, 1, 0, limit);
      } else {
        DivMod(|all|, 0, |all|, limit);
      }
    } else if |all| > limit {
      var tail := all[limit..];
      ChunkCount(tail, limit);
      var k, b := |tail| / limit, |tail| % limit;
      assert |all| == (k + 1) * limit + b;
      DivMod(|all|, k + 1, b, limit);
    }
  }

  /** Every chunk but the last is full, and the last is not empty. */
  lemma {:induction false} ChunksFull<T>(all: seq<T>, limit: nat)
    requires limit >= 1
    ensures forall i :: 0 <= i < |Chunks(all, limit)| - 1 ==> |Chunks(all, limit)[i]| == limit
    ensures |all| > 0 ==> 1 <= |Chunks(all, limit)[|Chunks(all, limit)| - 1]| <= limit
    decreases |all|
  {
    if |all| > limit {
      var cs := Chunks(all, limit);
      var tail := all[limit..];
      ChunksFull(tail, limit);
      assert cs == [all[..limit]] + Chunks(tail, limit);
      forall i | 0 <= i < |cs| - 1
        ensures |cs[i]| == limit
      {
        if i > 0 {
          assert cs[i] == Chunks(tail, limit)[i - 1];
        }
      }
    }
  }

  /** The last chunk holds `|all| % limit` items, or `limit` when that remainder is zero. */
  lemma {:induction false} LastChunk<T>(all: seq<T>, limit: nat)
    requires limit >= 1 && |all| > 0
    ensures |Chunks(all, limit)[|Chunks(all, limit)| - 1]| == (if |all| % limit == 0 then limit else |all| % limit)
    decreases |all|
  {
    if |all| <= limit {
      if |all| == limit {
        DivMod(|all|, 1, 0, limit);
      } else {
        DivMod(|all|, 0, |all|, limit);
      }
    } else {
      var tail := all[limit..];
      LastChunk(tail, limit);
      var k, b := |tail| / limit, |tail| % limit;
      assert |all| == (k + 1) * limit + b;
      DivMod(|all|, k + 1, b, limit);
    }
  }

  /** When the limit divides the items exactly, there are `|all| / limit`
      chunks, at least one, and the last of them is full. */
  lemma ExactChunkCount<T>(all: seq<T>, limit: nat)
    requires 1 <= limit <= |all| && |all| % limit == 0
    ensures 1 <= |Chunks(all, limit)| == |all| / limit
    ensures |Chunks(all, limit)[|Chunks(all, limit)| - 1]| == limit
  {
    ChunkCount(all, limit);
    assert |Chunks(all, limit)| >= 1;
    LastChunk(all, limit);
  }

  /** When the limit leaves a remainder, there are `|all| / limit + 1`
      chunks, and the last of them is partial: it holds the remainder. */
  lemma PartialChunkCount<T>(all: seq<T>, limit: nat)
    requires 1 <= limit && |all| % limit != 0
    ensures 1 <= |Chunks(all, limit)| == |all| / limit + 1
    ensures |Chunks(all, limit)[|Chunks(all, limit)| - 1]| == |all| % limit < limit
  {
    ChunkCount(all, limit);
    LastChunk(all, limit);
  }

  lemma {:induction false} ContentsCons<T>(f: Flush<T>, flushes: seq<Flush<T>>)
    ensures Contents([f] + flushes) == f.items + Contents(flushes)
    decreases |flushes|
  {
    if |flushes| > 0 {
      var fs := [f] + flushes;
      var n := |flushes| - 1;
      assert fs[..|fs| - 1] == [f] + flushes[..n];
      ContentsCons(f, flushes[..n]);
    } else {
      assert [f] + flushes == [f];
      assert [f][..0] == [];
    }
  }

  /** The item batches handed to the sitemap writer, in order. */
  function Batches<T>(flushes: seq<Flush<T>>): seq<seq<T>> {
    seq(|flushes|, i requires 0 <= i < |flushes| => flushes[i].items)
  }

  /** Full batches followed by a short non-empty remainder are the reference chunks. */
  lemma {:induction false} FlushesAreChunks<T>(flushes: seq<Flush<T>>, rest: seq<T>, all: seq<T>, limit: nat)
    requires limit >= 1
    requires forall i :: 0 <= i < |flushes| ==> |flushes[i].items| == limit
    requires |rest| < limit
    requires Contents(flushes) + rest == all
    ensures Batches(flushes) + (if |rest| > 0 then [rest] else []) == Chunks(all, limit)
    decreases |flushes|
  {
    if |flushes| == 0 {
      assert Contents(flushes) == [];
      assert all == rest;
      assert Batches(flushes) == [];
      assert Batches(flushes) + (if |rest| > 0 then [rest] else []) == (if |rest| > 0 then [rest] else []);
    } else {
      var f := flushes[0];
      var tail := flushes[1..];
      assert flushes == [f] + tail;
      ContentsCons(f, tail);
      var more := Contents(tail) + rest;
      assert all == f.items + more;
      assert Batches(flushes) == [f.items] + Batches(tail);
      ContentsLength(tail, limit);
      if |tail| > 0 {
        MulLess(0, |tail|, limit);
        assert |all| > limit;
      }
      if |all| <= limit {
        assert |tail| == 0 && rest == [];
        assert Batches(tail) == [];
        assert all == f.items;
      } else {
        assert all[..limit] == f.items;
        assert all[limit..] == more;
        FlushesAreChunks(tail, rest, more, limit);
      }
    }
  }

  /** With a limit of at least one, the flushes and the final buffer cut the
      accepted items exactly as the reference partition does, and the flushes
      are numbered 0, 1, 2, ... */
  lemma ConsumeChunks<R, T>(records: seq<R>, transform: R -> Option<T>, limit: int)
    requires limit >= 1
    ensures var s := Consume(records, transform, limit);
            && s.counter == |s.flushes| == |Accepted(records, transform)| / limit
            && |s.buffer| == |Accepted(records, transform)| % limit
            && (forall i :: 0 <= i < |s.flushes| ==> s.flushes[i].index == i && !s.flushes[i].ignoreIndex)
            && Batches(s.flushes) + (if |s.buffer| > 0 then [s.buffer] else [])
               == Chunks(Accepted(records, transform), limit)
  {
    var s := Consume(records, transform, limit);
    ConsumeInvariant(records, transform, limit);
    ConsumeCounts(records, transform, limit);
    FlushesAreChunks(s.flushes, s.buffer, Accepted(records, transform), limit);
  }

  /** Once the accepted items reach the limit, at least one batch was flushed mid-stream. */
  lemma ConsumeFlushed<R, T>(records: seq<R>, transform: R -> Option<T>, limit: int)
    requires 1 <= limit <= |Accepted(records, transform)|
    ensures Consume(records, transform, limit).counter >= 1
  {
    var s := Consume(records, transform, limit);
    ConsumeInvariant(records, transform, limit);
    ContentsLength(s.flushes, limit);
    assert s.counter * limit > 0;
  }

  // ----- the calls a run makes -----

  /** A call to one of the two writers: `generateSitemap` with a batch, its
      index and its `ignoreIndex` flag, or `generateSitemapIndex` with an
      entry count. */
  datatype Call<T> = WriteSitemap(items: seq<T>, index: nat, ignoreIndex: bool) | WriteIndex(count: nat)

  function SitemapCall<T>(f: Flush<T>): Call<T> {
    WriteSitemap(f.items, f.index, f.ignoreIndex)
  }

  /** The calls of a run: one per mid-stream flush, in order, then those of the end handler. */
  function CallsOf<T>(s: State<T>, fin: Finish<T>): seq<Call<T>> {
    seq(|s.flushes|, i requires 0 <= i < |s.flushes| => SitemapCall(s.flushes[i]))
    + (if fin.last.Some? then [SitemapCall(fin.last.value)] else [])
    + (if fin.indexCount.Some? then [WriteIndex(fin.indexCount.value)] else [])
  }

  /** The index call, if any, comes last, and an unnumbered sitemap call is
      the only call, when no flush is unnumbered and an unnumbered final
      flush comes with no earlier flush and no index. */
  lemma CallsShape<T>(s: State<T>, fin: Finish<T>)
    requires forall i :: 0 <= i < |s.flushes| ==> !s.flushes[i].ignoreIndex
    requires fin.last.Some? && fin.last.value.ignoreIndex ==> |s.flushes| == 0 && fin.indexCount.None?
    ensures var r := CallsOf(s, fin);
            && (forall i :: 0 <= i < |r| - 1 ==> r[i].WriteSitemap?)
            && (forall i :: 0 <= i < |r| && r[i].WriteSitemap? && r[i].ignoreIndex ==> |r| == 1)
  {
    var r := CallsOf(s, fin);
    assert forall i :: 0 <= i < |s.flushes| ==> r[i] == SitemapCall(s.flushes[i]);
  }

  /** The writer calls of a whole run, in the order they happen. */
  function Run<R, T>(records: seq<R>, transform: R -> Option<T>, limit: int): (r: seq<Call<T>>)
    ensures forall i :: 0 <= i < |r| - 1 ==> r[i].WriteSitemap?
    ensures forall i :: 0 <= i < |r| && r[i].WriteSitemap? && r[i].ignoreIndex ==> |r| == 1
  {
    var s := Consume(records, transform, limit);
    CallsShape(s, OnEnd(s));
    CallsOf(s, OnEnd(s))
  }

  /** The same run with the corrected end handler. */
  function RunCorrected<R, T>(records: seq<R>, transform: R -> Option<T>, limit: int): (r: seq<Call<T>>)
    ensures forall i :: 0 <= i < |r| - 1 ==> r[i].WriteSitemap?
    ensures forall i :: 0 <= i < |r| && r[i].WriteSitemap? && r[i].ignoreIndex ==> |r| == 1
  {
    var s := Consume(records, transform, limit);
    CallsShape(s, OnEndCorrected(s));
    CallsOf(s, OnEndCorrected(s))
  }

  /** The calls a multi-file run is meant to make: chunk `i` as numbered
      sitemap `i`, in order, then an index of `count` entries. */
  function NumberedCalls<T>(chunks: seq<seq<T>>, count: nat): seq<Call<T>> {
    seq(|chunks|, i requires 0 <= i < |chunks| => WriteSitemap(chunks[i], i, false)) + [WriteIndex(count)]
  }

  /** When nothing is accepted (in particular, for no records at all), nothing is written. */
  lemma NothingAccepted<R, T>(records: seq<R>, transform: R -> Option<T>, limit: int)
    requires limit >= 1
    requires |Accepted(records, transform)| == 0
    ensures Run(records, transform, limit) == []
    ensures RunCorrected(records, transform, limit) == []
  {
    ConsumeChunks(records, transform, limit);
  }

  /** Fewer accepted items than the limit: one unnumbered sitemap holding all
      of them, and no index. */
  lemma SingleSitemap<R, T>(records: seq<R>, transform: R -> Option<T>, limit: int)
    requires 0 < |Accepted(records, transform)| < limit
    ensures Run(records, transform, limit) == [WriteSitemap(Accepted(records, transform), 0, true)]
    ensures RunCorrected(records, transform, limit) == Run(records, transform, limit)
  {
    var s := Consume(records, transform, limit);
    ConsumeInvariant(records, transform, limit);
    ContentsLength(s.flushes, limit);
    assert |s.flushes| == 0;
    assert Contents(s.flushes) == [];
    assert s.buffer == Accepted(records, transform);
  }

  /** The calls assembled from a state whose flushes are numbered 0, 1, ... and,
      with the buffer, form `chunks`, when at least one flush happened. */
  lemma CallsNumbered<T>(s: State<T>, chunks: seq<seq<T>>, fin: Finish<T>)
    requires s.counter == |s.flushes| >= 1
    requires forall i :: 0 <= i < |s.flushes| ==> s.flushes[i].index == i && !s.flushes[i].ignoreIndex
    requires Batches(s.flushes) + (if |s.buffer| > 0 then [s.buffer] else []) == chunks
    requires fin.last == (if |s.buffer| > 0 then Some(Flush(s.buffer, s.counter, false)) else None)
    requires fin.indexCount.Some?
    ensures CallsOf(s, fin) == NumberedCalls(chunks, fin.indexCount.value)
  {
    var calls := CallsOf(s, fin);
    var expected := NumberedCalls(chunks, fin.indexCount.value);
    assert |calls| == |expected|;
    forall i | 0 <= i < |calls|
      ensures calls[i] == expected[i]
    {
      if i < |s.flushes| {
        assert chunks[i] == Batches(s.flushes)[i];
      } else if i < |chunks| {
        assert chunks[i] == s.buffer;
      }
    }
  }

  /** At least as many accepted items as the limit: chunk `i` of the accepted
      items goes to numbered sitemap `i`, in order, and the index comes last
      with `|accepted| / limit + 1` entries, one per mid-stream flush plus one,
      whether or not a remainder was left for the end handler. */
  lemma NumberedSitemaps<R, T>(records: seq<R>, transform: R -> Option<T>, limit: int)
    requires 1 <= limit <= |Accepted(records, transform)|
    ensures Run(records, transform, limit)
            == NumberedCalls(Chunks(Accepted(records, transform), limit),
                             |Accepted(records, transform)| / limit + 1)
  {
    var s := Consume(records, transform, limit);
    ConsumeChunks(records, transform, limit);
    ConsumeFlushed(records, transform, limit);
    CallsNumbered(s, Chunks(Accepted(records, transform), limit), OnEnd(s));
  }

  /** With the corrected end handler the index has one entry per chunk. */
  lemma NumberedSitemapsCorrected<R, T>(records: seq<R>, transform: R -> Option<T>, limit: int)
    requires 1 <= limit <= |Accepted(records, transform)|
    ensures RunCorrected(records, transform, limit)
            == NumberedCalls(Chunks(Accepted(records, transform), limit),
                             |Chunks(Accepted(records, transform), limit)|)
  {
    var s := Consume(records, transform, limit);
    ConsumeChunks(records, transform, limit);
    ConsumeFlushed(records, transform, limit);
    CallsNumbered(s, Chunks(Accepted(records, transform), limit), OnEndCorrected(s));
  }
}
