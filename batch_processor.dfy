/**
 * embeddings/batch_processor.py, BatchProcessor: create_batches cuts the chunk
 * list into consecutive slices of at most BATCH_SIZE, and process_all_batches
 * runs each batch through process_batch and keeps the output of the batches
 * that succeed, in order.
 */
module Batches {
  import opened Text

  function Min(a: int, b: int): int
  {
    if a <= b then a else b
  }

  /** The batches create_batches returns: a slice of `size` from each multiple of `size`, the last one possibly shorter. */
  function BatchesOf<T>(chunks: seq<T>, size: nat): seq<seq<T>>
    requires size > 0
    decreases |chunks|
  {
    if chunks == [] then []
    else if |chunks| <= size then [chunks]
    else [chunks[..size]] + BatchesOf(chunks[size..], size)
  }

  /** chunks[i:i + size] for each i in range(0, len(chunks), size). */
  method CreateBatches<T>(chunks: seq<T>, size: nat) returns (batches: seq<seq<T>>)
    requires size > 0
    ensures batches == BatchesOf(chunks, size)
  {
    batches := [];
    var i := 0;
    while i < |chunks|
      invariant 0 <= i
      invariant batches + BatchesOf(chunks[Min(i, |chunks|)..], size) == BatchesOf(chunks, size)
      decreases |chunks| - i
    {
      var batch := chunks[i..Min(i + size, |chunks|)];
      BatchesFrom(chunks, size, i);
      AppendAssoc(batches, [batch], BatchesOf(chunks[Min(i + size, |chunks|)..], size));
      batches := batches + [batch];
      i := i + size;
    }
  }

  /** From position i on, the batches are the slice at i followed by the batches after it. */
  lemma BatchesFrom<T>(chunks: seq<T>, size: nat, i: nat)
    requires size > 0 && i < |chunks|
    ensures BatchesOf(chunks[i..], size)
         == [chunks[i..Min(i + size, |chunks|)]] + BatchesOf(chunks[Min(i + size, |chunks|)..], size)
  {
    var rest := chunks[i..];
    if |rest| > size {
      assert rest[..size] == chunks[i..i + size];
      assert rest[size..] == chunks[i + size..];
    } else {
      assert rest == chunks[i..|chunks|];
      assert chunks[|chunks|..] == [];
    }
  }

  lemma AppendAssoc<T>(a: seq<T>, b: seq<T>, c: seq<T>)
    ensures a + b + c == a + (b + c)
  {
  }

  /** The batches, put back together, are the chunks in order. */
  lemma {:induction false} BatchesConcat<T>(chunks: seq<T>, size: nat)
    requires size > 0
    ensures Concat(BatchesOf(chunks, size)) == chunks
    decreases |chunks|
  {
    if |chunks| > size {
      BatchesConcat(chunks[size..], size);
      ConcatAppend([chunks[..size]], BatchesOf(chunks[size..], size));
      assert Concat([chunks[..size]]) == chunks[..size] by {
        assert [chunks[..size]][..0] == [];
      }
      assert chunks[..size] + chunks[size..] == chunks;
    } else if chunks != [] {
      assert [chunks][..0] == [];
    }
  }

  /** Each batch holds 1 to `size` chunks, and every one but the last exactly `size`. */
  lemma {:induction false} BatchesSizes<T>(chunks: seq<T>, size: nat)
    requires size > 0
    ensures forall k :: 0 <= k < |BatchesOf(chunks, size)| ==> 1 <= |BatchesOf(chunks, size)[k]| <= size
    ensures forall k :: 0 <= k < |BatchesOf(chunks, size)| - 1 ==> |BatchesOf(chunks, size)[k]| == size
    decreases |chunks|
  {
    if |chunks| > size {
      var rest := BatchesOf(chunks[size..], size);
      BatchesSizes(chunks[size..], size);
      var bs := [chunks[..size]] + rest;
      assert forall k :: 0 < k < |bs| ==> bs[k] == rest[k - 1];
    }
  }

  lemma MulMonotone(a: int, b: int, size: int)
    requires size >= 0
    ensures a <= b ==> a * size <= b * size
  {
  }

  /** Integer division pinned down by the quotient's range. */
  lemma DivBetween(x: int, size: int, q: int)
    requires size > 0 && q * size <= x < q * size + size
    ensures x / size == q
  {
    var d, r := x / size, x % size;
    assert x == d * size + r && 0 <= r < size;
    MulMonotone(q + 1, d, size);
    MulMonotone(d, q - 1, size);
  }

  /** There are ceil(len(chunks) / size) batches; none for no chunks. */
  lemma {:induction false} BatchesCount<T>(chunks: seq<T>, size: nat)
    requires size > 0
    ensures |BatchesOf(chunks, size)| == (|chunks| + size - 1) / size
    ensures chunks == [] <==> BatchesOf(chunks, size) == []
    decreases |chunks|
  {
    var n := |chunks|;
    if n > size {
      BatchesCount(chunks[size..], size);
      var q := (n - size + size - 1) / size;
      DivBetween(n - 1, size, q);
      DivBetween(n + size - 1, size, q + 1);
    } else if n > 0 {
      DivBetween(n + size - 1, size, 1);
    } else {
      DivBetween(size - 1, size, 0);
    }
  }

  /**
   * Any split of the chunks into consecutive batches of 1 to `size`, all but
   * the last full, is the one create_batches makes.
   */
  lemma {:induction false} BatchesOfUnique<T>(chunks: seq<T>, size: nat, bs: seq<seq<T>>)
    requires size > 0
    requires Concat(bs) == chunks
    requires forall k :: 0 <= k < |bs| ==> 1 <= |bs[k]| <= size
    requires forall k :: 0 <= k < |bs| - 1 ==> |bs[k]| == size
    ensures bs == BatchesOf(chunks, size)
    decreases |bs|
  {
    if bs == [] {
    } else if |bs| == 1 {
      assert bs == [bs[0]] && bs[..0] == [];
      assert Concat(bs) == Concat(bs[..0]) + bs[0];
      assert bs[0] == chunks && 1 <= |chunks| <= size;
    } else {
      var tail := bs[1..];
      ConcatAppend([bs[0]], tail);
      assert bs == [bs[0]] + tail;
      assert Concat([bs[0]]) == bs[0] by {
        assert [bs[0]][..0] == [];
      }
      assert |bs[0]| == size;
      assert chunks[..size] == bs[0] && chunks[size..] == Concat(tail);
      assert |Concat(tail)| > 0 by {
        ConcatAppend(tail[..|tail| - 1], [tail[|tail| - 1]]);
        assert [tail[|tail| - 1]][..0] == [];
        assert tail[..|tail| - 1] + [tail[|tail| - 1]] == tail;
      }
      BatchesOfUnique(chunks[size..], size, tail);
    }
  }

  /** What one batch adds to all_processed_chunks: its output if it succeeded, nothing otherwise. */
  function Contribution<T, U>(result: (seq<U>, bool)): seq<U>
  {
    if result.1 then result.0 else []
  }

  /**
   * all_processed_chunks after the loop has seen `batches`, the first batch
   * numbered 1; `process` stands for process_batch.
   */
  function Collected<T, U>(batches: seq<seq<T>>, total: nat, process: (seq<T>, nat, nat) -> (seq<U>, bool)): seq<U>
  {
    if batches == [] then []
    else
      var n := |batches|;
      Collected(batches[..n - 1], total, process) + Contribution<T, U>(process(batches[n - 1], n, total))
  }

  method ProcessAllBatches<T, U>(chunks: seq<T>, size: nat, process: (seq<T>, nat, nat) -> (seq<U>, bool))
    returns (allProcessed: seq<U>)
    requires size > 0
    ensures var bs := BatchesOf(chunks, size); allProcessed == Collected(bs, |bs|, process)
  {
    var batches := CreateBatches(chunks, size);
    allProcessed := [];
    var i := 1;
    while i <= |batches|
      invariant 1 <= i <= |batches| + 1
      invariant allProcessed == Collected(batches[..i - 1], |batches|, process)
    {
      var (processedChunks, success) := process(batches[i - 1], i, |batches|);
      assert batches[..i][..i - 1] == batches[..i - 1];
      if success {
        allProcessed := allProcessed + processedChunks;
      }
      i := i + 1;
    }
    assert batches[..i - 1] == batches;
  }

  /** The same result, written as one flattening over the batches in order: batch k (1-based) contributes its output exactly when it succeeds. */
  lemma {:induction false} CollectedConcat<T, U>(batches: seq<seq<T>>, total: nat, process: (seq<T>, nat, nat) -> (seq<U>, bool))
    ensures Collected(batches, total, process)
      == Concat(seq(|batches|, k requires 0 <= k < |batches| => Contribution<T, U>(process(batches[k], k + 1, total))))
    decreases |batches|
  {
    if batches != [] {
      var n := |batches|;
      CollectedConcat(batches[..n - 1], total, process);
      var all := seq(n, k requires 0 <= k < n => Contribution<T, U>(process(batches[k], k + 1, total)));
      var init := seq(n - 1, k requires 0 <= k < n - 1 => Contribution<T, U>(process(batches[..n - 1][k], k + 1, total)));
      assert all[..n - 1] == init;
    }
  }

  /**
   * When process_batch turns each chunk of a successful batch into one
   * processed chunk and every batch succeeds, every chunk comes out; when no
   * batch succeeds, none does.
   */
  lemma {:induction false} CollectedCount<T, U>(batches: seq<seq<T>>, total: nat, process: (seq<T>, nat, nat) -> (seq<U>, bool))
    requires forall k :: 0 <= k < |batches| ==> var r := process(batches[k], k + 1, total); r.1 ==> |r.0| == |batches[k]|
    ensures (forall k :: 0 <= k < |batches| ==> process(batches[k], k + 1, total).1) ==>
      |Collected(batches, total, process)| == |Concat(batches)|
    ensures (forall k :: 0 <= k < |batches| ==> !process(batches[k], k + 1, total).1) ==>
      Collected(batches, total, process) == []
    decreases |batches|
  {
    if batches != [] {
      var n := |batches|;
      var init := batches[..n - 1];
      assert forall k :: 0 <= k < n - 1 ==> init[k] == batches[k];
      CollectedCount(init, total, process);
    }
  }
}
