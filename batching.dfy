/**
  `batch_data_generator` of concepts/thread_pool_requests.py: splits a stream of items into
  consecutive batches of `batch_size` items, followed by one final partial batch if any item is
  left over. The generator is modelled by the sequence of batches it yields.
 */
module Batching {

  /** The items of the batches, batch after batch. */
  function Flatten<T>(batches: seq<seq<T>>): seq<T>
  {
    if batches == [] then [] else Flatten(batches[..|batches| - 1]) + batches[|batches| - 1]
  }

  /**
    The batching promise: the batches concatenate to the source, none is empty, none holds more
    than `batchSize` items, and all but the last hold exactly `batchSize`.
   */
  ghost predicate IsBatching<T>(source: seq<T>, batches: seq<seq<T>>, batchSize: int)
  {
    && Flatten(batches) == source
    && (forall i :: 0 <= i < |batches| ==> 1 <= |batches[i]| <= batchSize)
    && (forall i :: 0 <= i < |batches| - 1 ==> |batches[i]| == batchSize)
  }

  /**
    Reference definition: cut the first `batchSize` items off the front until at most
    `batchSize` are left, which (if any) form the last batch.
   */
  function Chunks<T>(source: seq<T>, batchSize: int): seq<seq<T>>
    requires batchSize >= 1
    decreases |source|
  {
    if source == [] then []
    else if |source| <= batchSize then [source]
    else [source[..batchSize]] + Chunks(source[batchSize..], batchSize)
  }

  /**
    Yields the batches of `source`: for a `batchSize` of at least one they are exactly the
    reference chunks, there are ceil(|source| / batchSize) of them, and they satisfy the
    batching promise. A `batchSize` below one is never matched by a batch that has just grown,
    so the whole source comes out as one batch.
   */
  method BatchData<T>(source: seq<T>, batchSize: int) returns (batches: seq<seq<T>>)
    ensures Flatten(batches) == source
    ensures forall i :: 0 <= i < |batches| ==> |batches[i]| >= 1
    ensures batches == [] <==> source == []
    ensures batchSize >= 1 ==> IsBatching(source, batches, batchSize)
    ensures batchSize >= 1 ==> batches == Chunks(source, batchSize)
    ensures batchSize >= 1 ==> |batches| == (|source| + batchSize - 1) / batchSize
    ensures batchSize < 1 ==> batches == if source == [] then [] else [source]
  {
    batches := [];
    var batch: seq<T> := [];
    for n := 0 to |source|
      invariant Flatten(batches) + batch == source[..n]
      invariant batchSize < 1 ==> |batches| == 0
      invariant batchSize >= 1 ==> |batch| < batchSize
      invariant batchSize >= 1 ==> forall i :: 0 <= i < |batches| ==> |batches[i]| == batchSize
    {
      assert source[..n + 1] == source[..n] + [source[n]];
      batch := batch + [source[n]];
      if |batch| == batchSize {
        FlattenSnoc(batches, batch);
        ghost var prev := batches;
        batches := batches + [batch];
        assert forall i :: 0 <= i < |prev| ==> batches[i] == prev[i];
        batch := [];
      }
    }
    assert source[..|source|] == source;
    ghost var full := batches;
    if batch != [] {
      batches := batches + [batch];
    }
    CloseBatching(source, full, batch, batchSize, batches);
  }

  /**
    What the loop has built when the input is exhausted (full batches and the leftover items)
    gives, once the leftover is yielded, everything `BatchData` promises.
   */
  lemma CloseBatching<T>(source: seq<T>, full: seq<seq<T>>, batch: seq<T>, batchSize: int,
                         batches: seq<seq<T>>)
    requires batches == if batch == [] then full else full + [batch]
    requires Flatten(full) + batch == source
    requires batchSize < 1 ==> |full| == 0
    requires batchSize >= 1 ==> |batch| < batchSize
    requires batchSize >= 1 ==> forall i :: 0 <= i < |full| ==> |full[i]| == batchSize
    ensures Flatten(batches) == source
    ensures forall i :: 0 <= i < |batches| ==> |batches[i]| >= 1
    ensures batches == [] <==> source == []
    ensures batchSize >= 1 ==> IsBatching(source, batches, batchSize)
    ensures batchSize >= 1 ==> batches == Chunks(source, batchSize)
    ensures batchSize >= 1 ==> |batches| == (|source| + batchSize - 1) / batchSize
    ensures batchSize < 1 ==> batches == if source == [] then [] else [source]
  {
    if batch != [] {
      FlattenSnoc(full, batch);
    }
    assert Flatten(batches) == source;
    if batchSize < 1 {
      assert Flatten(full) == [] && batch == source;
      assert batch != [] ==> batches == [batch];
    }
    if batchSize >= 1 {
      assert IsBatching(source, batches, batchSize);
      BatchingUnique(source, batches, batchSize);
      ChunksCount(source, batchSize);
    }
  }

  lemma FlattenSnoc<T>(batches: seq<seq<T>>, batch: seq<T>)
    ensures Flatten(batches + [batch]) == Flatten(batches) + batch
  {
    assert (batches + [batch])[..|batches|] == batches;
  }

  /** Flattening also peels off from the front. */
  lemma {:induction false} FlattenCons<T>(batch: seq<T>, batches: seq<seq<T>>)
    ensures Flatten([batch] + batches) == batch + Flatten(batches)
    decreases |batches|
  {
    if batches == [] {
      assert [batch] + batches == [] + [batch];
      FlattenSnoc([], batch);
    } else {
      var init := batches[..|batches| - 1];
      var last := batches[|batches| - 1];
      assert batches == init + [last];
      assert [batch] + batches == ([batch] + init) + [last];
      FlattenSnoc([batch] + init, last);
      FlattenCons(batch, init);
      FlattenSnoc(init, last);
    }
  }

  /** The reference chunks keep the batching promise. */
  lemma {:induction false} ChunksIsBatching<T>(source: seq<T>, batchSize: int)
    requires batchSize >= 1
    ensures IsBatching(source, Chunks(source, batchSize), batchSize)
    decreases |source|
  {
    if source == [] {
    } else if |source| <= batchSize {
      assert [source] == [] + [source];
      FlattenSnoc([], source);
    } else {
      ChunksIsBatching(source[batchSize..], batchSize);
      assert source[..batchSize] + source[batchSize..] == source;
      ConsIsBatching(source[..batchSize], source[batchSize..], Chunks(source[batchSize..], batchSize), batchSize);
    }
  }

  /** A full batch in front of a batching of the rest is a batching of the whole. */
  lemma ConsIsBatching<T>(first: seq<T>, tail: seq<T>, rest: seq<seq<T>>, batchSize: int)
    requires |first| == batchSize && tail != [] && IsBatching(tail, rest, batchSize)
    ensures IsBatching(first + tail, [first] + rest, batchSize)
  {
    FlattenCons(first, rest);
    var all := [first] + rest;
    forall i | 1 <= i < |all| ensures all[i] == rest[i - 1] { }
  }

  /** There are ceil(|source| / batchSize) reference chunks. */
  lemma {:induction false} ChunksCount<T>(source: seq<T>, batchSize: int)
    requires batchSize >= 1
    ensures |Chunks(source, batchSize)| == (|source| + batchSize - 1) / batchSize
    decreases |source|
  {
    var n := |source|;
    if source == [] {
      DivUnique(batchSize - 1, batchSize, 0, batchSize - 1);
    } else if n <= batchSize {
      DivUnique(n + batchSize - 1, batchSize, 1, n - 1);
    } else {
      ChunksCount(source[batchSize..], batchSize);
      var q := (n - 1) / batchSize;
      var t := (n - 1) % batchSize;
      assert n - 1 == q * batchSize + t && 0 <= t < batchSize;
      assert n + batchSize - 1 == (q + 1) * batchSize + t;
      DivUnique(n + batchSize - 1, batchSize, q + 1, t);
    }
  }

  /**
    The batching promise determines the batches: any batching of `source` is the reference
    chunking.
   */
  lemma {:induction false} BatchingUnique<T>(source: seq<T>, batches: seq<seq<T>>, batchSize: int)
    requires batchSize >= 1 && IsBatching(source, batches, batchSize)
    ensures batches == Chunks(source, batchSize)
    decreases |batches|
  {
    if batches == [] {
      assert source == [];
    } else {
      var first := batches[0];
      var rest := batches[1..];
      assert batches == [first] + rest;
      FlattenCons(first, rest);
      assert source == first + Flatten(rest);
      if rest == [] {
        assert source == first;
      } else {
        assert |first| == batchSize;
        assert |Flatten(rest)| >= 1;
        assert source[..batchSize] == first;
        assert source[batchSize..] == Flatten(rest);
        assert IsBatching(Flatten(rest), rest, batchSize) by {
          forall i | 0 <= i < |rest| ensures 1 <= |rest[i]| <= batchSize {
            assert rest[i] == batches[i + 1];
          }
          forall i | 0 <= i < |rest| - 1 ensures |rest[i]| == batchSize {
            assert rest[i] == batches[i + 1];
          }
        }
        BatchingUnique(Flatten(rest), rest, batchSize);
      }
    }
  }

  /** Euclidean division is determined by quotient and remainder. */
  lemma DivUnique(x: int, b: int, a: int, t: int)
    requires b >= 1 && 0 <= t < b && x == a * b + t
    ensures x / b == a
  {
    var d := x / b;
    var m := x % b;
    assert x == d * b + m && 0 <= m < b;
    assert (a - d) * b == m - t;
    MulSign(a - d, b);
  }

  /** A non-zero multiple of a positive `b` is at least `b` away from zero. */
  lemma {:induction false} MulSign(k: int, b: int)
    requires b >= 1
    ensures k >= 1 ==> k * b >= b
    ensures k <= -1 ==> k * b <= -b
    decreases if k < 0 then -k else k
  {
    if k > 1 {
      MulSign(k - 1, b);
      assert k * b == (k - 1) * b + b;
    } else if k < -1 {
      MulSign(k + 1, b);
      assert k * b == (k + 1) * b - b;
    }
  }
}
