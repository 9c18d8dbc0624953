/**
 * The batching law shared by `generate_accounts` and
 * `generate_transactions`: records are appended to a batch, the batch is
 * emitted once it holds `batch_size` records, and a final partial batch is
 * emitted if non-empty.
 */
module Batching {

  /**
   * The effective batch size: the test `len(batch) >= batch_size` holds after
   * every append when `batch_size < 1`, so such a size behaves as 1.
   */
  function BatchCap(batchSize: int): nat {
    if batchSize < 1 then 1 else batchSize
  }

  /** The batches emitted for `records`, each of `k` records but the last. */
  function Chunks<T>(records: seq<T>, k: nat): seq<seq<T>>
    requires k >= 1
    decreases |records|
  {
    if records == [] then []
    else if |records| <= k then [records]
    else [records[..k]] + Chunks(records[k..], k)
  }

  /** The records of a sequence of batches, in order. */
  function Flatten<T>(batches: seq<seq<T>>): seq<T> {
    if batches == [] then [] else batches[0] + Flatten(batches[1..])
  }

  /** Every batch but the last has exactly `k` records; the last is non-empty. */
  ghost predicate IsBatching<T>(batches: seq<seq<T>>, k: nat) {
    && (forall i :: 0 <= i < |batches| - 1 ==> |batches[i]| == k)
    && (batches != [] ==> 0 < |batches[|batches| - 1]| <= k)
  }

  /**
   * The law of the generators: concatenating the batches gives back the
   * records in order, every batch but the last is full and the last is
   * non-empty, and there are no batches exactly when there are no records.
   */
  lemma {:induction false} ChunksLaw<T>(records: seq<T>, k: nat)
    requires k >= 1
    ensures Flatten(Chunks(records, k)) == records
    ensures IsBatching(Chunks(records, k), k)
    ensures Chunks(records, k) == [] <==> records == []
    decreases |records|
  {
    if |records| > k {
      var rest := records[k..];
      ChunksLaw(rest, k);
      var tail := Chunks(rest, k);
      assert Chunks(records, k) == [records[..k]] + tail;
      FlattenCons(records[..k], tail);
      assert records == records[..k] + rest;
      BatchingCons(records[..k], tail, k);
    } else if records != [] {
      assert Chunks(records, k) == [records];
      assert Flatten([records]) == records + Flatten<T>([]);
    }
  }

  lemma FlattenCons<T>(b: seq<T>, tail: seq<seq<T>>)
    ensures Flatten([b] + tail) == b + Flatten(tail)
  {
    assert ([b] + tail)[1..] == tail;
  }

  /** A full batch in front of a non-empty batching is again a batching. */
  lemma BatchingCons<T>(b: seq<T>, tail: seq<seq<T>>, k: nat)
    requires |b| == k && tail != [] && IsBatching(tail, k)
    ensures IsBatching([b] + tail, k)
  {
    var cs := [b] + tail;
    forall i | 0 <= i < |cs| - 1 ensures |cs[i]| == k {
      if i > 0 { assert cs[i] == tail[i - 1]; }
    }
    assert cs[|cs| - 1] == tail[|tail| - 1];
  }

  lemma {:induction false} FlattenAppend<T>(batches: seq<seq<T>>, b: seq<T>)
    ensures Flatten(batches + [b]) == Flatten(batches) + b
    decreases |batches|
  {
    if batches == [] {
      assert Flatten([b]) == b + Flatten<T>([]);
    } else {
      assert (batches + [b])[1..] == batches[1..] + [b];
      FlattenAppend(batches[1..], b);
    }
  }

  /**
   * What the generator loop keeps: full batches already emitted plus a
   * partial batch are the chunks of everything appended so far.
   */
  lemma {:induction false} ChunksOfFullBatches<T>(full: seq<seq<T>>, tail: seq<T>, k: nat)
    requires k >= 1
    requires forall i :: 0 <= i < |full| ==> |full[i]| == k
    requires |tail| < k
    ensures Chunks(Flatten(full) + tail, k) == full + (if tail == [] then [] else [tail])
    decreases |full|
  {
    if full == [] {
      assert Flatten(full) + tail == tail;
    } else {
      var b, rest := full[0], full[1..];
      var s := Flatten(full) + tail;
      var r := Flatten(rest) + tail;
      assert s == b + r;
      ChunksOfFullBatches(rest, tail, k);
      assert rest != [] ==> |Flatten(rest)| >= |rest[0]| == k;
      if r == [] {
        assert full == [b];
      } else {
        assert s[..k] == b && s[k..] == r;
        assert full == [b] + rest;
      }
    }
  }

  /** One step of a generator loop: append the next record, emit a full batch. */
  lemma BatchStep<T>(full: seq<seq<T>>, batch: seq<T>, all: seq<T>, i: nat, k: nat)
    requires k >= 1 && i < |all|
    requires Flatten(full) + batch == all[..i]
    ensures Flatten(full) + (batch + [all[i]]) == all[..i + 1]
    ensures Flatten(full + [batch + [all[i]]]) == all[..i + 1]
  {
    assert all[..i + 1] == all[..i] + [all[i]];
    FlattenAppend(full, batch + [all[i]]);
  }

  /**
   * The end of a generator loop: emitting the partial batch, if any, leaves
   * exactly the chunks of all records.
   */
  lemma BatchFinish<T>(full: seq<seq<T>>, batch: seq<T>, all: seq<T>, k: nat)
    requires k >= 1
    requires forall j :: 0 <= j < |full| ==> |full[j]| == k
    requires |batch| < k
    requires Flatten(full) + batch == all
    ensures full + (if batch == [] then [] else [batch]) == Chunks(all, k)
    ensures Flatten(Chunks(all, k)) == all && IsBatching(Chunks(all, k), k)
    ensures Chunks(all, k) == [] <==> all == []
  {
    ChunksOfFullBatches(full, batch, k);
    ChunksLaw(all, k);
  }
}
