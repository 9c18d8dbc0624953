/**
 * The batch built by `run_write_test` in both clients: `count` new
 * transactions with ids from the write-id offset on, the clock reading of
 * each row as its timestamp, two skewed account picks, and, in the
 * time-partitioned variant, the Day key of the date the test started on.
 * Timing the store call and the throughput it reports are not modelled.
 */
module WriteTest {
  import opened Base
  import opened Config
  import opened Skew
  import opened TemporalKeys
  import opened Generator

  datatype WriteRow = WriteRow(id: int, ts: int, fromAcc: int, toAcc: int, dayKey: Option<string>)

  /** The inputs of one row: the clock reading `int(time.time())` and the two draws of `_pick_account_id`. */
  datatype WriteDraw = WriteDraw(now: int, fromDraw: real, toDraw: real)

  /**
   * The loop of `run_write_test`. Row `i` has id `WriteIdOffset + i`, the
   * row's own clock reading, account picks from its draws (valid account ids
   * when there are accounts), and the same Day key, `today`'s, on every row
   * of the time-partitioned variant.
   */
  method BuildWriteBatch(schema: Schema, numAccounts: nat, count: nat, today: Date, draws: seq<WriteDraw>)
    returns (batch: seq<WriteRow>)
    requires |draws| == count
    requires forall k :: 0 <= k < |draws| ==> 0.0 <= draws[k].fromDraw < 1.0 && 0.0 <= draws[k].toDraw < 1.0
    ensures |batch| == count
    ensures forall i :: 0 <= i < count ==>
      && batch[i].id == WriteIdOffset + i
      && batch[i].ts == draws[i].now
      && batch[i].fromAcc == PickAccountId(numAccounts, draws[i].fromDraw)
      && batch[i].toAcc == PickAccountId(numAccounts, draws[i].toDraw)
    ensures numAccounts > 0 ==> forall i :: 0 <= i < count ==>
      0 <= batch[i].fromAcc < numAccounts && 0 <= batch[i].toAcc < numAccounts
    ensures forall i :: 0 <= i < count ==>
      batch[i].dayKey == (if schema == Temporal then Some(DayKey(today)) else None)
    ensures forall i, j :: 0 <= i < j < count ==> batch[i].id < batch[j].id
  {
    var dayKey: Option<string> := if schema == Temporal then Some(DayKey(today)) else None;
    batch := [];
    var i := 0;
    while i < count
      invariant 0 <= i <= count
      invariant |batch| == i
      invariant forall k :: 0 <= k < i ==>
        && batch[k].id == WriteIdOffset + k
        && batch[k].ts == draws[k].now
        && batch[k].fromAcc == PickAccountId(numAccounts, draws[k].fromDraw)
        && batch[k].toAcc == PickAccountId(numAccounts, draws[k].toDraw)
        && batch[k].dayKey == dayKey
    {
      var d := draws[i];
      batch := batch + [WriteRow(WriteIdOffset + i, d.now, PickAccountId(numAccounts, d.fromDraw),
                                 PickAccountId(numAccounts, d.toDraw), dayKey)];
      i := i + 1;
    }
  }

  /**
   * The write-id offset keeps the write test clear of generated data: for
   * every dataset preset, each generated transaction id lies below every
   * write-test id.
   */
  lemma WriteIdsAboveGenerated(name: string, generatedId: nat, row: nat)
    requires name in DatasetSizes && generatedId < DatasetSizes[name].transactions
    ensures generatedId < WriteIdOffset + row
  {
    assert name in {"xs", "sm", "md", "lg", "full"};
    assert DatasetSizes[name].transactions <= 1_200_000_000;
  }
}
