/**
 * The synthetic workload generator (`DataGenerator` in the flat variant,
 * `OptimizedDataGenerator` in the time-partitioned one). The generators
 * append records to a batch and hand the batch out once it is full; here
 * each generator is a loop that collects the batches it would yield.
 * Random draws and `datetime.fromtimestamp` are inputs.
 */
module Generator {
  import opened Base
  import opened Text
  import opened Config
  import opened Skew
  import opened Batching
  import opened TemporalKeys

  /** The two harness variants: flat schema, or transactions linked into Month/Day buckets. */
  datatype Schema = Flat | Temporal

  datatype AccountKind = Standard | Premium

  /** The denormalised counters of the time-partitioned variant, all 0 at creation. */
  datatype Velocity = Velocity(lastHour: int, lastDay: int, recentTxnCount: int)

  datatype Account = Account(
    id: nat,
    name: string,
    kind: AccountKind,
    createdAt: int,
    velocity: Option<Velocity>)

  /** The Month and Day bucket keys a time-partitioned transaction carries. */
  datatype BucketKeys = BucketKeys(monthKey: string, dayKey: string)

  /** A transaction row; `amountCents` is `round(uniform(1, 10000), 2)` in cents. */
  datatype Transaction = Transaction(
    id: nat,
    amountCents: int,
    ts: int,
    currency: string,
    status: string,
    fromAcc: int,
    toAcc: int,
    keys: Option<BucketKeys>)

  /**
   * The random draws one transaction consumes: `sqrt(random.random())` for the
   * timestamp, the rounded amount, and `random.random()` for each endpoint.
   */
  datatype TxnDraw = TxnDraw(recency: real, amountCents: int, fromDraw: real, toDraw: real)

  predicate ValidTxnDraw(d: TxnDraw) {
    && 0.0 <= d.recency < 1.0
    && 100 <= d.amountCents <= 1_000_000
    && 0.0 <= d.fromDraw < 1.0
    && 0.0 <= d.toDraw < 1.0
  }

  /** A generator's fixed settings; `startTime` is "now" minus one year. */
  datatype GeneratorConfig = GeneratorConfig(
    schema: Schema,
    numAccounts: nat,
    numTransactions: nat,
    startTime: int)

  /** `datetime.fromtimestamp`: the local calendar date of a timestamp. */
  type Calendar = int -> Date

  /** The calendar date of the `i`-th day of the window that starts at `startTime`. */
  function WindowDay(cal: Calendar, startTime: int, i: int): Date {
    cal(startTime + i * DaySeconds)
  }

  // ---------------------------------------------------------------------------
  // Accounts
  // ---------------------------------------------------------------------------

  function Denormalised(schema: Schema): Option<Velocity> {
    if schema == Temporal then Some(Velocity(0, 0, 0)) else None
  }

  /** The account the generator builds for id `i` from its creation-time draw. */
  function AccountRecord(g: GeneratorConfig, i: nat, createdOffset: int): Account {
    Account(
      i,
      "Acc_" + NatToString(i),
      if i % 10 != 0 then Standard else Premium,
      g.startTime + createdOffset,
      Denormalised(g.schema))
  }

  /** All accounts of a generator, ids `0 .. numAccounts - 1` in order. */
  function Accounts(g: GeneratorConfig, createdOffsets: seq<int>): seq<Account>
    requires |createdOffsets| == g.numAccounts
  {
    seq(g.numAccounts, i requires 0 <= i < g.numAccounts => AccountRecord(g, i, createdOffsets[i]))
  }

  /** What every generated account satisfies, given its position `i`. */
  ghost predicate WellFormedAccount(g: GeneratorConfig, a: Account, i: nat) {
    && a.id == i
    && a.name == "Acc_" + NatToString(i)
    && (a.kind == Premium <==> i % 10 == 0)
    && g.startTime <= a.createdAt <= g.startTime + CreationWindowSeconds
    && a.velocity == Denormalised(g.schema)
  }

  predicate ValidCreatedOffsets(g: GeneratorConfig, createdOffsets: seq<int>) {
    && |createdOffsets| == g.numAccounts
    && forall i :: 0 <= i < |createdOffsets| ==> 0 <= createdOffsets[i] <= CreationWindowSeconds
  }

  /**
   * The body of the account loop: one account from its creation-time draw,
   * which `randint` keeps within the 30-day creation window.
   */
  method BuildAccount(g: GeneratorConfig, i: nat, createdOffset: int) returns (account: Account)
    requires 0 <= createdOffset <= CreationWindowSeconds
    ensures WellFormedAccount(g, account, i)
    ensures account.createdAt - g.startTime == createdOffset
    ensures account == AccountRecord(g, i, createdOffset)
  {
    account := Account(
      i,
      "Acc_" + NatToString(i),
      if i % 10 != 0 then Standard else Premium,
      g.startTime + createdOffset,
      if g.schema == Temporal then Some(Velocity(0, 0, 0)) else None);
  }

  /**
   * `generate_accounts`: `createdOffsets[i]` is the draw
   * `random.randint(0, 30*24*3600)` (both ends inclusive) for account `i`.
   */
  method GenerateAccounts(g: GeneratorConfig, batchSize: int, createdOffsets: seq<int>)
    returns (batches: seq<seq<Account>>)
    requires ValidCreatedOffsets(g, createdOffsets)
    ensures batches == Chunks(Accounts(g, createdOffsets), BatchCap(batchSize))
    ensures IsBatching(batches, BatchCap(batchSize))
    ensures g.numAccounts == 0 <==> batches == []
    ensures |Flatten(batches)| == g.numAccounts
    ensures forall k :: 0 <= k < |Flatten(batches)| ==> WellFormedAccount(g, Flatten(batches)[k], k)
  {
    var cap := BatchCap(batchSize);
    ghost var all := Accounts(g, createdOffsets);
    var batch: seq<Account> := [];
    batches := [];
    var i := 0;
    while i < g.numAccounts
      invariant 0 <= i <= g.numAccounts
      invariant forall j :: 0 <= j < |batches| ==> |batches[j]| == cap
      invariant |batch| < cap
      invariant Flatten(batches) + batch == all[..i]
    {
      var account := BuildAccount(g, i, createdOffsets[i]);
      assert account == all[i];
      BatchStep(batches, batch, all, i, cap);
      batch := batch + [account];
      if |batch| >= cap {
        batches := batches + [batch];
        batch := [];
      }
      i := i + 1;
    }
    assert all[..i] == all;
    BatchFinish(batches, batch, all, cap);
    if batch != [] {
      batches := batches + [batch];
    }
    AccountsWellFormed(g, createdOffsets);
  }

  lemma AccountsWellFormed(g: GeneratorConfig, createdOffsets: seq<int>)
    requires ValidCreatedOffsets(g, createdOffsets)
    ensures forall k :: 0 <= k < g.numAccounts ==> WellFormedAccount(g, Accounts(g, createdOffsets)[k], k)
  {
    var all := Accounts(g, createdOffsets);
    forall k | 0 <= k < g.numAccounts ensures WellFormedAccount(g, all[k], k) {
      assert 0 <= createdOffsets[k] <= CreationWindowSeconds;
    }
  }

  /** Distinct accounts get distinct names. */
  lemma AccountNamesDistinct(g: GeneratorConfig, createdOffsets: seq<int>, i: nat, j: nat)
    requires |createdOffsets| == g.numAccounts
    requires i < g.numAccounts && j < g.numAccounts && i != j
    ensures Accounts(g, createdOffsets)[i].name != Accounts(g, createdOffsets)[j].name
  {
    var a, b := NatToString(i), NatToString(j);
    if a == b {
      NatToStringInjective(i, j);
    }
    assert ("Acc_" + a)[4..] == a && ("Acc_" + b)[4..] == b;
  }

  // ---------------------------------------------------------------------------
  // Transactions
  // ---------------------------------------------------------------------------

  function KeysFor(schema: Schema, cal: Calendar, ts: int): Option<BucketKeys> {
    if schema == Temporal then Some(BucketKeys(MonthKey(cal(ts)), DayKey(cal(ts)))) else None
  }

  /** The transaction the generator builds for id `i` from its draws. */
  function TransactionRecord(g: GeneratorConfig, cal: Calendar, i: nat, d: TxnDraw): Transaction
    requires ValidTxnDraw(d)
  {
    var ts := g.startTime + TimestampOffset(d.recency);
    Transaction(
      i, d.amountCents, ts, "USD", "COMPLETED",
      PickAccountId(g.numAccounts, d.fromDraw),
      PickAccountId(g.numAccounts, d.toDraw),
      KeysFor(g.schema, cal, ts))
  }

  predicate ValidDraws(g: GeneratorConfig, draws: seq<TxnDraw>) {
    |draws| == g.numTransactions && forall i :: 0 <= i < |draws| ==> ValidTxnDraw(draws[i])
  }

  /** All transactions of a generator, ids `0 .. numTransactions - 1` in order. */
  function Transactions(g: GeneratorConfig, cal: Calendar, draws: seq<TxnDraw>): seq<Transaction>
    requires ValidDraws(g, draws)
  {
    seq(g.numTransactions, i requires 0 <= i < g.numTransactions => TransactionRecord(g, cal, i, draws[i]))
  }

  /** What every generated transaction satisfies, given its position `i`. */
  ghost predicate WellFormedTransaction(g: GeneratorConfig, cal: Calendar, t: Transaction, i: nat) {
    && t.id == i
    && g.startTime <= t.ts < g.startTime + YearSeconds
    && t.currency == "USD"
    && t.status == "COMPLETED"
    && 100 <= t.amountCents <= 1_000_000
    && (g.numAccounts > 0 ==> 0 <= t.fromAcc < g.numAccounts && 0 <= t.toAcc < g.numAccounts)
    && (g.schema == Flat ==> t.keys == None)
    && (g.schema == Temporal ==>
          && t.keys == Some(BucketKeys(MonthKey(cal(t.ts)), DayKey(cal(t.ts))))
          && t.keys.value.dayKey == t.keys.value.monthKey + "_" + Pad2(cal(t.ts).day))
  }

  /** The body of the generator loop: one transaction from its draws. */
  method BuildTransaction(g: GeneratorConfig, cal: Calendar, i: nat, d: TxnDraw) returns (txn: Transaction)
    requires ValidTxnDraw(d)
    ensures WellFormedTransaction(g, cal, txn, i)
    ensures txn.amountCents == d.amountCents
    ensures txn == TransactionRecord(g, cal, i, d)
  {
    var offset := TimestampOffset(d.recency);
    var ts := g.startTime + offset;
    var keys := None;
    if g.schema == Temporal {
      var dt := cal(ts);
      keys := Some(BucketKeys(MonthKey(dt), DayKey(dt)));
    }
    txn := Transaction(
      i, d.amountCents, ts, "USD", "COMPLETED",
      PickAccountId(g.numAccounts, d.fromDraw),
      PickAccountId(g.numAccounts, d.toDraw),
      keys);
    TransactionRecordWellFormed(g, cal, i, d);
  }

  /** `generate_transactions` (with the Month/Day keys in the time-partitioned variant). */
  method GenerateTransactions(g: GeneratorConfig, batchSize: int, cal: Calendar, draws: seq<TxnDraw>)
    returns (batches: seq<seq<Transaction>>)
    requires ValidDraws(g, draws)
    ensures batches == Chunks(Transactions(g, cal, draws), BatchCap(batchSize))
    ensures IsBatching(batches, BatchCap(batchSize))
    ensures g.numTransactions == 0 <==> batches == []
    ensures |Flatten(batches)| == g.numTransactions
    ensures forall k :: 0 <= k < |Flatten(batches)| ==> WellFormedTransaction(g, cal, Flatten(batches)[k], k)
  {
    var cap := BatchCap(batchSize);
    ghost var all := Transactions(g, cal, draws);
    var batch: seq<Transaction> := [];
    batches := [];
    var i := 0;
    while i < g.numTransactions
      invariant 0 <= i <= g.numTransactions
      invariant forall j :: 0 <= j < |batches| ==> |batches[j]| == cap
      invariant |batch| < cap
      invariant Flatten(batches) + batch == all[..i]
    {
      var txn := BuildTransaction(g, cal, i, draws[i]);
      assert txn == all[i];
      BatchStep(batches, batch, all, i, cap);
      batch := batch + [txn];
      if |batch| >= cap {
        batches := batches + [batch];
        batch := [];
      }
      i := i + 1;
    }
    assert all[..i] == all;
    BatchFinish(batches, batch, all, cap);
    if batch != [] {
      batches := batches + [batch];
    }
    TransactionBatches(g, cal, draws, cap);
  }

  /** The batches of all transactions hold every transaction once, in id order, each well formed. */
  lemma TransactionBatches(g: GeneratorConfig, cal: Calendar, draws: seq<TxnDraw>, cap: nat)
    requires ValidDraws(g, draws) && cap >= 1
    ensures var batches := Chunks(Transactions(g, cal, draws), cap);
      && IsBatching(batches, cap)
      && (g.numTransactions == 0 <==> batches == [])
      && |Flatten(batches)| == g.numTransactions
      && forall k :: 0 <= k < |Flatten(batches)| ==> WellFormedTransaction(g, cal, Flatten(batches)[k], k)
  {
    ChunksLaw(Transactions(g, cal, draws), cap);
    TransactionsWellFormed(g, cal, draws);
  }

  lemma TransactionsWellFormed(g: GeneratorConfig, cal: Calendar, draws: seq<TxnDraw>)
    requires ValidDraws(g, draws)
    ensures forall k :: 0 <= k < g.numTransactions ==> WellFormedTransaction(g, cal, Transactions(g, cal, draws)[k], k)
  {
    var all := Transactions(g, cal, draws);
    forall k | 0 <= k < g.numTransactions ensures WellFormedTransaction(g, cal, all[k], k) {
      assert all[k] == TransactionRecord(g, cal, k, draws[k]);
      TransactionRecordWellFormed(g, cal, k, draws[k]);
    }
  }

  /** One transaction built from valid draws is well formed. */
  lemma TransactionRecordWellFormed(g: GeneratorConfig, cal: Calendar, i: nat, d: TxnDraw)
    requires ValidTxnDraw(d)
    ensures WellFormedTransaction(g, cal, TransactionRecord(g, cal, i, d), i)
  {
    var t := TransactionRecord(g, cal, i, d);
    if g.schema == Temporal {
      DayKeyExtendsMonthKey(cal(t.ts));
    }
  }

  // ---------------------------------------------------------------------------
  // Temporal buckets (time-partitioned variant)
  // ---------------------------------------------------------------------------

  /** A Month bucket: the Day keys it holds and the timestamp of its first window day. */
  datatype MonthBucket = MonthBucket(days: set<string>, start: int)

  /** The Month keys of the first `n` window days. */
  ghost function MonthsSeen(cal: Calendar, startTime: int, n: nat): set<string> {
    set i | 0 <= i < n :: MonthKey(WindowDay(cal, startTime, i))
  }

  /** The Day keys of the first `n` window days that fall in month `mk`. */
  ghost function DaysSeen(cal: Calendar, startTime: int, n: nat, mk: string): set<string> {
    set i | 0 <= i < n && MonthKey(WindowDay(cal, startTime, i)) == mk :: DayKey(WindowDay(cal, startTime, i))
  }

  /** `i` is the first window day whose Month key is `mk`. */
  ghost predicate FirstDayOf(cal: Calendar, startTime: int, mk: string, i: nat) {
    && MonthKey(WindowDay(cal, startTime, i)) == mk
    && forall j :: 0 <= j < i ==> MonthKey(WindowDay(cal, startTime, j)) != mk
  }

  lemma MonthsSeenStep(cal: Calendar, startTime: int, n: nat)
    ensures MonthsSeen(cal, startTime, n + 1) == MonthsSeen(cal, startTime, n) + {MonthKey(WindowDay(cal, startTime, n))}
  {
    var a, b := MonthsSeen(cal, startTime, n + 1), MonthsSeen(cal, startTime, n);
    forall k | k in a ensures k in b + {MonthKey(WindowDay(cal, startTime, n))} {
      var i :| 0 <= i < n + 1 && k == MonthKey(WindowDay(cal, startTime, i));
    }
  }

  lemma DaysSeenStep(cal: Calendar, startTime: int, n: nat, mk: string)
    ensures DaysSeen(cal, startTime, n + 1, mk) ==
      DaysSeen(cal, startTime, n, mk) +
      (if MonthKey(WindowDay(cal, startTime, n)) == mk then {DayKey(WindowDay(cal, startTime, n))} else {})
  {
    var a, b := DaysSeen(cal, startTime, n + 1, mk), DaysSeen(cal, startTime, n, mk);
    forall k | k in a
      ensures k in b + (if MonthKey(WindowDay(cal, startTime, n)) == mk then {DayKey(WindowDay(cal, startTime, n))} else {})
    {
      var i :| 0 <= i < n + 1 && MonthKey(WindowDay(cal, startTime, i)) == mk && k == DayKey(WindowDay(cal, startTime, i));
    }
  }

  /** The buckets after the first `n` window days have been walked. */
  ghost predicate BucketsAfter(buckets: map<string, MonthBucket>, cal: Calendar, startTime: int, n: nat) {
    && buckets.Keys == MonthsSeen(cal, startTime, n)
    && (forall mk :: mk in buckets ==> buckets[mk].days == DaysSeen(cal, startTime, n, mk))
    && (forall mk :: mk in buckets ==>
          exists i :: 0 <= i < n && FirstDayOf(cal, startTime, mk, i) && buckets[mk].start == startTime + i * DaySeconds)
  }

  /** One step of the bucket loop: what it does to the buckets of day `n`. */
  function AddDay(buckets: map<string, MonthBucket>, cal: Calendar, startTime: int, n: nat): map<string, MonthBucket> {
    var dt := WindowDay(cal, startTime, n);
    var b := if MonthKey(dt) in buckets then buckets else buckets[MonthKey(dt) := MonthBucket({}, startTime + n * DaySeconds)];
    b[MonthKey(dt) := b[MonthKey(dt)].(days := b[MonthKey(dt)].days + {DayKey(dt)})]
  }

  lemma AddDayKeys(buckets: map<string, MonthBucket>, cal: Calendar, startTime: int, n: nat)
    requires buckets.Keys == MonthsSeen(cal, startTime, n)
    ensures AddDay(buckets, cal, startTime, n).Keys == MonthsSeen(cal, startTime, n + 1)
  {
    MonthsSeenStep(cal, startTime, n);
  }

  lemma AddDayDays(buckets: map<string, MonthBucket>, cal: Calendar, startTime: int, n: nat)
    requires buckets.Keys == MonthsSeen(cal, startTime, n)
    requires forall mk :: mk in buckets ==> buckets[mk].days == DaysSeen(cal, startTime, n, mk)
    ensures forall mk :: mk in AddDay(buckets, cal, startTime, n) ==>
      AddDay(buckets, cal, startTime, n)[mk].days == DaysSeen(cal, startTime, n + 1, mk)
  {
    var after := AddDay(buckets, cal, startTime, n);
    var mk0 := MonthKey(WindowDay(cal, startTime, n));
    forall mk | mk in after
      ensures after[mk].days == DaysSeen(cal, startTime, n + 1, mk)
    {
      DaysSeenStep(cal, startTime, n, mk);
      if mk !in buckets {
        assert mk == mk0;
        assert DaysSeen(cal, startTime, n, mk) == {};
      }
    }
  }

  lemma AddDayStart(buckets: map<string, MonthBucket>, cal: Calendar, startTime: int, n: nat)
    requires buckets.Keys == MonthsSeen(cal, startTime, n)
    requires forall mk :: mk in buckets ==>
      exists i :: 0 <= i < n && FirstDayOf(cal, startTime, mk, i) && buckets[mk].start == startTime + i * DaySeconds
    ensures forall mk :: mk in AddDay(buckets, cal, startTime, n) ==>
      exists i :: 0 <= i < n + 1 && FirstDayOf(cal, startTime, mk, i) && AddDay(buckets, cal, startTime, n)[mk].start == startTime + i * DaySeconds
  {
    var after := AddDay(buckets, cal, startTime, n);
    var mk0 := MonthKey(WindowDay(cal, startTime, n));
    forall mk | mk in after
      ensures exists i :: 0 <= i < n + 1 && FirstDayOf(cal, startTime, mk, i) && after[mk].start == startTime + i * DaySeconds
    {
      if mk in buckets {
        var i :| 0 <= i < n && FirstDayOf(cal, startTime, mk, i) && buckets[mk].start == startTime + i * DaySeconds;
        assert after[mk].start == buckets[mk].start;
      } else {
        assert mk == mk0;
        forall j | 0 <= j < n ensures MonthKey(WindowDay(cal, startTime, j)) != mk {
          assert MonthKey(WindowDay(cal, startTime, j)) in MonthsSeen(cal, startTime, n);
        }
        assert FirstDayOf(cal, startTime, mk, n);
      }
    }
  }

  lemma AddDayStep(buckets: map<string, MonthBucket>, cal: Calendar, startTime: int, n: nat)
    requires BucketsAfter(buckets, cal, startTime, n)
    ensures BucketsAfter(AddDay(buckets, cal, startTime, n), cal, startTime, n + 1)
  {
    AddDayKeys(buckets, cal, startTime, n);
    AddDayDays(buckets, cal, startTime, n);
    AddDayStart(buckets, cal, startTime, n);
  }

  /** The body of the bucket loop: file window day `dayOffset` under its Month. */
  method AddWindowDay(buckets: map<string, MonthBucket>, startTime: int, cal: Calendar, dayOffset: nat)
    returns (next: map<string, MonthBucket>)
    ensures next.Keys == buckets.Keys + {MonthKey(WindowDay(cal, startTime, dayOffset))}
    ensures forall mk :: mk in buckets && mk != MonthKey(WindowDay(cal, startTime, dayOffset)) ==> next[mk] == buckets[mk]
    ensures var mk := MonthKey(WindowDay(cal, startTime, dayOffset));
      next[mk].days == (if mk in buckets then buckets[mk].days else {}) + {DayKey(WindowDay(cal, startTime, dayOffset))}
    ensures var mk := MonthKey(WindowDay(cal, startTime, dayOffset));
      next[mk].start == if mk in buckets then buckets[mk].start else startTime + dayOffset * DaySeconds
    ensures next == AddDay(buckets, cal, startTime, dayOffset)
  {
    var dt := cal(startTime + dayOffset * DaySeconds);
    var monthKey := MonthKey(dt);
    var dayKey := DayKey(dt);
    next := buckets;
    if monthKey !in next {
      next := next[monthKey := MonthBucket({}, startTime + dayOffset * DaySeconds)];
    }
    next := next[monthKey := next[monthKey].(days := next[monthKey].days + {dayKey})];
  }

  /**
   * `_generate_temporal_buckets`: walks the first `span` window days (the
   * source walks 365), adding each Day key to the set of its Month; a
   * Month's `start` is set when the Month is first seen (`dt.timestamp()`,
   * the window day's own timestamp) and is never overwritten.
   */
  method TemporalBuckets(startTime: int, cal: Calendar, span: nat) returns (buckets: map<string, MonthBucket>)
    ensures buckets.Keys == MonthsSeen(cal, startTime, span)
    ensures forall mk :: mk in buckets ==> buckets[mk].days == DaysSeen(cal, startTime, span, mk)
    ensures forall mk :: mk in buckets ==>
      exists i :: 0 <= i < span && FirstDayOf(cal, startTime, mk, i) && buckets[mk].start == startTime + i * DaySeconds
  {
    buckets := map[];
    var dayOffset := 0;
    while dayOffset < span
      invariant 0 <= dayOffset <= span
      invariant BucketsAfter(buckets, cal, startTime, dayOffset)
    {
      ghost var before := buckets;
      buckets := AddWindowDay(buckets, startTime, cal, dayOffset);
      AddDayStep(before, cal, startTime, dayOffset);
      dayOffset := dayOffset + 1;
    }
    BucketsAfterSpan(buckets, cal, startTime, span);
  }

  lemma BucketsAfterSpan(buckets: map<string, MonthBucket>, cal: Calendar, startTime: int, span: nat)
    requires BucketsAfter(buckets, cal, startTime, span)
    ensures buckets.Keys == MonthsSeen(cal, startTime, span)
    ensures forall mk :: mk in buckets ==> buckets[mk].days == DaysSeen(cal, startTime, span, mk)
    ensures forall mk :: mk in buckets ==>
      exists i :: 0 <= i < span && FirstDayOf(cal, startTime, mk, i) && buckets[mk].start == startTime + i * DaySeconds
  {
  }
}
