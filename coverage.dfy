/**
 * Which calendar days the Day nodes cover. The hierarchy samples the dates
 * of `start + k * 86400` for `k` in `range(365)`, while transaction
 * timestamps run over `[start, start + 365 * 86400)` and the write test
 * uses the date of "now", a year after `start`. Under a calendar with a
 * fixed UTC offset, this module shows which dates miss their Day node and
 * proves that sampling one more day covers them.
 */
module Coverage {
  import opened Config
  import opened Skew
  import opened TemporalKeys
  import opened Generator
  import opened Hierarchy

  /** The local day number of timestamp `t` in a zone `tz` seconds ahead of UTC. */
  function LocalDay(tz: int, t: int): int {
    (t + tz) / DaySeconds
  }

  /** `datetime.fromtimestamp` in a zone with a fixed UTC offset: the civil date of the local day number. */
  function FixedOffsetCalendar(civil: int -> Date, tz: int): Calendar {
    t => civil(LocalDay(tz, t))
  }

  /** Distinct day numbers have distinct civil dates. */
  ghost predicate Injective(civil: int -> Date) {
    forall a, b :: civil(a) == civil(b) ==> a == b
  }

  lemma DivUnique(a: int, q: int, r: int)
    requires a == q * DaySeconds + r && 0 <= r < DaySeconds
    ensures a / DaySeconds == q && a % DaySeconds == r
  {
    var q', r' := a / DaySeconds, a % DaySeconds;
    assert a == q' * DaySeconds + r';
  }

  /** Moving a timestamp by `i` whole days moves its local day number by `i`. */
  lemma LocalDayShift(tz: int, t: int, i: int)
    ensures LocalDay(tz, t + i * DaySeconds) == LocalDay(tz, t) + i
  {
    var x := t + tz;
    assert x == (x / DaySeconds) * DaySeconds + x % DaySeconds;
    DivUnique(x + i * DaySeconds, x / DaySeconds + i, x % DaySeconds);
  }

  lemma LocalDayMonotone(tz: int, s: int, t: int)
    requires s <= t
    ensures LocalDay(tz, s) <= LocalDay(tz, t)
  {
  }

  /**
   * The timestamps of the one-year window fall on the 366 local days
   * counted from the start's; on the last one only when the start is not
   * at local midnight.
   */
  lemma {:induction false} WindowLocalDays(tz: int, start: int, ts: int)
    requires start <= ts < start + YearSeconds
    ensures LocalDay(tz, start) <= LocalDay(tz, ts) <= LocalDay(tz, start) + WindowDays
    ensures (start + tz) % DaySeconds == 0 ==> LocalDay(tz, ts) < LocalDay(tz, start) + WindowDays
  {
    LocalDayMonotone(tz, start, ts);
    LocalDayShift(tz, start, WindowDays);
    LocalDayMonotone(tz, ts, start + WindowDays * DaySeconds);
    if (start + tz) % DaySeconds == 0 {
      var x := start + tz;
      DivUnique(x, x / DaySeconds, 0);
      assert ts + tz < (x / DaySeconds + WindowDays) * DaySeconds;
    }
  }

  /** The draw `sqrt(u)` that gives the largest timestamp offset. */
  const LastDraw: real := (YearSeconds - 1) as real / YearSeconds as real

  lemma LastDrawOffset()
    ensures 0.0 <= LastDraw < 1.0
    ensures TimestampOffset(LastDraw) == YearSeconds - 1
  {
    assert YearSeconds as real * LastDraw == (YearSeconds - 1) as real;
  }

  /**
   * As written, with `range(365)`: when the start is not at local midnight,
   * a transaction drawn at the end of the window (offset `YearSeconds - 1`)
   * falls on a date that no Day row carries, so the import's Day match
   * finds nothing and the transaction is not created.
   */
  lemma LastDayUnbucketed(civil: int -> Date, tz: int, start: int, dayRows: seq<DayRow>)
    requires Injective(civil)
    requires (start + tz) % DaySeconds != 0
    requires forall r :: r in dayRows ==> DayRowInWindow(FixedOffsetCalendar(civil, tz), start, WindowDays, r)
    ensures LastDraw < 1.0
    ensures var ts := start + TimestampOffset(LastDraw);
      && start <= ts < start + YearSeconds
      && forall r :: r in dayRows ==> r.dayKey != DayKey(FixedOffsetCalendar(civil, tz)(ts))
  {
    LastDrawOffset();
    var cal := FixedOffsetCalendar(civil, tz);
    var ts := start + YearSeconds - 1;
    var x := start + tz;
    DivUnique(ts + tz, x / DaySeconds + WindowDays, x % DaySeconds - 1);
    forall r | r in dayRows ensures r.dayKey != DayKey(cal(ts)) {
      var i :| 0 <= i < WindowDays && DayRowOf(r, WindowDay(cal, start, i));
      LocalDayShift(tz, start, i);
      KeysInjective(cal(ts), WindowDay(cal, start, i));
    }
  }

  /**
   * As written, with `range(365)`: the write test's Day key, the date of
   * "now" a year or more after the start, is carried by no Day row, so
   * every row of the write batch fails its Day match.
   */
  lemma WriteDayUnmatched(civil: int -> Date, tz: int, start: int, now: int, dayRows: seq<DayRow>)
    requires Injective(civil)
    requires start + YearSeconds <= now
    requires forall r :: r in dayRows ==> DayRowInWindow(FixedOffsetCalendar(civil, tz), start, WindowDays, r)
    ensures forall r :: r in dayRows ==> r.dayKey != DayKey(FixedOffsetCalendar(civil, tz)(now))
  {
    var cal := FixedOffsetCalendar(civil, tz);
    LocalDayShift(tz, start, WindowDays);
    LocalDayMonotone(tz, start + WindowDays * DaySeconds, now);
    forall r | r in dayRows ensures r.dayKey != DayKey(cal(now)) {
      var i :| 0 <= i < WindowDays && DayRowOf(r, WindowDay(cal, start, i));
      LocalDayShift(tz, start, i);
      KeysInjective(cal(now), WindowDay(cal, start, i));
    }
  }

  /** The corrected hierarchy samples one more day: `range(366)`. */
  const CoveringSpan: nat := WindowDays + 1

  /** With `CoveringSpan` day samples, every timestamp of the window falls on a sampled date. */
  lemma EveryTimestampSampled(civil: int -> Date, tz: int, start: int, ts: int)
    requires start <= ts < start + YearSeconds
    ensures exists i :: (0 <= i < CoveringSpan &&
      FixedOffsetCalendar(civil, tz)(ts) == WindowDay(FixedOffsetCalendar(civil, tz), start, i))
  {
    WindowLocalDays(tz, start, ts);
    var i := LocalDay(tz, ts) - LocalDay(tz, start);
    LocalDayShift(tz, start, i);
    assert FixedOffsetCalendar(civil, tz)(ts) == WindowDay(FixedOffsetCalendar(civil, tz), start, i);
  }

  /**
   * With the corrected hierarchy every generated transaction finds its Day
   * node: some Day row carries exactly the transaction's Month and Day keys
   * and the calendar fields of its date.
   */
  lemma TransactionFindsItsDay(g: GeneratorConfig, civil: int -> Date, tz: int, t: Transaction, k: nat, dayRows: seq<DayRow>)
    requires g.schema == Temporal
    requires WellFormedTransaction(g, FixedOffsetCalendar(civil, tz), t, k)
    requires forall j :: 0 <= j < CoveringSpan ==> HasDayRow(dayRows, WindowDay(FixedOffsetCalendar(civil, tz), g.startTime, j))
    ensures exists r :: (r in dayRows && DayRowOf(r, FixedOffsetCalendar(civil, tz)(t.ts))
      && r.monthKey == t.keys.value.monthKey && r.dayKey == t.keys.value.dayKey)
  {
    EveryTimestampSampled(civil, tz, g.startTime, t.ts);
    var i :| 0 <= i < CoveringSpan &&
      FixedOffsetCalendar(civil, tz)(t.ts) == WindowDay(FixedOffsetCalendar(civil, tz), g.startTime, i);
    assert HasDayRow(dayRows, WindowDay(FixedOffsetCalendar(civil, tz), g.startTime, i));
  }

  /**
   * With the corrected hierarchy the write test finds its Day node when it
   * runs on the local day one year after the start's.
   */
  lemma WriteDayMatched(civil: int -> Date, tz: int, start: int, now: int, dayRows: seq<DayRow>)
    requires LocalDay(tz, now) == LocalDay(tz, start + YearSeconds)
    requires forall j :: 0 <= j < CoveringSpan ==> HasDayRow(dayRows, WindowDay(FixedOffsetCalendar(civil, tz), start, j))
    ensures HasDayRow(dayRows, FixedOffsetCalendar(civil, tz)(now))
  {
    LocalDayShift(tz, start, WindowDays);
    assert FixedOffsetCalendar(civil, tz)(now) == WindowDay(FixedOffsetCalendar(civil, tz), start, WindowDays);
    assert HasDayRow(dayRows, WindowDay(FixedOffsetCalendar(civil, tz), start, WindowDays));
  }

  /**
   * The corrected `create_temporal_hierarchy`, sampling `CoveringSpan` days:
   * every timestamp a transaction can be given has the Day row of its date,
   * and every Day row is one of a sampled day.
   */
  method CreateCoveringHierarchy(civil: int -> Date, tz: int, start: int)
    returns (monthRows: seq<MonthRow>, dayRows: seq<DayRow>)
    ensures forall ts :: start <= ts < start + YearSeconds ==> HasDayRow(dayRows, FixedOffsetCalendar(civil, tz)(ts))
    ensures forall r :: r in dayRows ==> DayRowInWindow(FixedOffsetCalendar(civil, tz), start, CoveringSpan, r)
  {
    var cal := FixedOffsetCalendar(civil, tz);
    monthRows, dayRows := CreateTemporalHierarchy(start, cal, CoveringSpan);
    forall ts | start <= ts < start + YearSeconds
      ensures HasDayRow(dayRows, cal(ts))
    {
      EveryTimestampSampled(civil, tz, start, ts);
      var i :| 0 <= i < CoveringSpan && cal(ts) == WindowDay(cal, start, i);
      assert HasDayRow(dayRows, WindowDay(cal, start, i));
    }
  }
}
