/**
 * `create_temporal_hierarchy` of the time-partitioned client: the 365
 * window days are grouped into a set of Month keys and, per Month key, the
 * list of its Day keys; then one Month node per key is merged in sorted key
 * order and one Day node per listed Day key. The store writes are modelled
 * as the parameter rows handed to the store, in the order they are sent.
 */
module Hierarchy {
  import opened Base
  import opened Text
  import opened Config
  import opened TemporalKeys
  import opened Generator

  /** The Day keys of the first `n` window days that fall in month `mk`, in day order. */
  function DaysInOrder(cal: Calendar, startTime: int, n: nat, mk: string): seq<string> {
    if n == 0 then []
    else
      var d := WindowDay(cal, startTime, n - 1);
      DaysInOrder(cal, startTime, n - 1, mk) + (if MonthKey(d) == mk then [DayKey(d)] else [])
  }

  lemma {:induction false} DaysInOrderMembers(cal: Calendar, startTime: int, n: nat, mk: string)
    ensures forall x :: x in DaysInOrder(cal, startTime, n, mk) <==> x in DaysSeen(cal, startTime, n, mk)
  {
    if n > 0 {
      DaysInOrderMembers(cal, startTime, n - 1, mk);
      DaysSeenStep(cal, startTime, n - 1, mk);
    }
  }

  /** A month's Day list is empty exactly when no window day so far falls in it. */
  lemma DaysInOrderEmpty(cal: Calendar, startTime: int, n: nat, mk: string)
    ensures DaysInOrder(cal, startTime, n, mk) == [] <==> mk !in MonthsSeen(cal, startTime, n)
  {
    DaysInOrderMembers(cal, startTime, n, mk);
    if mk in MonthsSeen(cal, startTime, n) {
      var i :| 0 <= i < n && mk == MonthKey(WindowDay(cal, startTime, i));
      assert DayKey(WindowDay(cal, startTime, i)) in DaysSeen(cal, startTime, n, mk);
    }
  }

  /** Every grouped Day key is a window day's key, filed under that day's Month key. */
  lemma DaysSeenDates(cal: Calendar, startTime: int, n: nat, mk: string, x: string)
    requires x in DaysSeen(cal, startTime, n, mk)
    ensures exists i :: 0 <= i < n && MonthKey(WindowDay(cal, startTime, i)) == mk && x == DayKey(WindowDay(cal, startTime, i))
  {
  }

  /** The state of the grouping loop after the first `n` window days. */
  ghost predicate GroupedAfter(cal: Calendar, startTime: int, n: nat,
                               months: set<string>, days: map<string, seq<string>>, order: seq<string>)
  {
    && months == days.Keys == MonthsSeen(cal, startTime, n)
    && (forall mk :: mk in days ==> days[mk] == DaysInOrder(cal, startTime, n, mk))
    && (forall mk :: mk in order <==> mk in days)
    && (forall a, b :: 0 <= a < b < |order| ==> order[a] != order[b])
  }

  /**
   * The distinct elements of `keys` in the order of their first
   * occurrence: the key order of a dict filled from `keys` one by one.
   */
  ghost function FirstSeen<T>(keys: seq<T>): seq<T> {
    if keys == [] then []
    else
      var prev := FirstSeen(keys[..|keys| - 1]);
      if keys[|keys| - 1] in prev then prev else prev + [keys[|keys| - 1]]
  }

  /** The Month keys of the first `n` window days, one per day. */
  ghost function WindowMonths(cal: Calendar, startTime: int, n: nat): seq<string> {
    seq(n, i requires 0 <= i < n => MonthKey(WindowDay(cal, startTime, i)))
  }

  /** The first-seen order lists exactly the elements of the keys. */
  lemma {:induction false} FirstSeenMembers<T>(keys: seq<T>)
    ensures forall x :: x in FirstSeen(keys) <==> x in keys
    decreases |keys|
  {
    if keys != [] {
      var init := keys[..|keys| - 1];
      FirstSeenMembers(init);
      assert keys == init + [keys[|keys| - 1]];
    }
  }

  lemma FirstSeenHas<T>(keys: seq<T>, x: T)
    ensures x in FirstSeen(keys) <==> x in keys
  {
    FirstSeenMembers(keys);
  }

  /** One more key keeps the order so far and adds at most one new element, at the end. */
  lemma FirstSeenGrows<T>(keys: seq<T>)
    requires keys != []
    ensures var prev := FirstSeen(keys[..|keys| - 1]);
      && |prev| <= |FirstSeen(keys)| <= |prev| + 1
      && (forall k :: 0 <= k < |prev| ==> FirstSeen(keys)[k] == prev[k])
      && (|prev| < |FirstSeen(keys)| ==> FirstSeen(keys)[|prev|] !in prev)
  {
  }

  /** Each element appears once in the first-seen order. */
  lemma {:induction false} FirstSeenDistinct<T>(keys: seq<T>)
    ensures forall a, b :: 0 <= a < b < |FirstSeen(keys)| ==> FirstSeen(keys)[a] != FirstSeen(keys)[b]
    decreases |keys|
  {
    if keys != [] {
      FirstSeenDistinct(keys[..|keys| - 1]);
      FirstSeenGrows(keys);
    }
  }

  /** The order of a prefix of the keys is a prefix of the order of all of them. */
  lemma {:induction false} FirstSeenPrefix<T>(keys: seq<T>, d: nat)
    requires d <= |keys|
    ensures |FirstSeen(keys[..d])| <= |FirstSeen(keys)|
    ensures forall k :: 0 <= k < |FirstSeen(keys[..d])| ==> FirstSeen(keys[..d])[k] == FirstSeen(keys)[k]
    decreases |keys|
  {
    if d < |keys| {
      var init := keys[..|keys| - 1];
      assert init[..d] == keys[..d];
      FirstSeenPrefix(init, d);
      FirstSeenGrows(keys);
    } else {
      assert keys[..d] == keys;
    }
  }

  /**
   * Of two elements of the first-seen order, the earlier one occurs first
   * in the keys: any prefix of the keys that holds the later one holds the
   * earlier one too.
   */
  lemma FirstSeenOrdered<T>(keys: seq<T>, a: nat, b: nat, d: nat)
    requires a < b < |FirstSeen(keys)| && d <= |keys|
    requires FirstSeen(keys)[b] in keys[..d]
    ensures FirstSeen(keys)[a] in keys[..d]
  {
    var order, seen := FirstSeen(keys), FirstSeen(keys[..d]);
    FirstSeenPrefix(keys, d);
    FirstSeenDistinct(keys);
    FirstSeenMembers(keys[..d]);
    assert order[b] in seen;
    var k :| 0 <= k < |seen| && seen[k] == order[b];
    assert order[k] == seen[k];
    assert b <= k < |seen|;
    FirstSeenHas(keys[..d], seen[a]);
  }

  /** One pass of the grouping loop keeps the Day lists. */
  lemma GroupStepDays(cal: Calendar, startTime: int, n: nat,
                      days: map<string, seq<string>>, days': map<string, seq<string>>)
    requires days.Keys == MonthsSeen(cal, startTime, n)
    requires forall mk :: mk in days ==> days[mk] == DaysInOrder(cal, startTime, n, mk)
    requires var mk := MonthKey(WindowDay(cal, startTime, n));
      days' == (if mk in days then days else days[mk := []])[mk := (if mk in days then days[mk] else []) + [DayKey(WindowDay(cal, startTime, n))]]
    ensures days'.Keys == MonthsSeen(cal, startTime, n + 1)
    ensures forall k :: k in days' ==> days'[k] == DaysInOrder(cal, startTime, n + 1, k)
  {
    var d := WindowDay(cal, startTime, n);
    var mk := MonthKey(d);
    MonthsSeenStep(cal, startTime, n);
    DaysInOrderEmpty(cal, startTime, n, mk);
    assert (if mk in days then days[mk] else []) == DaysInOrder(cal, startTime, n, mk);
    forall k | k in days' ensures days'[k] == DaysInOrder(cal, startTime, n + 1, k) {
      if k != mk { assert k in days; }
    }
  }

  /** One pass of the grouping loop keeps the insertion order duplicate-free. */
  lemma GroupStepOrder(days: map<string, seq<string>>, order: seq<string>, mk: string, order': seq<string>)
    requires forall k :: k in order <==> k in days
    requires forall a, b :: 0 <= a < b < |order| ==> order[a] != order[b]
    requires order' == if mk in days then order else order + [mk]
    ensures order' == if mk in order then order else order + [mk]
    ensures forall k :: k in order' <==> k in days || k == mk
    ensures forall a, b :: 0 <= a < b < |order'| ==> order'[a] != order'[b]
  {
    forall a, b | 0 <= a < b < |order'| ensures order'[a] != order'[b] {
      if b == |order| { assert order[a] in days; }
    }
  }

  /** One pass of the grouping loop keeps `GroupedAfter`. */
  lemma GroupStep(cal: Calendar, startTime: int, n: nat,
                  months: set<string>, days: map<string, seq<string>>, order: seq<string>,
                  months': set<string>, days': map<string, seq<string>>, order': seq<string>)
    requires GroupedAfter(cal, startTime, n, months, days, order)
    requires var mk := MonthKey(WindowDay(cal, startTime, n));
      && months' == months + {mk}
      && order' == (if mk in days then order else order + [mk])
      && days' == (if mk in days then days else days[mk := []])[mk := (if mk in days then days[mk] else []) + [DayKey(WindowDay(cal, startTime, n))]]
    ensures GroupedAfter(cal, startTime, n + 1, months', days', order')
  {
    var mk := MonthKey(WindowDay(cal, startTime, n));
    MonthsSeenStep(cal, startTime, n);
    GroupStepDays(cal, startTime, n, days, days');
    GroupStepOrder(days, order, mk, order');
  }

  /** The body of the grouping loop: file window day `dayOffset` under its Month key. */
  method FileDay(startTime: int, cal: Calendar, dayOffset: nat,
                 months: set<string>, days: map<string, seq<string>>, order: seq<string>)
    returns (months': set<string>, days': map<string, seq<string>>, order': seq<string>)
    requires GroupedAfter(cal, startTime, dayOffset, months, days, order)
    requires order == FirstSeen(WindowMonths(cal, startTime, dayOffset))
    ensures GroupedAfter(cal, startTime, dayOffset + 1, months', days', order')
    ensures order' == FirstSeen(WindowMonths(cal, startTime, dayOffset + 1))
  {
    var dt := cal(startTime + dayOffset * DaySeconds);
    var monthKey := MonthKey(dt);
    var dayKey := DayKey(dt);
    months' := months + {monthKey};
    days', order' := days, order;
    if monthKey !in days' {
      days' := days'[monthKey := []];
      order' := order' + [monthKey];
    }
    days' := days'[monthKey := days'[monthKey] + [dayKey]];
    GroupStep(cal, startTime, dayOffset, months, days, order, months', days', order');
    ghost var ms := WindowMonths(cal, startTime, dayOffset + 1);
    assert ms[..dayOffset] == WindowMonths(cal, startTime, dayOffset);
  }

  /**
   * The grouping loop: `months` collects the Month keys and `days` maps each
   * Month key to its Day keys in day order; `order` is the insertion order of
   * the `days` dict, which the Day loop later follows.
   */
  method GroupWindow(startTime: int, cal: Calendar, span: nat)
    returns (months: set<string>, days: map<string, seq<string>>, order: seq<string>)
    ensures months == days.Keys == MonthsSeen(cal, startTime, span)
    ensures forall mk :: mk in days ==> days[mk] == DaysInOrder(cal, startTime, span, mk)
    ensures forall mk :: mk in order <==> mk in days
    ensures forall a, b :: 0 <= a < b < |order| ==> order[a] != order[b]
    ensures order == FirstSeen(WindowMonths(cal, startTime, span))
  {
    months := {};
    days := map[];
    order := [];
    var dayOffset := 0;
    while dayOffset < span
      invariant 0 <= dayOffset <= span
      invariant GroupedAfter(cal, startTime, dayOffset, months, days, order)
      invariant order == FirstSeen(WindowMonths(cal, startTime, dayOffset))
    {
      months, days, order := FileDay(startTime, cal, dayOffset, months, days, order);
      dayOffset := dayOffset + 1;
    }
  }

  /** `m` is the element of `s` that precedes all the others. */
  predicate Least(m: string, s: set<string>) {
    m in s && forall y :: y in s && y != m ==> LexLess(m, y)
  }

  /** Some element of a non-empty set of strings precedes all the others. */
  lemma {:induction false} LeastExists(s: set<string>)
    requires s != {}
    ensures exists m :: Least(m, s)
    decreases |s|
  {
    var x :| x in s;
    if s == {x} {
      assert Least(x, s);
    } else {
      var r := s - {x};
      assert r != {} by { var z :| z in s && z != x; assert z in r; }
      LeastExists(r);
      var m :| Least(m, r);
      LeastOfOneMore(r, m, x);
      assert r + {x} == s;
    }
  }

  /** Adding one element to a set keeps its least element or makes the new one least. */
  lemma LeastOfOneMore(r: set<string>, m: string, x: string)
    requires Least(m, r) && x !in r
    ensures Least(m, r + {x}) || Least(x, r + {x})
  {
    LexLessTotal(m, x);
    if !LexLess(m, x) {
      forall y | y in r + {x} && y != x ensures LexLess(x, y) {
        if y != m { LexLessTransitive(x, m, y); }
      }
    }
  }

  /** `sorted(months)`: the keys in increasing string order. */
  method SortKeys(keys: set<string>) returns (ks: seq<string>)
    ensures forall a, b :: 0 <= a < b < |ks| ==> LexLess(ks[a], ks[b])
    ensures forall k :: k in ks <==> k in keys
    ensures |ks| == |keys|
  {
    var rest := keys;
    ks := [];
    while rest != {}
      invariant rest <= keys
      invariant forall k :: k in ks <==> k in keys && k !in rest
      invariant forall a, b :: 0 <= a < b < |ks| ==> LexLess(ks[a], ks[b])
      invariant forall a, y :: 0 <= a < |ks| && y in rest ==> LexLess(ks[a], y)
      invariant |ks| + |rest| == |keys|
      decreases |rest|
    {
      LeastExists(rest);
      var m :| Least(m, rest);
      ks := ks + [m];
      rest := rest - {m};
    }
  }

  /** The parameters of one Month node and of one Day node. */
  datatype MonthRow = MonthRow(key: string, year: int, month: int)
  datatype DayRow = DayRow(monthKey: string, dayKey: string, year: int, month: int, day: int)

  ghost predicate MonthRowOf(r: MonthRow, d: Date) {
    r.key == MonthKey(d) && r.year == d.year && r.month == d.month
  }

  ghost predicate DayRowOf(r: DayRow, d: Date) {
    r.monthKey == MonthKey(d) && r.dayKey == DayKey(d) && r.year == d.year && r.month == d.month && r.day == d.day
  }

  /** `r` carries the keys and calendar fields of one of the window's days. */
  ghost predicate MonthRowInWindow(cal: Calendar, startTime: int, span: nat, r: MonthRow) {
    exists i :: 0 <= i < span && MonthRowOf(r, WindowDay(cal, startTime, i))
  }

  ghost predicate DayRowInWindow(cal: Calendar, startTime: int, span: nat, r: DayRow) {
    exists i :: 0 <= i < span && DayRowOf(r, WindowDay(cal, startTime, i))
  }

  /** Some row of `rows` is the Month row of date `d`'s month. */
  ghost predicate HasMonthRow(rows: seq<MonthRow>, d: Date) {
    exists r :: r in rows && r.key == MonthKey(d)
  }

  /** Some row of `rows` is the Day row of date `d`. */
  ghost predicate HasDayRow(rows: seq<DayRow>, d: Date) {
    exists r :: r in rows && DayRowOf(r, d)
  }

  /** One Month node: the year and month parsed back out of a window Month key. */
  method MonthNode(startTime: int, cal: Calendar, span: nat, monthKey: string) returns (row: MonthRow)
    requires monthKey in MonthsSeen(cal, startTime, span)
    ensures row.key == monthKey
    ensures MonthRowInWindow(cal, startTime, span, row)
  {
    ghost var i :| 0 <= i < span && monthKey == MonthKey(WindowDay(cal, startTime, i));
    MonthKeyRoundTrip(WindowDay(cal, startTime, i));
    var params := MonthParams(monthKey).value;
    row := MonthRow(monthKey, params.0, params.1);
    assert MonthRowOf(row, WindowDay(cal, startTime, i));
  }

  /** The Month loop: one row per sorted key. */
  method MonthNodes(startTime: int, cal: Calendar, span: nat, sortedMonths: seq<string>) returns (monthRows: seq<MonthRow>)
    requires forall k :: k in sortedMonths <==> k in MonthsSeen(cal, startTime, span)
    requires forall a, b :: 0 <= a < b < |sortedMonths| ==> LexLess(sortedMonths[a], sortedMonths[b])
    ensures |monthRows| == |sortedMonths|
    ensures forall j :: 0 <= j < |monthRows| ==> monthRows[j].key == sortedMonths[j]
    ensures forall a, b :: 0 <= a < b < |monthRows| ==> LexLess(monthRows[a].key, monthRows[b].key)
    ensures forall r :: r in monthRows ==> MonthRowInWindow(cal, startTime, span, r)
    ensures forall i :: 0 <= i < span ==> HasMonthRow(monthRows, WindowDay(cal, startTime, i))
  {
    monthRows := [];
    var k := 0;
    while k < |sortedMonths|
      invariant 0 <= k <= |sortedMonths|
      invariant |monthRows| == k
      invariant forall j :: 0 <= j < k ==> monthRows[j].key == sortedMonths[j]
      invariant forall r :: r in monthRows ==> MonthRowInWindow(cal, startTime, span, r)
    {
      var row := MonthNode(startTime, cal, span, sortedMonths[k]);
      monthRows := monthRows + [row];
      k := k + 1;
    }
    MonthRowsCover(startTime, cal, span, sortedMonths, monthRows);
  }

  /** One row per key of every window month has a row for every window day's month. */
  lemma MonthRowsCover(startTime: int, cal: Calendar, span: nat, sortedMonths: seq<string>, monthRows: seq<MonthRow>)
    requires forall k :: k in MonthsSeen(cal, startTime, span) ==> k in sortedMonths
    requires |monthRows| == |sortedMonths|
    requires forall j :: 0 <= j < |monthRows| ==> monthRows[j].key == sortedMonths[j]
    ensures forall i :: 0 <= i < span ==> HasMonthRow(monthRows, WindowDay(cal, startTime, i))
  {
    forall i | 0 <= i < span
      ensures HasMonthRow(monthRows, WindowDay(cal, startTime, i))
    {
      var mk := MonthKey(WindowDay(cal, startTime, i));
      assert mk in MonthsSeen(cal, startTime, span);
      var j :| 0 <= j < |sortedMonths| && sortedMonths[j] == mk;
      assert monthRows[j] in monthRows;
    }
  }

  /** One Day node: the year, month and day parsed back out of a window Day key. */
  method DayNode(startTime: int, cal: Calendar, span: nat, monthKey: string, dayKey: string) returns (row: DayRow)
    requires dayKey in DaysSeen(cal, startTime, span, monthKey)
    ensures row.dayKey == dayKey && row.monthKey == monthKey
    ensures DayRowInWindow(cal, startTime, span, row)
  {
    DaysSeenDates(cal, startTime, span, monthKey, dayKey);
    ghost var i :| 0 <= i < span && MonthKey(WindowDay(cal, startTime, i)) == monthKey
      && dayKey == DayKey(WindowDay(cal, startTime, i));
    DayKeyRoundTrip(WindowDay(cal, startTime, i));
    var params := DayParams(dayKey).value;
    row := DayRow(monthKey, dayKey, params.0, params.1, params.2);
    assert DayRowOf(row, WindowDay(cal, startTime, i));
  }

  /** The inner Day loop for one month: one row per listed Day key, in list order. */
  method DayNodesOfMonth(startTime: int, cal: Calendar, span: nat, monthKey: string, dayKeys: seq<string>)
    returns (rows: seq<DayRow>)
    requires forall x :: x in dayKeys ==> x in DaysSeen(cal, startTime, span, monthKey)
    ensures |rows| == |dayKeys|
    ensures forall j :: 0 <= j < |rows| ==> rows[j].dayKey == dayKeys[j] && rows[j].monthKey == monthKey
    ensures forall r :: r in rows ==> DayRowInWindow(cal, startTime, span, r)
    ensures forall x :: x in dayKeys ==> exists r :: r in rows && r.dayKey == x && r.monthKey == monthKey
  {
    rows := [];
    var t := 0;
    while t < |dayKeys|
      invariant 0 <= t <= |dayKeys| && |rows| == t
      invariant forall j :: 0 <= j < t ==> rows[j].dayKey == dayKeys[j] && rows[j].monthKey == monthKey
      invariant forall j :: 0 <= j < t ==> DayRowInWindow(cal, startTime, span, rows[j])
    {
      var row := DayNode(startTime, cal, span, monthKey, dayKeys[t]);
      rows := rows + [row];
      t := t + 1;
    }
    RowsListKeys(rows, dayKeys, monthKey);
  }

  /** Rows made one per listed key carry every listed key. */
  lemma RowsListKeys(rows: seq<DayRow>, dayKeys: seq<string>, monthKey: string)
    requires |rows| == |dayKeys|
    requires forall j :: 0 <= j < |rows| ==> rows[j].dayKey == dayKeys[j] && rows[j].monthKey == monthKey
    ensures forall x :: x in dayKeys ==> exists r :: r in rows && r.dayKey == x && r.monthKey == monthKey
  {
    forall x | x in dayKeys ensures exists r :: r in rows && r.dayKey == x && r.monthKey == monthKey {
      var j :| 0 <= j < |dayKeys| && dayKeys[j] == x;
      assert rows[j] in rows;
    }
  }

  /** A window day whose keys have a row in the window has its own row there. */
  lemma DayRowFound(cal: Calendar, startTime: int, span: nat, rows: seq<DayRow>, r: DayRow, d: Date)
    requires r in rows && DayRowInWindow(cal, startTime, span, r)
    requires r.dayKey == DayKey(d)
    ensures HasDayRow(rows, d)
  {
    var j :| 0 <= j < span && DayRowOf(r, WindowDay(cal, startTime, j));
    KeysInjective(d, WindowDay(cal, startTime, j));
  }

  /** Every window day whose Month key is listed in `monthKeys` has its Day row in `rows`. */
  ghost predicate CoversMonths(cal: Calendar, startTime: int, span: nat, rows: seq<DayRow>, monthKeys: seq<string>) {
    forall i :: 0 <= i < span && MonthKey(WindowDay(cal, startTime, i)) in monthKeys ==>
      HasDayRow(rows, WindowDay(cal, startTime, i))
  }

  /** Appending one month's Day rows covers that month as well. */
  lemma CoversOneMore(cal: Calendar, startTime: int, span: nat, before: seq<DayRow>, rows: seq<DayRow>,
                      done: seq<string>, monthKey: string)
    requires CoversMonths(cal, startTime, span, before, done)
    requires forall r :: r in rows ==> DayRowInWindow(cal, startTime, span, r)
    requires forall x :: x in DaysSeen(cal, startTime, span, monthKey) ==>
      exists r :: r in rows && r.dayKey == x && r.monthKey == monthKey
    ensures CoversMonths(cal, startTime, span, before + rows, done + [monthKey])
  {
    forall i | 0 <= i < span && MonthKey(WindowDay(cal, startTime, i)) in done + [monthKey]
      ensures HasDayRow(before + rows, WindowDay(cal, startTime, i))
    {
      var d := WindowDay(cal, startTime, i);
      if MonthKey(d) in done {
        var r :| r in before && DayRowOf(r, d);
        assert r in before + rows;
      } else {
        assert DayKey(d) in DaysSeen(cal, startTime, span, monthKey);
        var r :| r in rows && r.dayKey == DayKey(d) && r.monthKey == monthKey;
        DayRowFound(cal, startTime, span, before + rows, r, d);
      }
    }
  }

  lemma PrefixStep<T>(s: seq<T>, m: nat)
    requires m < |s|
    ensures s[..m + 1] == s[..m] + [s[m]]
  {
  }

  /** The grouped Day lists hold exactly the window's Day keys of each month. */
  lemma GroupedDaysMembers(cal: Calendar, startTime: int, span: nat, days: map<string, seq<string>>)
    requires forall mk :: mk in days ==> days[mk] == DaysInOrder(cal, startTime, span, mk)
    ensures forall mk :: mk in days ==> forall x :: x in days[mk] <==> x in DaysSeen(cal, startTime, span, mk)
  {
    forall mk | mk in days
      ensures forall x :: x in days[mk] <==> x in DaysSeen(cal, startTime, span, mk)
    {
      DaysInOrderMembers(cal, startTime, span, mk);
    }
  }

  /** The outer Day loop: the months in first-seen order, each with its Day rows. */
  method DayNodes(startTime: int, cal: Calendar, span: nat, days: map<string, seq<string>>, order: seq<string>)
    returns (dayRows: seq<DayRow>)
    requires days.Keys == MonthsSeen(cal, startTime, span)
    requires forall mk :: mk in days ==> forall x :: x in days[mk] <==> x in DaysSeen(cal, startTime, span, mk)
    requires forall mk :: mk in order <==> mk in days
    ensures forall r :: r in dayRows ==> DayRowInWindow(cal, startTime, span, r)
    ensures forall i :: 0 <= i < span ==> HasDayRow(dayRows, WindowDay(cal, startTime, i))
  {
    dayRows := [];
    var m := 0;
    while m < |order|
      invariant 0 <= m <= |order|
      invariant forall r :: r in dayRows ==> DayRowInWindow(cal, startTime, span, r)
      invariant CoversMonths(cal, startTime, span, dayRows, order[..m])
    {
      var monthKey := order[m];
      var rows := DayNodesOfMonth(startTime, cal, span, monthKey, days[monthKey]);
      CoversOneMore(cal, startTime, span, dayRows, rows, order[..m], monthKey);
      PrefixStep(order, m);
      dayRows := dayRows + rows;
      m := m + 1;
    }
    assert order[..m] == order;
    forall i | 0 <= i < span ensures HasDayRow(dayRows, WindowDay(cal, startTime, i)) {
      assert MonthKey(WindowDay(cal, startTime, i)) in days;
    }
  }

  /**
   * The grouping loop followed by `sorted(months)`: the sorted Month keys,
   * each month's Day list holding exactly that month's window Day keys, and
   * the order in which the Day loop visits the months.
   */
  method GroupAndSort(startTime: int, cal: Calendar, span: nat)
    returns (sortedMonths: seq<string>, days: map<string, seq<string>>, order: seq<string>)
    ensures forall k :: k in sortedMonths <==> k in MonthsSeen(cal, startTime, span)
    ensures forall a, b :: 0 <= a < b < |sortedMonths| ==> LexLess(sortedMonths[a], sortedMonths[b])
    ensures days.Keys == MonthsSeen(cal, startTime, span)
    ensures forall mk :: mk in days ==> forall x :: x in days[mk] <==> x in DaysSeen(cal, startTime, span, mk)
    ensures forall mk :: mk in order <==> mk in days
  {
    var months;
    months, days, order := GroupWindow(startTime, cal, span);
    GroupedDaysMembers(cal, startTime, span, days);
    sortedMonths := SortKeys(months);
  }

  /**
   * `create_temporal_hierarchy`: the Month rows in sorted key order, then for
   * each Month key in first-seen order its Day rows in day order. Every row's
   * numeric fields are parsed back out of its key, and equal the calendar
   * fields of the window day it came from; every window day has its Month
   * row and its Day row.
   */
  method CreateTemporalHierarchy(startTime: int, cal: Calendar, span: nat)
    returns (monthRows: seq<MonthRow>, dayRows: seq<DayRow>)
    ensures forall a, b :: 0 <= a < b < |monthRows| ==> LexLess(monthRows[a].key, monthRows[b].key)
    ensures forall r :: r in monthRows ==> MonthRowInWindow(cal, startTime, span, r)
    ensures forall i :: 0 <= i < span ==> HasMonthRow(monthRows, WindowDay(cal, startTime, i))
    ensures forall r :: r in dayRows ==> DayRowInWindow(cal, startTime, span, r)
    ensures forall i :: 0 <= i < span ==> HasDayRow(dayRows, WindowDay(cal, startTime, i))
  {
    var sortedMonths, days, order := GroupAndSort(startTime, cal, span);
    monthRows := MonthNodes(startTime, cal, span, sortedMonths);
    dayRows := DayNodes(startTime, cal, span, days, order);
  }

  /**
   * For four-digit years the sorted Month rows run in chronological order:
   * `sorted(months)` creates the Month nodes from the oldest month on.
   */
  lemma MonthRowsChronological(rows: seq<MonthRow>, dates: seq<Date>)
    requires |rows| == |dates|
    requires forall k :: 0 <= k < |rows| ==> MonthRowOf(rows[k], dates[k])
    requires forall k :: 0 <= k < |dates| ==> ValidDate(dates[k]) && 1000 <= dates[k].year
    requires forall a, b :: 0 <= a < b < |rows| ==> LexLess(rows[a].key, rows[b].key)
    ensures forall a, b :: 0 <= a < b < |rows| ==> MonthBefore(dates[a], dates[b])
  {
    forall a, b | 0 <= a < b < |rows| ensures MonthBefore(dates[a], dates[b]) {
      MonthKeyOrder(dates[a], dates[b]);
    }
  }
}
