/**
 * The Month and Day bucket keys of the time-partitioned schema:
 * `f"{year}_{month:02d}"` and `f"{year}_{month:02d}_{day:02d}"`, and the
 * `int(key.split('_')[i])` parsing that recovers the calendar fields.
 */
module TemporalKeys {
  import opened Base
  import opened Text

  /** A local calendar date, as `datetime.fromtimestamp` produces it. */
  datatype Date = Date(year: nat, month: nat, day: nat)

  /** The dates `datetime` can represent. */
  predicate ValidDate(d: Date) {
    1 <= d.year <= 9999 && 1 <= d.month <= 12 && 1 <= d.day <= 31
  }

  /** The Month bucket key `f"{dt.year}_{dt.month:02d}"`. */
  function MonthKey(d: Date): string {
    NatToString(d.year) + "_" + Pad2(d.month)
  }

  /** The Day bucket key `f"{dt.year}_{dt.month:02d}_{dt.day:02d}"`. */
  function DayKey(d: Date): string {
    NatToString(d.year) + "_" + Pad2(d.month) + "_" + Pad2(d.day)
  }

  /** The Month node's parameters: `int(key.split('_')[0])`, `int(key.split('_')[1])`. */
  function MonthParams(key: string): Result<(int, int)> {
    var parts := SplitOn(key, '_');
    match ParseInt(parts[0])
    case None => Err(ValueError)
    case Some(y) =>
      if |parts| < 2 then Err(IndexError)
      else
        match ParseInt(parts[1])
        case None => Err(ValueError)
        case Some(m) => Ok((y, m))
  }

  /** The Day node's parameters: the first three `_`-separated parts as ints. */
  function DayParams(key: string): Result<(int, int, int)> {
    var parts := SplitOn(key, '_');
    match ParseInt(parts[0])
    case None => Err(ValueError)
    case Some(y) =>
      if |parts| < 2 then Err(IndexError)
      else
        match ParseInt(parts[1])
        case None => Err(ValueError)
        case Some(m) =>
          if |parts| < 3 then Err(IndexError)
          else
            match ParseInt(parts[2])
            case None => Err(ValueError)
            case Some(dd) => Ok((y, m, dd))
  }

  /** A Day key is its Month key followed by `_` and the two-digit day. */
  lemma DayKeyExtendsMonthKey(d: Date)
    ensures DayKey(d) == MonthKey(d) + "_" + Pad2(d.day)
    ensures StartsWith(DayKey(d), MonthKey(d))
  {
    var k := DayKey(d);
    assert k[..|MonthKey(d)|] == MonthKey(d);
  }

  lemma NoSeparatorInDigits(s: string)
    requires AllDigits(s)
    ensures '_' !in s
  {
  }

  lemma Pad2Digits(n: nat)
    ensures AllDigits(Pad2(n))
  {
  }

  /** Splitting a Month key on `_` gives back its two formatted parts. */
  lemma SplitMonthKey(d: Date)
    ensures SplitOn(MonthKey(d), '_') == [NatToString(d.year), Pad2(d.month)]
  {
    var y, m := NatToString(d.year), Pad2(d.month);
    NoSeparatorInDigits(y);
    Pad2Digits(d.month);
    NoSeparatorInDigits(m);
    SplitOnFirst(y, '_', m);
    SplitOnNoSeparator(m, '_');
  }

  /** Splitting a Day key on `_` gives back its three formatted parts. */
  lemma SplitDayKey(d: Date)
    ensures SplitOn(DayKey(d), '_') == [NatToString(d.year), Pad2(d.month), Pad2(d.day)]
  {
    var y, m, dd := NatToString(d.year), Pad2(d.month), Pad2(d.day);
    NoSeparatorInDigits(y);
    Pad2Digits(d.month);
    NoSeparatorInDigits(m);
    Pad2Digits(d.day);
    NoSeparatorInDigits(dd);
    assert DayKey(d) == y + ['_'] + (m + ['_'] + dd);
    SplitOnFirst(y, '_', m + ['_'] + dd);
    SplitOnFirst(m, '_', dd);
    SplitOnNoSeparator(dd, '_');
  }

  /** Parsing a formatted Month key recovers `(year, month)`. */
  lemma MonthKeyRoundTrip(d: Date)
    ensures MonthParams(MonthKey(d)) == Ok((d.year, d.month))
  {
    SplitMonthKey(d);
    ParseNatToString(d.year);
    ParsePad2(d.month);
  }

  /** Parsing a formatted Day key recovers `(year, month, day)`. */
  lemma DayKeyRoundTrip(d: Date)
    ensures DayParams(DayKey(d)) == Ok((d.year, d.month, d.day))
  {
    SplitDayKey(d);
    ParseNatToString(d.year);
    ParsePad2(d.month);
    ParsePad2(d.day);
  }

  /** Distinct dates give distinct Day keys, and distinct months distinct Month keys. */
  lemma KeysInjective(a: Date, b: Date)
    ensures MonthKey(a) == MonthKey(b) <==> a.year == b.year && a.month == b.month
    ensures DayKey(a) == DayKey(b) <==> a == b
  {
    MonthKeyRoundTrip(a);
    MonthKeyRoundTrip(b);
    DayKeyRoundTrip(a);
    DayKeyRoundTrip(b);
  }

  lemma FourDigitYear(y: nat)
    requires 1000 <= y <= 9999
    ensures |NatToString(y)| == 4
  {
    assert |NatToString(y / 1000)| == 1;
    assert |NatToString(y / 100)| == 2 by { assert (y / 100) / 10 == y / 1000; }
    assert |NatToString(y / 10)| == 3 by { assert (y / 10) / 10 == y / 100; }
  }

  /** Month `a` comes strictly before month `b` in time. */
  predicate MonthBefore(a: Date, b: Date) {
    a.year < b.year || (a.year == b.year && a.month < b.month)
  }

  /** Day `a` comes strictly before day `b` in time. */
  predicate DayBefore(a: Date, b: Date) {
    MonthBefore(a, b) || (a.year == b.year && a.month == b.month && a.day < b.day)
  }

  lemma LexLessAfterSeparator(p: string, q: string)
    ensures LexLess("_" + p, "_" + q) <==> LexLess(p, q)
  {
    LexLessConcat("_", p, "_", q);
    LexLessIrreflexive("_");
  }

  /**
   * For four-digit years, Python's string order on Month keys is the
   * chronological order of the months: `sorted(months)` walks them in time.
   */
  lemma MonthKeyOrder(a: Date, b: Date)
    requires ValidDate(a) && ValidDate(b)
    requires 1000 <= a.year && 1000 <= b.year
    ensures LexLess(MonthKey(a), MonthKey(b)) <==> MonthBefore(a, b)
  {
    var ya, yb := NatToString(a.year), NatToString(b.year);
    var pa, pb := Pad2(a.month), Pad2(b.month);
    FourDigitYear(a.year);
    FourDigitYear(b.year);
    assert MonthKey(a) == ya + ("_" + pa) && MonthKey(b) == yb + ("_" + pb);
    LexLessConcat(ya, "_" + pa, yb, "_" + pb);
    LexLessNatToString(a.year, b.year);
    if ya == yb { NatToStringInjective(a.year, b.year); }
    LexLessAfterSeparator(pa, pb);
    LexLessPad2(a.month, b.month);
  }

  /** A four-digit year's Day key is its seven-character Month key, "_" and the two-digit day. */
  lemma DayKeyParts(d: Date)
    requires ValidDate(d) && 1000 <= d.year
    ensures DayKey(d) == MonthKey(d) + ("_" + Pad2(d.day))
    ensures |MonthKey(d)| == 7
  {
    FourDigitYear(d.year);
    Pad2TwoDigits(d.month);
    DayKeyExtendsMonthKey(d);
    assert MonthKey(d) + "_" + Pad2(d.day) == MonthKey(d) + ("_" + Pad2(d.day));
  }

  /** The same holds for Day keys and the chronological order of days. */
  lemma DayKeyOrder(a: Date, b: Date)
    requires ValidDate(a) && ValidDate(b)
    requires 1000 <= a.year && 1000 <= b.year
    ensures LexLess(DayKey(a), DayKey(b)) <==> DayBefore(a, b)
  {
    var ma, mb := MonthKey(a), MonthKey(b);
    var da, db := Pad2(a.day), Pad2(b.day);
    DayKeyParts(a);
    DayKeyParts(b);
    LexLessConcat(ma, "_" + da, mb, "_" + db);
    MonthKeyOrder(a, b);
    KeysInjective(a, b);
    LexLessAfterSeparator(da, db);
    LexLessPad2(a.day, b.day);
  }
}
